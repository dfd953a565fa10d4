/** The whole life of a family entry: what every saved version keeps, and that rewards fire once. */
module FamilyTheorems {
  import opened Days
  import opened Rewards
  import opened Family
  import opened FamilyRewards

  /** One accepted request and the time of its save. */
  datatype Change =
    | Act(actor: Principal, command: Command, today: Day, now: int, savedAt: int)
    | Rewrite(actor: Principal, version: int, draft: Draft, people: seq<Person>, today: Day, savedAt: int)

  ghost function After(e: Entry, c: Change): (Error, Entry) {
    match c
    case Act(actor, command, today, now, _) => Applied(e, actor, command, today, now)
    case Rewrite(actor, version, draft, people, today, _) => Edited(e, actor, version, draft, people, today)
  }

  /** The next saved version is the accepted outcome of a request on this one. */
  ghost predicate Follows(e: Entry, c: Change, next: Entry) {
    var (error, after) := After(e, c);
    && error == Accepted && (c.Act? ==> c.now != 0)
    && next == after.(version := e.version + 1, updated := c.savedAt)
  }

  /** An entry as first saved. */
  ghost predicate Fresh(e: Entry) {
    e.id > 0 && e.version == 1 && e.events == [] && !e.archived && !e.approved && EntryValid(e)
  }

  ghost predicate History(h: seq<Entry>, cs: seq<Change>) {
    && |h| == |cs| + 1 && Fresh(h[0])
    && forall i :: 0 <= i < |cs| ==> Follows(h[i], cs[i], h[i + 1])
  }

  // ---------------------------------------------------------------- event discipline

  function StagesOf(events: seq<Event>, actor: int): seq<int> {
    if events == [] then []
    else
      var v := events[|events| - 1];
      StagesOf(events[..|events| - 1], actor) + if v.kind.Stage? && v.actor == actor then [v.step] else []
  }

  /** The stages one, two, and so on up to at most four. */
  predicate Counting(s: seq<int>) {
    |s| <= 4 && forall i :: 0 <= i < |s| ==> s[i] == i + 1
  }

  /** Progress that may be recorded only once. */
  predicate SameProgress(v: Event, w: Event) {
    || (v.kind.Checkin? && w.kind.Checkin? && v.actor == w.actor && v.day == w.day)
    || (v.kind.Step? && w.kind.Step? && v.step == w.step)
    || (v.kind.Repeat? && w.kind.Repeat? && v.actor == w.actor)
  }

  ghost predicate Disciplined(e: Entry) {
    && EntryValid(e)
    && (forall actor :: Counting(StagesOf(e.events, actor)))
    && forall i, j :: 0 <= i < j < |e.events| ==> !SameProgress(e.events[i], e.events[j])
  }

  lemma {:induction false} ReachedIsCount(events: seq<Event>, actor: int)
    requires Counting(StagesOf(events, actor))
    ensures StageReached(events, actor) == |StagesOf(events, actor)|
  {
    if events != [] {
      var rest, v := events[..|events| - 1], events[|events| - 1];
      var before := StagesOf(rest, actor);
      assert Counting(before) by {
        assert before <= StagesOf(events, actor);
        forall i | 0 <= i < |before| ensures before[i] == i + 1 {
          assert StagesOf(events, actor)[i] == before[i];
        }
      }
      ReachedIsCount(rest, actor);
      if v.kind.Stage? && v.actor == actor {
        assert StagesOf(events, actor)[|before|] == v.step;
      }
    }
  }

  lemma {:induction false} StagesAppend(events: seq<Event>, v: Event, actor: int)
    ensures StagesOf(events + [v], actor)
         == StagesOf(events, actor) + if v.kind.Stage? && v.actor == actor then [v.step] else []
  {
    assert (events + [v])[..|events|] == events;
  }

  /** An event that may follow the events of an entry. */
  predicate MayFollow(e: Entry, v: Event) {
    && EventValid(v, |e.draft.steps|) && |e.events| < MAX_EVENTS
    && (v.kind.Stage? ==> v.step == StageReached(e.events, v.actor) + 1)
    && forall i :: 0 <= i < |e.events| ==> !SameProgress(e.events[i], v)
  }

  lemma {:induction false} StageCounts(e: Entry, v: Event, actor: int)
    requires Counting(StagesOf(e.events, actor)) && MayFollow(e, v)
    ensures Counting(StagesOf(e.events + [v], actor))
  {
    hide SameProgress, StagesOf, StageReached;
    StagesAppend(e.events, v, actor);
    ReachedIsCount(e.events, actor);
  }

  lemma {:induction false} StillValid(e: Entry, v: Event)
    requires EntryValid(e) && MayFollow(e, v)
    ensures EntryValid(e.(events := e.events + [v]))
  {
    hide SameProgress, StepValid, ParticipantsValid, WeekdaysValid, EventValid, StageReached, Blank;
  }

  lemma {:induction false} StillDisciplined(e: Entry, v: Event)
    requires Disciplined(e) && MayFollow(e, v)
    ensures Disciplined(e.(events := e.events + [v]))
  {
    hide EntryValid, Counting, SameProgress, EventValid, StagesOf, StageReached;
    var after := e.(events := e.events + [v]);
    StillValid(e, v);
    forall actor ensures Counting(StagesOf(after.events, actor)) {
      StageCounts(e, v, actor);
    }
    forall i, j | 0 <= i < j < |after.events| ensures !SameProgress(after.events[i], after.events[j]) {
      if j < |e.events| {
        assert !SameProgress(e.events[i], e.events[j]);
      } else {
        assert !SameProgress(e.events[i], v);
      }
    }
  }

  /** Progress that is recorded is progress that may follow. */
  lemma {:induction false} ProgressFollows(e: Entry, actor: Principal, c: Command, now: int)
    requires c.action.Progress? && IsMember(actor) && now != 0
    requires ValidDay(c.day) && |c.note| <= 2000 && |e.events| < MAX_EVENTS
    requires EntryValid(e)
    ensures var after := Progressed(e, actor, c, now).1;
            after == e || (after == e.(events := e.events + [EventFor(actor, c, now)]) && MayFollow(e, EventFor(actor, c, now)))
  {
    hide EntryValid, Trim, ValidDay;
    ReachedAtLeastZero(e.events, actor.id);
  }

  lemma {:induction false} ReachedAtLeastZero(events: seq<Event>, actor: int)
    ensures StageReached(events, actor) >= 0
  {
    if events != [] {
      ReachedAtLeastZero(events[..|events| - 1], actor);
    }
  }

  /** A command adds at most one event, one that may follow, and otherwise only switches flags. */
  lemma {:induction false} AppliedShape(e: Entry, actor: Principal, c: Command, today: Day, now: int)
    requires EntryValid(e) && now != 0
    ensures var after := Applied(e, actor, c, today, now).1;
            && EntryValid(after)
            && after == e.(archived := after.archived, approved := after.approved, events := after.events)
            && (after.events == e.events
                || (after == e.(events := after.events) && c.action.Progress?
                    && after.events == e.events + [EventFor(actor, c, now)] && MayFollow(e, EventFor(actor, c, now))))
  {
    hide MayFollow, Progressed, CanEdit, EventFor;
    FlagsFree(e, true, e.approved);
    FlagsFree(e, false, e.approved);
    FlagsFree(e, e.archived, true);
    hide EntryValid;
    if c.action.Progress? && IsMember(actor) && ValidDay(c.day) && |c.note| <= 2000 && |e.events| < MAX_EVENTS {
      ProgressFollows(e, actor, c, now);
      if Progressed(e, actor, c, now).1 != e {
        StillValid(e, EventFor(actor, c, now));
      }
    }
  }

  /** The switches of an entry are no part of what makes it valid. */
  lemma {:induction false} FlagsFree(e: Entry, archived: bool, approved: bool)
    requires EntryValid(e)
    ensures EntryValid(e.(archived := archived, approved := approved))
  {
    hide StepValid, ParticipantsValid, WeekdaysValid, EventValid, Blank;
  }

  lemma {:induction false} FlagsKeep(e: Entry, after: Entry)
    requires Disciplined(e) && EntryValid(after)
    requires after == e.(archived := after.archived, approved := after.approved)
    ensures Disciplined(after)
  {
    hide EntryValid, SameProgress, Counting;
    forall actor ensures Counting(StagesOf(after.events, actor)) {
      assert Counting(StagesOf(e.events, actor));
    }
  }

  lemma {:induction false} AppliedKeeps(e: Entry, actor: Principal, c: Command, today: Day, now: int)
    requires Disciplined(e) && now != 0
    ensures var after := Applied(e, actor, c, today, now).1;
            && Disciplined(after)
            && e.events <= after.events && |after.events| <= |e.events| + 1
            && after == e.(archived := after.archived, approved := after.approved, events := after.events)
  {
    hide Disciplined, Applied, MayFollow, EntryValid, EventFor;
    IsValid(e);
    AppliedShape(e, actor, c, today, now);
    var after := Applied(e, actor, c, today, now).1;
    if after.events == e.events {
      FlagsKeep(e, after);
    } else {
      StillDisciplined(e, EventFor(actor, c, now));
    }
  }

  lemma {:induction false} IsValid(e: Entry)
    requires Disciplined(e)
    ensures EntryValid(e)
  {
    hide EntryValid;
  }

  lemma {:induction false} EditedKeeps(e: Entry, actor: Principal, version: int, draft: Draft,
      people: seq<Person>, today: Day)
    requires Disciplined(e) && Edited(e, actor, version, draft, people, today).0 == Accepted
    ensures var after := Edited(e, actor, version, draft, people, today).1;
            && Disciplined(after)
            && after == e.(draft := after.draft, approved := after.approved)
            && (e.events != [] ==> after.draft.steps == e.draft.steps)
  {
    hide EntryValid;
  }

  /** One save: the entry stays disciplined, its history is extended and, once begun, its steps are fixed. */
  lemma {:induction false} SaveKeeps(e: Entry, c: Change, next: Entry)
    requires Disciplined(e) && Follows(e, c, next)
    ensures Disciplined(next)
    ensures e.events <= next.events && |next.events| <= |e.events| + 1
    ensures e.events != [] ==> next.draft.steps == e.draft.steps
    ensures next.version == e.version + 1
    ensures next.id == e.id && next.kind == e.kind && next.author == e.author && next.created == e.created
  {
    hide Applied, Edited;
    match c {
      case Act(actor, command, today, now, _) => AppliedKeeps(e, actor, command, today, now);
      case Rewrite(actor, version, draft, people, today, _) => EditedKeeps(e, actor, version, draft, people, today);
    }
    assert EntryValid(After(e, c).1);
  }

  /** One save of any valid entry, whatever it went through before: valid again, extended, its steps fixed once begun. */
  lemma {:induction false} SaveExtends(e: Entry, c: Change, next: Entry)
    requires EntryValid(e) && Follows(e, c, next)
    ensures EntryValid(next) && e.events <= next.events
    ensures next.events == e.events || (|next.events| == |e.events| + 1 && MayFollow(e, next.events[|e.events|]))
    ensures e.events != [] ==> next.draft.steps == e.draft.steps
    ensures next.version == e.version + 1
    ensures next.id == e.id && next.kind == e.kind && next.author == e.author && next.created == e.created
  {
    hide Applied, Edited, MayFollow;
    match c {
      case Act(actor, command, today, now, _) => AppliedShape(e, actor, command, today, now);
      case Rewrite(actor, version, draft, people, today, _) => EditedShape(e, actor, version, draft, people, today);
    }
    assert EntryValid(After(e, c).1);
  }

  lemma {:induction false} EditedShape(e: Entry, actor: Principal, version: int, draft: Draft, people: seq<Person>,
        today: Day)
    requires Edited(e, actor, version, draft, people, today).0 == Accepted
    ensures var after := Edited(e, actor, version, draft, people, today).1;
            && EntryValid(after)
            && after == e.(draft := after.draft, approved := after.approved)
            && (e.events != [] ==> after.draft.steps == e.draft.steps)
  {
    hide EntryValid, CanEdit;
  }

  /** Versions of an entry from some stored one on, which may be its first save or one that a backup brought. */
  ghost predicate Chain(h: seq<Entry>, cs: seq<Change>) {
    && |h| == |cs| + 1 && h[0].id > 0 && EntryValid(h[0])
    && forall i :: 0 <= i < |cs| ==> Follows(h[i], cs[i], h[i + 1])
  }

  lemma {:induction false} HistoryIsChain(h: seq<Entry>, cs: seq<Change>)
    ensures History(h, cs) <==> Chain(h, cs) && Fresh(h[0])
  {
    hide Follows, EntryValid;
  }

  /** Along any chain of saves versions are valid, count up and extend one another. */
  lemma {:induction false} ChainKeeps(h: seq<Entry>, cs: seq<Change>, i: nat, j: nat)
    requires Chain(h, cs) && i <= j < |h|
    ensures EntryValid(h[j]) && h[j].version == h[0].version + j
    ensures h[i].events <= h[j].events
    ensures h[i].events != [] ==> h[j].draft.steps == h[i].draft.steps
    ensures h[j].id == h[0].id && h[j].kind == h[0].kind && h[j].author == h[0].author
    decreases j
  {
    hide EntryValid, Follows;
    if j > 0 {
      ChainKeeps(h, cs, if i < j then i else i - 1, j - 1);
      assert Follows(h[j - 1], cs[j - 1], h[j]);
      SaveExtends(h[j - 1], cs[j - 1], h[j]);
    }
  }

  /** Over a whole history every version is disciplined and extends all earlier ones. */
  lemma {:induction false} HistoryKeeps(h: seq<Entry>, cs: seq<Change>, i: nat, j: nat)
    requires History(h, cs) && i <= j < |h|
    ensures Disciplined(h[j]) && h[j].version == j + 1
    ensures h[i].events <= h[j].events
    ensures h[i].events != [] ==> h[j].draft.steps == h[i].draft.steps
    ensures h[j].id == h[0].id && h[j].kind == h[0].kind && h[j].author == h[0].author
    decreases j
  {
    hide EntryValid, Follows;
    if j > 0 {
      HistoryKeeps(h, cs, if i < j then i else i - 1, j - 1);
      assert Follows(h[j - 1], cs[j - 1], h[j]);
      SaveKeeps(h[j - 1], cs[j - 1], h[j]);
    } else {
      forall actor ensures Counting(StagesOf(h[0].events, actor)) {
      }
    }
  }

  // ---------------------------------------------------------------- rewards

  /** The achievement a reward stands for has been reached in this version. */
  predicate Earned(e: Entry, r: Reward) {
    match r.source
    case SportSource => e.id != 0
    case HabitSource => CheckedIn(e.events, r.participant, r.day)
    case AdventureSource => Complete(e)
    case _ => false
  }

  lemma {:induction false} StepTakenGrows(events: seq<Event>, more: seq<Event>, step: int)
    requires events <= more && StepTaken(events, step)
    ensures StepTaken(more, step)
  {
    var i :| 0 <= i < |events| && events[i].kind.Step? && events[i].step == step;
    assert more[i] == events[i];
  }

  lemma {:induction false} CheckedInGrows(events: seq<Event>, more: seq<Event>, actor: int, day: Day)
    requires events <= more && CheckedIn(events, actor, day)
    ensures CheckedIn(more, actor, day)
  {
    var i :| 0 <= i < |events| && events[i].kind.Checkin? && events[i].actor == actor && events[i].day == day;
    assert more[i] == events[i];
  }

  lemma {:induction false} CompleteHasEvents(e: Entry)
    requires Complete(e)
    ensures e.events != []
  {
    assert StepTaken(e.events, 0);
  }

  /** What has been reached stays reached, through archive, restore, edit and approval. */
  lemma {:induction false} EarnedStays(e: Entry, c: Change, next: Entry, r: Reward)
    requires EntryValid(e) && Follows(e, c, next) && Earned(e, r)
    ensures Earned(next, r)
  {
    hide EntryValid, Follows, MayFollow;
    SaveExtends(e, c, next);
    match r.source {
      case HabitSource => CheckedInGrows(e.events, next.events, r.participant, r.day);
      case AdventureSource =>
        CompleteHasEvents(e);
        forall i | 0 <= i < |next.draft.steps| ensures StepTaken(next.events, i) {
          StepTakenGrows(e.events, next.events, i);
        }
      case _ =>
    }
  }

  lemma {:induction false} RecipientsDistinct(e: Entry, n: nat)
    requires n <= |e.events| && ParticipantsValid(e.draft.participants)
    ensures forall i, j :: 0 <= i < j < |Recipients(e, n)| ==> Recipients(e, n)[i] != Recipients(e, n)[j]
    ensures e.draft.participants != [] ==> Recipients(e, n) == e.draft.participants
    ensures e.draft.participants == [] ==>
              forall i :: 0 <= i < n && e.events[i].kind.Step? ==> e.events[i].actor in Recipients(e, n)
  {
    if n > 0 {
      RecipientsDistinct(e, n - 1);
    }
  }

  /** A habit save adds at most one event, so it earns at most one reward, for a day not yet checked in. */
  lemma {:induction false} HabitSave(e: Entry, next: Entry)
    requires next.kind.Habit? && e.events <= next.events
    requires next.events == e.events || (|next.events| == |e.events| + 1 && MayFollow(e, next.events[|e.events|]))
    ensures var rs := HabitRewards(next, |e.events|, |next.events|);
            && |rs| <= 1
            && (rs != [] ==>
                  && rs[0] == HabitReward(next, next.events[|e.events|])
                  && CheckedIn(next.events, rs[0].participant, rs[0].day)
                  && !CheckedIn(e.events, rs[0].participant, rs[0].day))
  {
    hide EventValid;
    if |next.events| == |e.events| + 1 {
      var n := |e.events|;
      assert HabitRewards(next, n, n) == [];
      if HabitDay(next, next.events[n]) {
        var v := next.events[n];
        assert CheckedIn(next.events, v.actor, v.day);
        assert !CheckedIn(e.events, v.actor, v.day) by {
          forall i | 0 <= i < n && e.events[i].kind.Checkin? && e.events[i].actor == v.actor
            ensures e.events[i].day != v.day
          {
            assert !SameProgress(e.events[i], v);
          }
        }
      }
    }
  }

  /** The kind of an entry decides which of the three reward rules can apply to its save. */
  lemma {:induction false} CandidatesByKind(before: Entry, after: Entry)
    requires !after.archived
    ensures after.kind.Habit? && |after.events| >= |before.events| ==>
              Candidates(before, after) == HabitRewards(after, |before.events|, |after.events|)
    ensures HasSteps(after.kind) ==>
              Candidates(before, after) == if Undertaken(after) && !Complete(before) && Complete(after)
                                           then AdventureRewards(after, Recipients(after, |after.events|)) else []
    ensures !after.kind.Habit? && !HasSteps(after.kind) && before.id != 0 ==> Candidates(before, after) == []
  {
    hide HabitRewards, AdventureRewards, Recipients, Complete;
    if after.kind.Habit? && |after.events| >= |before.events| {
      var habit := HabitRewards(after, |before.events|, |after.events|);
      assert [] + habit + [] == habit;
    }
    if HasSteps(after.kind) && Undertaken(after) && !Complete(before) && Complete(after) {
      var adventure := AdventureRewards(after, Recipients(after, |after.events|));
      assert [] + [] + adventure == adventure;
    }
  }

  lemma {:induction false} AdventureDistinct(e: Entry, ids: seq<int>)
    requires forall i, j :: 0 <= i < j < |ids| ==> ids[i] != ids[j]
    ensures DistinctRewards(AdventureRewards(e, ids))
  {
  }

  /** The rewards of one save are distinct, and each stands for something first reached in this save. */
  lemma {:induction false} SaveEarnsNew(e: Entry, c: Change, next: Entry)
    requires EntryValid(e) && e.id > 0 && Follows(e, c, next)
    ensures DistinctRewards(Candidates(e, next))
    ensures forall r :: r in Candidates(e, next) ==> Earned(next, r) && !Earned(e, r)
  {
    hide Follows, Candidates, EntryValid, Complete, CheckedIn, HabitRewards, Recipients, MayFollow;
    SaveExtends(e, c, next);
    if next.archived {
      ArchivedEarnsNothing(e, next);
    } else {
      CandidatesByKind(e, next);
      if next.kind.Habit? {
        HabitSave(e, next);
      } else if HasSteps(next.kind) && Undertaken(next) && !Complete(e) && Complete(next) {
        assert ParticipantsValid(next.draft.participants) by { ValidParticipants(next); }
        RecipientsDistinct(next, |next.events|);
        AdventureDistinct(next, Recipients(next, |next.events|));
      }
    }
  }

  lemma {:induction false} ArchivedEarnsNothing(before: Entry, after: Entry)
    requires after.archived
    ensures Candidates(before, after) == []
  {
  }

  lemma {:induction false} ValidParticipants(e: Entry)
    requires EntryValid(e)
    ensures ParticipantsValid(e.draft.participants)
  {
  }

  /** The first save can earn a sport reward and nothing else. */
  lemma {:induction false} FirstSaveEarns(e: Entry)
    requires Fresh(e)
    ensures DistinctRewards(Candidates(NOTHING, e))
    ensures forall r :: r in Candidates(NOTHING, e) ==> r.source.SportSource? && Earned(e, r)
  {
    hide EntryValid;
    if Complete(e) {
      CompleteHasEvents(e);
    }
    assert e.kind.Habit? ==> HabitRewards(e, 0, 0) == [];
  }

  function RewardsAt(h: seq<Entry>, k: nat): seq<Reward>
    requires k < |h|
  {
    Candidates(if k == 0 then NOTHING else h[k - 1], h[k])
  }

  lemma {:induction false} EarnedBefore(h: seq<Entry>, cs: seq<Change>, k: nat, j: nat, r: Reward)
    requires Chain(h, cs) && k <= j < |h| && Earned(h[k], r)
    ensures Earned(h[j], r)
  {
    hide Follows, Earned, EntryValid;
    if k < j {
      EarnedBefore(h, cs, k, j - 1, r);
      ChainKeeps(h, cs, j - 1, j - 1);
      assert Follows(h[j - 1], cs[j - 1], h[j]);
      EarnedStays(h[j - 1], cs[j - 1], h[j], r);
    }
  }

  /**
   No two saves of an entry ever earn the same reward, and one save earns none twice. The oldest version may
   be one that a backup brought; it counts as a save only if the entry was first saved here.
   */
  lemma {:induction false} RewardsFireOnce(h: seq<Entry>, cs: seq<Change>, k: nat, j: nat)
    requires Chain(h, cs) && k < j < |h| && (k > 0 || Fresh(h[0]))
    ensures DistinctRewards(RewardsAt(h, k)) && DistinctRewards(RewardsAt(h, j))
    ensures Keys(RewardsAt(h, k)) !! Keys(RewardsAt(h, j))
  {
    hide Follows, Earned, EntryValid, RewardsAt, Candidates, DistinctRewards, Fresh, KeyOf;
    SaveOf(h, cs, k);
    SaveOf(h, cs, j);
    forall r, t | r in RewardsAt(h, k) && t in RewardsAt(h, j) ensures KeyOf(r) != KeyOf(t) {
      if KeyOf(r) == KeyOf(t) {
        EarnedBefore(h, cs, k, j - 1, r);
        SameKeyEarned(h, cs, k, j, r, t);
        assert false;
      }
    }
  }

  lemma {:induction false} SaveOf(h: seq<Entry>, cs: seq<Change>, k: nat)
    requires Chain(h, cs) && k < |h| && (k > 0 || Fresh(h[0]))
    ensures DistinctRewards(RewardsAt(h, k))
    ensures forall r :: r in RewardsAt(h, k) ==> Earned(h[k], r) && (k > 0 ==> !Earned(h[k - 1], r))
  {
    hide Follows, Earned, EntryValid;
    if k == 0 {
      FirstSaveEarns(h[0]);
    } else {
      ChainKeeps(h, cs, k - 1, k - 1);
      assert Follows(h[k - 1], cs[k - 1], h[k]);
      SaveEarnsNew(h[k - 1], cs[k - 1], h[k]);
    }
  }

  /** Rewards of the same key stand for the same achievement. */
  lemma {:induction false} SameKeyEarned(h: seq<Entry>, cs: seq<Change>, k: nat, j: nat, r: Reward, t: Reward)
    requires Chain(h, cs) && k < j < |h|
    requires r in RewardsAt(h, k) && t in RewardsAt(h, j) && KeyOf(r) == KeyOf(t)
    ensures Earned(h[j - 1], r) == Earned(h[j - 1], t)
  {
    hide Follows, EntryValid, Complete, CheckedIn;
    RewardDay(if k == 0 then NOTHING else h[k - 1], h[k], r);
    RewardDay(h[j - 1], h[j], t);
  }

  lemma {:induction false} RewardDay(before: Entry, after: Entry, r: Reward)
    requires r in Candidates(before, after)
    ensures r.source.HabitSource? ==> r.key == CheckinOf(after.id, r.day)
  {
    hide Complete;
    if after.kind.Habit? && |after.events| >= |before.events| && !after.archived {
      HabitDays(after, |before.events|, |after.events|);
    }
  }

  lemma {:induction false} HabitDays(e: Entry, from: nat, upTo: nat)
    requires from <= upTo <= |e.events|
    ensures forall r :: r in HabitRewards(e, from, upTo) ==> r.source.HabitSource? && r.key == CheckinOf(e.id, r.day)
  {
    if from < upTo {
      HabitDays(e, from, upTo - 1);
    }
  }

  /** Completing is always paid at once: the save that completes a plan is open, approved and pays its recipients. */
  lemma {:induction false} CompletionPays(e: Entry, c: Change, next: Entry)
    requires EntryValid(e) && Follows(e, c, next) && HasSteps(e.kind) && !Complete(e) && Complete(next)
    ensures Candidates(e, next) == AdventureRewards(next, Recipients(next, |next.events|)) != []
  {
    hide Follows, EntryValid, Candidates, Undertaken, MayFollow;
    SaveExtends(e, c, next);
    CompletionIsStep(e, c, next);
    CandidatesByKind(e, next);
    assert StepTaken(next.events, 0);
    hide Complete;
    ValidParticipants(next);
    RecipientsDistinct(next, |next.events|);
  }

  lemma {:induction false} CompletionIsStep(e: Entry, c: Change, next: Entry)
    requires EntryValid(e) && Follows(e, c, next) && HasSteps(e.kind) && !Complete(e) && Complete(next)
    ensures !next.archived && Undertaken(next)
  {
    hide EntryValid, Trim, ValidDay;
    assert e.events != next.events by {
      if e.events == next.events {
        CompleteHasEvents(next);
        SaveKeepsSteps(e, c, next);
      }
    }
  }

  lemma {:induction false} SaveKeepsSteps(e: Entry, c: Change, next: Entry)
    requires EntryValid(e) && Follows(e, c, next) && e.events == next.events != []
    ensures e.draft.steps == next.draft.steps
  {
    hide EntryValid, Follows;
    SaveExtends(e, c, next);
  }

  /**
   A plan completed here was paid by exactly one save; one that a backup brought completed is not paid again.
   */
  lemma {:induction false} PaidByExactlyOneSave(h: seq<Entry>, cs: seq<Change>, last: nat) returns (paid: nat)
    requires Chain(h, cs) && last < |h| && HasSteps(h[0].kind) && Complete(h[last])
    ensures !Complete(h[0]) ==> 0 < paid <= last && RewardsAt(h, paid) != []
    ensures Complete(h[0]) ==> paid == 0
    ensures forall k: nat :: 0 < k <= last && k != paid ==> RewardsAt(h, k) == []
    ensures Fresh(h[0]) ==> !Complete(h[0]) && RewardsAt(h, 0) == []
  {
    hide Follows, EntryValid, Candidates;
    if Fresh(h[0]) {
      FreshIncomplete(h[0]);
    }
    paid := 0;
    while !Complete(h[paid])
      invariant paid <= last && (Complete(h[paid]) && paid > 0 ==> RewardsAt(h, paid) != [])
      invariant Complete(h[0]) ==> paid == 0
      invariant forall i: nat :: 0 < i < paid ==> RewardsAt(h, i) == []
      invariant !Complete(h[paid]) && paid > 0 ==> RewardsAt(h, paid) == []
      decreases last - paid
    {
      SaveOfPlan(h, cs, paid);
      paid := paid + 1;
    }
    forall i: nat | paid < i <= last ensures RewardsAt(h, i) == [] {
      NothingAfter(h, cs, paid, i);
    }
  }

  lemma {:induction false} FreshIncomplete(e: Entry)
    requires Fresh(e)
    ensures !Complete(e) && (HasSteps(e.kind) ==> Candidates(NOTHING, e) == [])
  {
    hide EntryValid;
    if Complete(e) {
      CompleteHasEvents(e);
    }
  }

  /** The save after an unfinished plan pays if and only if it completes the plan. */
  lemma {:induction false} SaveOfPlan(h: seq<Entry>, cs: seq<Change>, k: nat)
    requires Chain(h, cs) && k + 1 < |h| && HasSteps(h[0].kind) && !Complete(h[k])
    ensures RewardsAt(h, k + 1) != [] <==> Complete(h[k + 1])
  {
    hide EntryValid, Follows, Complete;
    ChainKeeps(h, cs, k, k);
    ChainKeeps(h, cs, k + 1, k + 1);
    assert Follows(h[k], cs[k], h[k + 1]);
    if Complete(h[k + 1]) {
      CompletionPays(h[k], cs[k], h[k + 1]);
    }
  }

  lemma {:induction false} NothingAfter(h: seq<Entry>, cs: seq<Change>, paid: nat, k: nat)
    requires Chain(h, cs) && paid < k < |h| && HasSteps(h[0].kind) && Complete(h[paid])
    ensures RewardsAt(h, k) == []
  {
    hide EntryValid, Follows, Complete;
    ChainKeeps(h, cs, k, k);
    EarnedBefore(h, cs, paid, k - 1, Reward(AdventureSource, EntryOf(0), 0, 0, 0, 0, ""));
  }
}
