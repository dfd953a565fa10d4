/**
 Who may do what to a family entry, when it takes effect, and what it pays, in the terms of the family: names,
 days and earlier events, for one command and over a whole history.
 */
module FamilyLaws {
  import opened Days
  import opened Rewards
  import opened Family
  import opened FamilyRewards
  import opened FamilyTheorems

  /** Who belongs to the family: a parent or a child. */
  predicate Belongs(p: Principal) {
    p.id > 0 && (p.role == Parent || p.role == Child)
  }

  /** Whom a plan names may work on it; a plan that names nobody is open to everyone. */
  predicate Named(e: Entry, id: int) {
    e.draft.participants == [] || id in e.draft.participants
  }

  /** A step is for the one it is assigned to, or for everyone. */
  predicate Assigned(e: Entry, step: int, id: int) {
    0 <= step < |e.draft.steps| && (e.draft.steps[step].participant <= 0 || e.draft.steps[step].participant == id)
  }

  /** An event that this person may add to this version on that day. */
  predicate Rightful(e: Entry, p: Principal, v: Event, today: Day) {
    && v.actor == p.id && Belongs(p) && !e.archived && (e.kind == Proposal ==> e.approved)
    && 0 <= v.day <= LAST_DAY && v.day <= today
    && match v.kind
       case Checkin => Named(e, p.id) && (e.kind == Habit || e.kind == Value)
       case Step => Named(e, p.id) && (e.kind == Adventure || e.kind == Proposal) && Assigned(e, v.step, p.id)
       case Stage => Named(e, p.id) && e.kind == Skill && 1 <= v.step <= 4
       case Reflection => v.note != ""
       case Repeat => true
       case OtherEvent => false
  }

  /** It is not recorded yet; stages come one after another. */
  predicate NotYet(events: seq<Event>, v: Event) {
    match v.kind
    case Checkin => forall i :: 0 <= i < |events| && events[i].kind == Checkin && events[i].actor == v.actor ==>
                      events[i].day != v.day
    case Step => forall i :: 0 <= i < |events| && events[i].kind == Step ==> events[i].step != v.step
    case Stage =>
      && (forall i :: 0 <= i < |events| && events[i].kind == Stage && events[i].actor == v.actor ==>
            events[i].step < v.step)
      && (v.step <= 1 || exists i :: 0 <= i < |events| && events[i].kind == Stage && events[i].actor == v.actor
                                     && events[i].step == v.step - 1)
    case Repeat => forall i :: 0 <= i < |events| && events[i].kind == Repeat ==> events[i].actor != v.actor
    case _ => true
  }

  lemma {:induction false} HighestStage(events: seq<Event>, actor: int)
    ensures StageReached(events, actor) >= 0
    ensures forall i :: 0 <= i < |events| && events[i].kind == Stage && events[i].actor == actor ==>
              events[i].step <= StageReached(events, actor)
    ensures StageReached(events, actor) > 0 ==>
              exists i :: 0 <= i < |events| && events[i].kind == Stage && events[i].actor == actor
                          && events[i].step == StageReached(events, actor)
  {
    if events != [] {
      var rest := events[..|events| - 1];
      HighestStage(rest, actor);
      if StageReached(events, actor) == StageReached(rest, actor) > 0 {
        var i :| 0 <= i < |rest| && rest[i].kind == Stage && rest[i].actor == actor
                 && rest[i].step == StageReached(rest, actor);
        assert events[i] == rest[i];
      }
    }
  }

  lemma {:induction false} NextStage(events: seq<Event>, v: Event)
    requires v.kind == Stage && v.step >= 1
    ensures NotYet(events, v) <==> v.step == StageReached(events, v.actor) + 1
  {
    HighestStage(events, v.actor);
  }

  /**
   A progress command at the right version is recorded, as the actor's own and with its note trimmed, if and
   only if the actor may add it, there is room, and it is not recorded yet; otherwise nothing changes.
   */
  lemma {:induction false} RecordedIff(e: Entry, p: Principal, c: Command, today: Day, now: int)
    requires c.action.Progress? && c.version == e.version
    ensures var (error, after) := Applied(e, p, c, today, now);
            var v := Event(p.id, c.action.kind, c.day, c.step, Trim(c.note), c.easy, now);
            if Rightful(e, p, v, today) && |c.note| <= 2000 && |e.events| < 10000 && NotYet(e.events, v)
            then error == Accepted && after == e.(events := e.events + [v])
            else after == e
  {
    hide Trim;
    var v := Event(p.id, c.action.kind, c.day, c.step, Trim(c.note), c.easy, now);
    HighestStage(e.events, p.id);
    if v.kind == Stage && v.step >= 1 {
      NextStage(e.events, v);
    }
  }

  /** Doing again what is done already is accepted and changes nothing. */
  lemma {:induction false} AgainAccepted(e: Entry, p: Principal, c: Command, today: Day, now: int)
    requires c.action.Progress? && c.version == e.version && |c.note| <= 2000 && |e.events| < 10000
    requires c.action.kind == Checkin || c.action.kind == Step || c.action.kind == Repeat
    requires var v := Event(p.id, c.action.kind, c.day, c.step, Trim(c.note), c.easy, now);
             Rightful(e, p, v, today) && !NotYet(e.events, v)
    ensures Applied(e, p, c, today, now) == (Accepted, e)
  {
    hide Trim;
  }

  /** Why a command is refused, first things first: strangers, stale versions, closed entries, wrong days, others' plans. */
  lemma {:induction false} Refused(e: Entry, p: Principal, c: Command, today: Day, now: int)
    requires c.action.Progress?
    ensures var error := Applied(e, p, c, today, now).0;
            && (!Belongs(p) ==> error == Forbidden)
            && (Belongs(p) && c.version != e.version ==> error == Conflict)
            && (Belongs(p) && c.version == e.version && (e.archived || (e.kind == Proposal && !e.approved)) ==>
                  error == Conflict)
            && (Belongs(p) && c.version == e.version && !e.archived && (e.kind == Proposal ==> e.approved) ==>
                  && (!(0 <= c.day <= LAST_DAY && c.day <= today) || |c.note| > 2000 || |e.events| >= 10000 ==>
                        error == InvalidInput)
                  && (0 <= c.day <= LAST_DAY && c.day <= today && |c.note| <= 2000 && |e.events| < 10000
                      && c.action.kind != Reflection && c.action.kind != Repeat && !Named(e, p.id) ==>
                        error == Forbidden))
  {
    hide Progressed, Trim;
  }

  /** Who may archive, restore and edit: parents, the author, and of a sport the one who did it. */
  predicate Owns(e: Entry, p: Principal) {
    Belongs(p) && (p.role == Parent || (if e.kind == Sport then e.draft.participants == [p.id] else e.author == p.id))
  }

  /** Archiving and restoring take effect for whom the entry belongs to, approval of an open proposal for parents. */
  lemma {:induction false} SwitchedIff(e: Entry, p: Principal, c: Command, today: Day, now: int)
    requires c.version == e.version && !c.action.Progress?
    ensures var (error, after) := Applied(e, p, c, today, now);
            match c.action
            case Archive =>
              if Owns(e, p) then error == Accepted && after == e.(archived := true) else error == Forbidden && after == e
            case Restore =>
              if Owns(e, p) then error == Accepted && after == e.(archived := false) else error == Forbidden && after == e
            case Approve =>
              if !(p.id > 0 && p.role == Parent) then error == Forbidden && after == e
              else if e.kind == Proposal && !e.archived then error == Accepted && after == e.(approved := true)
              else error == Conflict && after == e
            case Progress(_) => true
  {
  }

  // ---------------------------------------------------------------- over a history

  /** The save that added event number n. */
  predicate AddedAt(h: seq<Entry>, cs: seq<Change>, n: nat, i: nat)
    requires |h| == |cs| + 1
  {
    && i < |cs| && |h[i].events| == n && |h[i + 1].events| == n + 1
    && cs[i].Act? && Rightful(h[i], cs[i].actor, h[i + 1].events[n], cs[i].today)
    && NotYet(h[i].events, h[i + 1].events[n])
  }

  lemma {:induction false} SaveAdds(e: Entry, c: Change, next: Entry)
    requires EntryValid(e) && Follows(e, c, next)
    ensures next.events != e.events ==>
              && |next.events| == |e.events| + 1 && c.Act?
              && Rightful(e, c.actor, next.events[|e.events|], c.today)
              && NotYet(e.events, next.events[|e.events|])
  {
    hide EntryValid, Applied, Edited, Rightful, NotYet;
    match c {
      case Act(actor, command, today, now, _) =>
        if command.action.Progress? && command.version == e.version {
          RecordedIff(e, actor, command, today, now);
        } else {
          NoEvents(e, actor, command, today, now);
        }
      case Rewrite(actor, version, draft, people, today, _) => EditedShape(e, actor, version, draft, people, today);
    }
  }

  lemma {:induction false} NoEvents(e: Entry, p: Principal, c: Command, today: Day, now: int)
    requires !c.action.Progress? || c.version != e.version
    ensures Applied(e, p, c, today, now).1.events == e.events
  {
  }

  /**
   Every event of an entry, beyond those it was restored with, was added by the one it names, in a save at
   which that person was named by the plan and, for a step, assigned to it or it to nobody.
   */
  lemma {:induction false} EventsRightful(h: seq<Entry>, cs: seq<Change>, last: nat, n: nat) returns (i: nat)
    requires Chain(h, cs) && last < |h| && |h[0].events| <= n < |h[last].events|
    ensures AddedAt(h, cs, n, i) && i < last && h[i + 1].events[n] == h[last].events[n]
    decreases last
  {
    hide EntryValid, Follows, Rightful, NotYet;
    ChainKeeps(h, cs, last - 1, last);
    ChainKeeps(h, cs, 0, last - 1);
    assert Follows(h[last - 1], cs[last - 1], h[last]);
    SaveAdds(h[last - 1], cs[last - 1], h[last]);
    if n < |h[last - 1].events| {
      i := EventsRightful(h, cs, last - 1, n);
    } else {
      i := last - 1;
    }
  }

  // ---------------------------------------------------------------- edits

  /** Someone active in the family. */
  predicate Active(people: seq<Person>, id: int) {
    exists i :: 0 <= i < |people| && people[i].id == id && people[i].active
                && (people[i].role == Parent || people[i].role == Child)
  }

  /** A plan that may be stored: valid, no sport of the future, and everyone it names active in the family. */
  ghost predicate MayStore(e: Entry, people: seq<Person>, today: Day) {
    && EntryValid(e) && (e.kind == Sport ==> e.draft.day <= today)
    && (forall i :: 0 <= i < |e.draft.participants| ==> Active(people, e.draft.participants[i]))
    && forall i :: 0 <= i < |e.draft.steps| && e.draft.steps[i].participant > 0 ==>
         Active(people, e.draft.steps[i].participant)
  }

  lemma {:induction false} StoredIff(e: Entry, people: seq<Person>, today: Day)
    ensures Acceptable(e, people, today) <==> MayStore(e, people, today)
  {
    hide EntryValid;
    forall id ensures Roster(people, id) <==> Active(people, id) {
    }
    hide Roster, Active;
  }

  /**
   An edit is accepted if and only if the entry is the editor's and open at that version, begun steps stay, a
   child's sport stays its own, and the plan may be stored. It replaces the plan and nothing else, but that a
   child's edit of a proposal takes the approval back.
   */
  lemma {:induction false} EditedIff(e: Entry, p: Principal, version: int, draft: Draft, people: seq<Person>, today: Day)
    ensures var (error, after) := Edited(e, p, version, draft, people, today);
            var plan := e.(draft := draft.(title := Trim(draft.title)),
                           approved := e.approved && (e.kind != Proposal || p.role == Parent));
            && (error == Accepted <==>
                  && Owns(e, p) && e.version == version && !e.archived
                  && (e.events == [] || draft.steps == e.draft.steps)
                  && (e.kind == Sport && p.role != Parent ==> draft.participants == [p.id])
                  && MayStore(plan, people, today))
            && (error == Accepted ==> after == plan)
  {
    hide EntryValid, MayStore, Acceptable, Trim;
    var plan := e.(draft := draft.(title := Trim(draft.title)),
                   approved := e.approved && (e.kind != Proposal || p.role == Parent));
    StoredIff(plan, people, today);
  }

  /** A new entry is its author's; a child's adventure is a proposal until a parent approves it. */
  lemma {:induction false} CreatedIff(p: Principal, kind: Kind, draft: Draft, people: seq<Person>, today: Day)
    ensures var (error, after) := Created(p, kind, draft, people, today);
            var k := if kind == Adventure && p.role != Parent then Proposal else kind;
            var plan := Entry(0, 0, k, p.id, 0, 0, false, false, draft.(title := Trim(draft.title)), []);
            && (error == Accepted <==>
                  && Belongs(p) && (kind == Sport && p.role != Parent ==> draft.participants == [p.id])
                  && MayStore(plan, people, today))
            && (error == Accepted ==> after == plan)
  {
    hide EntryValid, MayStore, Acceptable, Trim;
    if Belongs(p) {
      var k := if kind == Adventure && p.role != Parent then Proposal else kind;
      StoredIff(Entry(0, 0, k, p.id, 0, 0, false, false, draft.(title := Trim(draft.title)), []), people, today);
    }
  }

  // ---------------------------------------------------------------- what a save pays

  /** Seven weekdays in turn, the first of January 2000 being a Saturday. */
  lemma {:induction false} WeekdaysTurn(d: Day)
    ensures 0 <= Weekday(d) <= 6 && Weekday(0) == 6
    ensures Weekday(d + 1) == if Weekday(d) == 6 then 0 else Weekday(d) + 1
  {
  }

  /** A check-in that a habit pays for: on one of its weekdays, not before its first day. */
  predicate CountsForHabit(e: Entry, v: Event) {
    v.kind == Checkin && Weekday(v.day) in e.draft.weekdays && (e.draft.day == NO_DAY || v.day >= e.draft.day)
  }

  lemma {:induction false} HabitRewardsAre(e: Entry, from: nat, upTo: nat, r: Reward)
    requires from <= upTo <= |e.events|
    ensures r in HabitRewards(e, from, upTo) <==>
              exists n :: from <= n < upTo && CountsForHabit(e, e.events[n])
                          && r == Reward(HabitSource, CheckinOf(e.id, e.events[n].day), e.events[n].actor,
                                         e.events[n].day, 5, 1, e.draft.title)
  {
    if from < upTo {
      HabitRewardsAre(e, from, upTo - 1, r);
    }
  }

  /** A habit pays five stars and a smile for each new check-in that counts, and nothing else. */
  lemma {:induction false} HabitPays(before: Entry, after: Entry, r: Reward)
    requires after.kind == Habit && before.events <= after.events
    ensures r in Candidates(before, after) <==>
              !after.archived
              && exists n :: |before.events| <= n < |after.events| && CountsForHabit(after, after.events[n])
                             && r == Reward(HabitSource, CheckinOf(after.id, after.events[n].day), after.events[n].actor,
                                            after.events[n].day, 5, 1, after.draft.title)
  {
    hide HabitRewards, Recipients, AdventureRewards, Complete;
    if !after.archived {
      CandidatesByKind(before, after);
      HabitRewardsAre(after, |before.events|, |after.events|, r);
    }
  }

  /** Who a completed plan pays: whom it names, or whoever took a step. */
  predicate Shares(e: Entry, id: int) {
    if e.draft.participants != [] then id in e.draft.participants
    else exists i :: 0 <= i < |e.events| && e.events[i].kind == Step && e.events[i].actor == id
  }

  predicate IsLatestStep(events: seq<Event>, day: Day) {
    && (forall i :: 0 <= i < |events| && events[i].kind == Step ==> events[i].day <= day)
    && exists i :: 0 <= i < |events| && events[i].kind == Step && events[i].day == day
  }

  lemma {:induction false} RecipientsAre(e: Entry, n: nat, id: int)
    requires n <= |e.events|
    ensures id in Recipients(e, n) <==>
              if e.draft.participants != [] then id in e.draft.participants
              else exists i :: 0 <= i < n && e.events[i].kind == Step && e.events[i].actor == id
  {
    if n > 0 {
      RecipientsAre(e, n - 1, id);
    }
  }

  lemma {:induction false} LatestStep(events: seq<Event>)
    ensures LastStepDay(events) >= NO_DAY
    ensures forall i :: 0 <= i < |events| && events[i].kind == Step ==> events[i].day <= LastStepDay(events)
    ensures LastStepDay(events) > NO_DAY ==>
              exists i :: 0 <= i < |events| && events[i].kind == Step && events[i].day == LastStepDay(events)
  {
    if events != [] {
      var rest := events[..|events| - 1];
      LatestStep(rest);
      if LastStepDay(events) == LastStepDay(rest) > NO_DAY {
        var i :| 0 <= i < |rest| && rest[i].kind == Step && rest[i].day == LastStepDay(rest);
        assert events[i] == rest[i];
      }
    }
  }

  predicate Done(events: seq<Event>, step: int) {
    exists i :: 0 <= i < |events| && events[i].kind == Step && events[i].step == step
  }

  /** All steps of a plan have been taken. */
  predicate AllTaken(e: Entry) {
    e.draft.steps != [] && forall step :: 0 <= step < |e.draft.steps| ==> Done(e.events, step)
  }

  lemma {:induction false} CompleteIff(e: Entry)
    ensures Complete(e) <==> AllTaken(e)
  {
    forall step ensures StepTaken(e.events, step) <==> Done(e.events, step) {
    }
    hide StepTaken, Done;
  }

  /**
   A plan pays forty stars and three smiles to each who shares in it, dated by its latest step, in the save
   that completes it while it is open and, for a proposal, approved.
   */
  lemma {:induction false} PlanPays(before: Entry, after: Entry, r: Reward)
    requires HasSteps(after.kind) && EntryValid(after)
    ensures r in Candidates(before, after) <==>
              && !after.archived && (after.kind == Proposal ==> after.approved)
              && !AllTaken(before) && AllTaken(after)
              && Shares(after, r.participant) && IsLatestStep(after.events, r.day)
              && r == Reward(AdventureSource, EntryOf(after.id), r.participant, r.day, 40, 3, after.draft.title)
  {
    hide HabitRewards, Recipients, EntryValid;
    CompleteIff(before);
    CompleteIff(after);
    hide Complete, AllTaken;
    if !after.archived {
      CandidatesByKind(before, after);
      hide Candidates;
      if Complete(after) {
        PaidOnLatest(after, r.day);
        RecipientsAre(after, |after.events|, r.participant);
        AdventureRewardsAre(after, Recipients(after, |after.events|), r);
      }
    }
  }

  lemma {:induction false} PaidOnLatest(e: Entry, day: Day)
    requires Complete(e) && EntryValid(e)
    ensures IsLatestStep(e.events, day) <==> day == LastStepDay(e.events)
  {
    LatestStep(e.events);
    assert StepTaken(e.events, 0);
    var i :| 0 <= i < |e.events| && e.events[i].kind.Step? && e.events[i].step == 0;
    assert EventValid(e.events[i], |e.draft.steps|);
  }

  lemma {:induction false} AdventureRewardsAre(e: Entry, ids: seq<int>, r: Reward)
    ensures r in AdventureRewards(e, ids) <==>
              && r.participant in ids
              && r == Reward(AdventureSource, EntryOf(e.id), r.participant, LastStepDay(e.events), 40, 3, e.draft.title)
  {
    hide LastStepDay;
    if r.participant in ids {
      var i :| 0 <= i < |ids| && ids[i] == r.participant;
      assert AdventureRewards(e, ids)[i].participant == r.participant;
    }
  }

  /** A sport pays thirty stars and two smiles to the one who did it, once, when it is first saved. */
  lemma {:induction false} SportPays(before: Entry, after: Entry)
    requires after.kind == Sport && EntryValid(after)
    ensures Candidates(before, after)
         == if after.archived || before.id != 0 then []
            else [Reward(SportSource, DayOf(after.draft.day), after.draft.participants[0], after.draft.day, 30, 2,
                         after.draft.title)]
  {
    hide Complete;
  }

  /** Other entries pay nothing. */
  lemma {:induction false} OthersPayNothing(before: Entry, after: Entry)
    requires after.kind != Sport && after.kind != Habit && !HasSteps(after.kind)
    ensures Candidates(before, after) == []
  {
  }

  // ---------------------------------------------------------------- what may be stored

  predicate White(c: char) {
    c == ' ' || c == '\t' || c == '\n' || c == '\r'
  }

  /** Some character of the text is not white. */
  predicate Says(s: string) {
    exists i :: 0 <= i < |s| && !White(s[i])
  }

  lemma {:induction false} LeftTrimmed(s: string)
    ensures |TrimLeft(s)| <= |s| && TrimLeft(s) == s[|s| - |TrimLeft(s)|..]
    ensures forall i :: 0 <= i < |s| - |TrimLeft(s)| ==> White(s[i])
    ensures TrimLeft(s) != [] ==> !White(TrimLeft(s)[0])
  {
    if s != [] && IsSpace(s[0]) {
      LeftTrimmed(s[1..]);
      forall i | 0 <= i < |s| - |TrimLeft(s)| ensures White(s[i]) {
        assert i > 0 ==> s[i] == s[1..][i - 1];
      }
    }
  }

  lemma {:induction false} RightTrimmed(s: string)
    ensures |TrimRight(s)| <= |s| && TrimRight(s) == s[..|TrimRight(s)|]
    ensures forall i :: |TrimRight(s)| <= i < |s| ==> White(s[i])
    ensures TrimRight(s) != [] ==> !White(TrimRight(s)[|TrimRight(s)| - 1])
  {
    if s != [] && IsSpace(s[|s| - 1]) {
      RightTrimmed(s[..|s| - 1]);
    }
  }

  /** Trimming takes the white space at both ends away and nothing else. */
  lemma {:induction false} Trimmed(s: string) returns (from: nat, upTo: nat)
    ensures from <= upTo <= |s| && Trim(s) == s[from..upTo]
    ensures forall i :: 0 <= i < |s| && !(from <= i < upTo) ==> White(s[i])
    ensures from < upTo ==> !White(s[from]) && !White(s[upTo - 1])
  {
    LeftTrimmed(s);
    RightTrimmed(TrimLeft(s));
    from := |s| - |TrimLeft(s)|;
    upTo := from + |Trim(s)|;
    if from < upTo {
      assert s[from] == TrimLeft(s)[0] == Trim(s)[0];
    }
    forall i | 0 <= i < |s| && !(from <= i < upTo) ensures White(s[i]) {
      if i >= upTo {
        assert TrimLeft(s)[i - from] == s[i];
      }
    }
  }

  lemma {:induction false} SaysIff(s: string)
    ensures Says(s) <==> Trim(s) != ""
  {
    var from, upTo := Trimmed(s);
    if Says(s) {
      var i :| 0 <= i < |s| && !White(s[i]);
      assert from <= i < upTo;
    }
    hide Trim;
  }

  /** The rules of a stored entry, as the family meets them. */
  lemma {:induction false} ValidIff(e: Entry)
    ensures var d := e.draft;
            EntryValid(e) <==>
              && e.kind != OtherKind
              && Says(d.title) && |d.title| <= 160 && |d.value| <= 100
              && |d.description| <= 4000 && |d.agreement| <= 4000 && |d.nextActivity| <= 4000 && |d.easyVersion| <= 4000
              && (e.kind == Value ==> Says(d.value) && Says(d.description))
              && (d.day == NO_DAY || 0 <= d.day <= LAST_DAY)
              && (e.kind in {Memory, Council, Adventure, Proposal, Sport} ==> d.day != NO_DAY)
              && |d.participants| <= 50 && |d.steps| <= 30 && |e.events| <= 10000
              && (forall i :: 0 <= i < |d.participants| ==> d.participants[i] > 0)
              && (forall i, j :: 0 <= i < j < |d.participants| ==> d.participants[i] != d.participants[j])
              && (forall i :: 0 <= i < |d.steps| ==>
                    && Says(d.steps[i].title) && |d.steps[i].title| <= 500
                    && (d.steps[i].participant == 0
                        || (d.steps[i].participant > 0 && Named(e, d.steps[i].participant))))
              && (e.kind in {Adventure, Proposal} ==> d.steps != [])
              && (e.kind == Habit ==> d.weekdays != [])
              && (forall i :: 0 <= i < |d.weekdays| ==> 0 <= d.weekdays[i] <= 6)
              && (forall i, j :: 0 <= i < j < |d.weekdays| ==> d.weekdays[i] != d.weekdays[j])
              && (if e.kind == Sport then d.sport == Present(true) && |d.participants| == 1 else d.sport == Absent)
              && d.reminder != Present(false)
              && (if e.kind == Memory then d.photo != Present(false) && d.audio != Present(false)
                  else d.photo == Absent && d.audio == Absent)
              && forall i :: 0 <= i < |e.events| ==>
                   var v := e.events[i];
                   && v.actor > 0 && 0 <= v.day <= LAST_DAY && |v.note| <= 2000 && v.created != 0
                   && v.kind != OtherEvent
                   && (v.kind == Step ==> 0 <= v.step < |d.steps|) && (v.kind == Stage ==> 1 <= v.step <= 4)
  {
    forall s ensures Says(s) <==> !Blank(s) {
      SaysIff(s);
    }
    hide Says, Blank;
    AtMostSeven(e.draft.weekdays);
  }

  /** Different weekdays are at most seven. */
  lemma {:induction false} AtMostSeven(days: seq<int>)
    ensures WeekdaysValid(days) ==> |days| <= 7
  {
    if WeekdaysValid(days) {
      DistinctBelow(days, 7);
    }
  }

  lemma {:induction false} DistinctBelow(s: seq<int>, n: nat)
    requires (forall i :: 0 <= i < |s| ==> 0 <= s[i] < n) && forall i, j :: 0 <= i < j < |s| ==> s[i] != s[j]
    ensures |s| <= n
  {
    if s == [] {
      return;
    }
    assert 0 <= s[0] < n;
    if i :| 0 <= i < |s| && s[i] == n - 1 {
      var rest := s[..i] + s[i + 1..];
      forall k | 0 <= k < |rest| ensures 0 <= rest[k] < n - 1 {
        assert rest[k] == s[if k < i then k else k + 1];
      }
      DistinctBelow(rest, n - 1);
    } else {
      DistinctBelow(s, n - 1);
    }
  }
}
