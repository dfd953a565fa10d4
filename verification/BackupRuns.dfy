/** Whole runs of the family's requests: the tables stay acceptable, and a day's stars are exactly the budget's share. */
module BackupRuns {
  import opened Days
  import opened MathTypes
  import opened MathSession
  import opened Rewards
  import opened Family
  import opened FamilyRewards
  import opened FamilyTheorems
  import opened Store
  import opened Backup
  import opened LedgerTheorems
  import opened BackupTheorems

  // ---------------------------------------------------------------- reading

  lemma {:induction false} LessonRowValid(b: Backup, owner: int, lesson: string, level: ReadingLevel,
      earned: int, today: Day)
    requires b.version == CURRENT_VERSION && IsChild(Roles(b.people), owner) && CompletionValid(lesson, level)
             && ValidDay(today)
    ensures RewardValid(b.version, Roles(b.people), b.sessions, b.entries, ReadingReward(owner, lesson, level, earned, today))
  {
    hide HexId, Roles;
    var r := ReadingReward(owner, lesson, level, earned, today);
    assert |r.title| <= 160;
    assert LessonFits(r, level);
  }

  lemma {:induction false} LessonWithinBudget(people: seq<Person>, rs: seq<Reward>, owner: int, lesson: string,
      level: ReadingLevel, today: Day)
    requires ReadingBudgetKept(rs)
    ensures ReadingBudgetKept(Inserted(people, rs,
              ReadingReward(owner, lesson, level, LedgerStars(rs, ReadingSource, owner, today), today)))
  {
    hide Roster, HexId, LedgerStars;
    var r := ReadingReward(owner, lesson, level, LedgerStars(rs, ReadingSource, owner, today), today);
    var after := Inserted(people, rs, r);
    forall participant, day ensures ReadingWithin(after, participant, day) {
      assert ReadingWithin(rs, participant, day);
      RowAdded(rs, r, ReadingSource, participant, day);
    }
  }

  lemma {:induction false} CompletedReadingKeeps(db: Db, owner: int, lesson: string, level: ReadingLevel,
      hosted: bool, today: Day)
    requires Healthy(db) && ValidDay(today)
    ensures Healthy(CompletedReading(db, owner, lesson, level, hosted, today).db)
  {
    hide Healthy, Roster, ActiveChild, Roles, HexId, LedgerStars, ReadingReward, RewardValid, Inserted, StartedAs;
    hide PeopleValid, FamilyValid, SessionsValid, LedgerValid, AnswersPaid, ReadingBudgetKept, MathBudgetKept, Learns;
    var after := CompletedReading(db, owner, lesson, level, hosted, today).db;
    if after != db {
      var b := Export(db);
      var r := ReadingReward(owner, lesson, level, LedgerStars(db.rewards, ReadingSource, owner, today), today);
      Unfold(db);
      PeopleDistinct(db);
      ChildRole(db.people, owner);
      LessonRowValid(b, owner, lesson, level, LedgerStars(db.rewards, ReadingSource, owner, today), today);
      InsertedLedger(b, r);
      LessonWithinBudget(db.people, db.rewards, owner, lesson, level, today);
      MoreRows(db, after);
    }
  }

  /** More ledger rows alone: everything but the ledger's own rules stays. */
  lemma {:induction false} MoreRows(db: Db, after: Db)
    requires Healthy(db) && after.people == db.people && after.sessions == db.sessions && after.entries == db.entries
    requires db.rewards <= after.rewards && LedgerValid(Export(after)) && ReadingBudgetKept(after.rewards)
    ensures Healthy(after)
  {
    hide Healthy, PeopleValid, LedgerValid, ReadingBudgetKept, MathBudgetKept, Learns, SessionPaid;
    Unfold(db);
    PeopleDistinct(db);
    KeysGrow(db.rewards, after.rewards);
    PaidByMore(db.sessions, Keys(db.rewards), Keys(after.rewards));
    FamilyStays(Export(db), Export(after));
    SessionsOnly(Export(db), Export(after));
    Fold(after);
  }

  // ---------------------------------------------------------------- family entries

  lemma {:induction false} LastStepDayValid(events: seq<Event>, steps: int, step: int)
    requires forall i :: 0 <= i < |events| ==> EventValid(events[i], steps)
    requires StepTaken(events, step)
    ensures ValidDay(LastStepDay(events))
  {
    var last := |events| - 1;
    var i :| 0 <= i < |events| && events[i].kind.Step? && events[i].step == step;
    if i < last {
      assert events[..last][i].kind.Step?;
      LastStepDayValid(events[..last], steps, step);
      assert EventValid(events[last], steps);
    } else {
      assert EventValid(events[last], steps);
      LastStepDayRange(events[..last], steps);
    }
  }

  lemma {:induction false} LastStepDayRange(events: seq<Event>, steps: int)
    requires forall i :: 0 <= i < |events| ==> EventValid(events[i], steps)
    ensures NO_DAY <= LastStepDay(events) <= LAST_DAY
  {
    if events != [] {
      LastStepDayRange(events[..|events| - 1], steps);
      assert EventValid(events[|events| - 1], steps);
    }
  }

  lemma {:induction false} TitleShort(e: Entry)
    requires EntryValid(e)
    ensures |e.draft.title| <= 160 && (e.kind.Sport? ==> ValidDay(e.draft.day))
    ensures forall i :: 0 <= i < |e.events| ==> EventValid(e.events[i], |e.draft.steps|)
  {
    hide EventValid, StepValid, ParticipantsValid, WeekdaysValid, Blank;
  }

  /** Whoever is on the roster may receive the rewards of a save. */
  lemma {:induction false} CandidateValid(b: Backup, before: Entry, saved: Entry, r: Reward)
    requires b.version == CURRENT_VERSION && EntryValid(saved) && EntryKind(b.entries, saved.id) == saved.kind
    requires r in Candidates(before, saved) && DistinctPeople(b.people) && Roster(b.people, r.participant)
    requires |saved.events| >= |before.events|
    ensures RewardValid(b.version, Roles(b.people), b.sessions, b.entries, r) && !r.source.MathSource?
            && !r.source.ReadingSource?
  {
    hide EntryValid, Roster, Roles, EntryKind, Complete, EventValid;
    RosterRole(b.people, r.participant);
    TitleShort(saved);
    var sport := Reward(SportSource, DayOf(saved.draft.day), r.participant, saved.draft.day, 30, 2, saved.draft.title);
    if r != sport {
      if saved.kind.Habit? && r in HabitRewards(saved, |before.events|, |saved.events|) {
        HabitRowValid(b, saved, |before.events|, |saved.events|, r);
      } else {
        AdventureRowValid(b, before, saved, r);
      }
    } else if !saved.kind.Sport? {
      if saved.kind.Habit? {
        HabitDays(saved, |before.events|, |saved.events|);
      }
      assert false;
    }
  }

  lemma {:induction false} HabitRowValid(b: Backup, e: Entry, from: nat, upTo: nat, r: Reward)
    requires from <= upTo <= |e.events| && r in HabitRewards(e, from, upTo)
    requires e.kind.Habit? && EntryKind(b.entries, e.id) == e.kind && |e.draft.title| <= 160
    requires forall i :: 0 <= i < |e.events| ==> EventValid(e.events[i], |e.draft.steps|)
    requires r.participant in Roles(b.people) && InFamily(Roles(b.people)[r.participant])
    ensures RewardValid(b.version, Roles(b.people), b.sessions, b.entries, r) && r.source.HabitSource?
  {
    hide Roles, EntryKind;
    if r in HabitRewards(e, from, upTo - 1) {
      HabitRowValid(b, e, from, upTo - 1, r);
    } else {
      assert EventValid(e.events[upTo - 1], |e.draft.steps|);
    }
  }

  lemma {:induction false} AdventureRowValid(b: Backup, before: Entry, e: Entry, r: Reward)
    requires b.version == CURRENT_VERSION && Undertaken(e) && Complete(e) && EntryKind(b.entries, e.id) == e.kind
    requires r in AdventureRewards(e, Recipients(e, |e.events|)) && |e.draft.title| <= 160
    requires forall i :: 0 <= i < |e.events| ==> EventValid(e.events[i], |e.draft.steps|)
    requires r.participant in Roles(b.people) && InFamily(Roles(b.people)[r.participant])
    ensures RewardValid(b.version, Roles(b.people), b.sessions, b.entries, r) && r.source.AdventureSource?
  {
    hide Roles, EntryKind, EventValid;
    assert StepTaken(e.events, 0);
    LastStepDayValid(e.events, |e.draft.steps|, 0);
  }

  lemma {:induction false} KindAppended(entries: seq<Entry>, e: Entry, id: int)
    ensures EntryKind(entries + [e], id) == if id == e.id then e.kind else EntryKind(entries, id)
  {
    assert (entries + [e])[..|entries|] == entries;
  }

  lemma {:induction false} KindMissing(entries: seq<Entry>, id: int)
    requires forall i :: 0 <= i < |entries| ==> entries[i].id != id
    ensures EntryKind(entries, id).OtherKind?
  {
    if entries != [] {
      KindMissing(entries[..|entries| - 1], id);
    }
  }

  lemma {:induction false} KindReplaced(entries: seq<Entry>, at: nat, e: Entry, id: int)
    requires at < |entries| && DistinctEntries(entries) && e.id == entries[at].id && e.kind == entries[at].kind
    ensures EntryKind(entries[at := e], id) == EntryKind(entries, id)
    ensures EntryKind(entries, e.id) == e.kind
  {
    var last := |entries| - 1;
    if at == last {
      assert entries[at := e][..last] == entries[..last];
    } else {
      KindReplaced(entries[..last], at, e, id);
      assert entries[at := e][..last] == entries[..last][at := e];
    }
  }

  /** The rewards of a saved entry, paid into the ledger of tables that already hold the entry. */
  lemma {:induction false} SavePays(db: Db, before: Entry, saved: Entry, entries: seq<Entry>)
    requires Healthy(db) && EntryValid(saved) && EntryKind(entries, saved.id) == saved.kind
    requires KindsKept(db.entries, entries) && |saved.events| >= |before.events|
    ensures var rewards := AllInserted(db.people, db.rewards, Candidates(before, saved));
            && db.rewards <= rewards && ReadingBudgetKept(rewards)
            && LedgerValid(Export(db.(entries := entries, rewards := rewards)))
  {
    hide Healthy, EntryValid, Candidates, RewardValid, Roles, Roster, KindsKept, EntryKind;
    hide PeopleValid, FamilyValid, SessionsValid, LedgerValid, AnswersPaid, MathBudgetKept, Learns, SessionsGrow;
    Unfold(db);
    PeopleDistinct(db);
    var mid := Export(db.(entries := entries));
    GrowsItself(db.sessions);
    LedgerStays(Export(db), mid);
    var more := Candidates(before, saved);
    forall r | r in more && Roster(db.people, r.participant)
      ensures RewardValid(mid.version, Roles(mid.people), mid.sessions, mid.entries, r)
    {
      CandidateValid(mid, before, saved, r);
    }
    AllInsertedLedger(mid, more);
    CandidatesOther(before, saved);
    forall participant, day ensures ReadingWithin(AllInserted(db.people, db.rewards, more), participant, day) {
      assert ReadingWithin(db.rewards, participant, day);
      AllInsertedOther(db.people, db.rewards, more, ReadingSource, participant, day);
    }
  }

  lemma {:induction false} GrowsItself(sessions: seq<SessionRow>)
    ensures SessionsGrow(sessions, sessions)
  {
  }

  lemma {:induction false} CandidatesOther(before: Entry, saved: Entry)
    ensures forall r :: r in Candidates(before, saved) ==> !r.source.MathSource? && !r.source.ReadingSource?
  {
    hide Complete;
    if saved.kind.Habit? && |saved.events| >= |before.events| && !saved.archived {
      HabitDays(saved, |before.events|, |saved.events|);
    }
  }

  /** A saved version is acceptable: it keeps its id and kind, is valid, and names only known people. */
  ghost predicate Saveable(people: seq<Person>, before: Entry, e: Entry) {
    && EntryValid(e) && EntryKnown(e, Roles(people)) && |e.events| >= |before.events|
    && (e.id != 0 ==> e.kind == before.kind && e.author == before.author && e.created == before.created)
  }

  lemma {:induction false} RestampValid(e: Entry, id: int, version: int, created: int, updated: int, roles: map<int,
        Role>)
    requires EntryValid(e) && EntryKnown(e, roles) && id > 0 && version > 0 && created != 0 && updated != 0
    ensures EntryAccepted(e.(id := id, version := version, created := created, updated := updated), roles)
  {
    hide StepValid, ParticipantsValid, WeekdaysValid, EventValid, Blank;
  }

  lemma {:induction false} AppendedEntry(db: Db, e: Entry, newId: int, now: int)
    requires Healthy(db) && e.id == 0 && newId > 0 && now != 0 && Saveable(db.people, NOTHING, e)
    ensures Healthy(SavedEntry(db, e, newId, now).db)
  {
    hide Healthy, EntryValid, EntryKnown, Candidates, Roles, EntryKind, AllInserted, ReadingBudgetKept;
    hide PeopleValid, SessionsValid, LedgerValid, AnswersPaid, MathBudgetKept, Learns;
    var after := SavedEntry(db, e, newId, now).db;
    if after != db {
      Unfold(db);
      var saved := e.(id := newId, version := 1, created := now, updated := now);
      RestampValid(e, newId, 1, now, now, Roles(db.people));
      var entries := db.entries + [saved];
      KindMissing(db.entries, newId);
      forall id ensures !EntryKind(db.entries, id).OtherKind? ==> EntryKind(entries, id) == EntryKind(db.entries, id) {
        KindAppended(db.entries, saved, id);
      }
      KindAppended(db.entries, saved, newId);
      assert EntryValid(saved) && EntryAccepted(saved, Roles(db.people));
      hide EntryAccepted;
      SavePays(db, NOTHING, saved, entries);
      WithEntries(db, after);
    }
  }

  lemma {:induction false} ReplacedEntry(db: Db, e: Entry, newId: int, now: int, at: nat)
    requires Healthy(db) && e.id != 0 && now != 0 && at < |db.entries| && e.id == db.entries[at].id
    requires Saveable(db.people, db.entries[at], e)
    ensures Healthy(SavedEntry(db, e, newId, now).db)
  {
    hide Healthy, EntryValid, EntryKnown, Candidates, Roles, EntryKind, AllInserted, ReadingBudgetKept;
    hide PeopleValid, SessionsValid, LedgerValid, AnswersPaid, MathBudgetKept, Learns;
    var after := SavedEntry(db, e, newId, now).db;
    if after != db {
      Unfold(db);
      var before := db.entries[at];
      assert FindEntry(db.entries, e.id) == Some(at);
      assert EntryAccepted(before, Roles(db.people));
      var saved := e.(version := e.version + 1, updated := now);
      RestampValid(e, e.id, e.version + 1, e.created, now, Roles(db.people));
      var entries := db.entries[at := saved];
      forall id ensures EntryKind(entries, id) == EntryKind(db.entries, id) {
        KindReplaced(db.entries, at, saved, id);
      }
      KindReplaced(db.entries, at, saved, e.id);
      assert EntryValid(saved) && EntryAccepted(saved, Roles(db.people));
      hide EntryAccepted;
      SavePays(db, before, saved, entries);
      WithEntries(db, after);
    }
  }

  /** New entries and rows: sessions and people are as they were. */
  lemma {:induction false} WithEntries(db: Db, after: Db)
    requires Healthy(db) && after.people == db.people && after.sessions == db.sessions
    requires db.rewards <= after.rewards && LedgerValid(Export(after)) && ReadingBudgetKept(after.rewards)
    requires FamilyValid(Export(after))
    ensures Healthy(after)
  {
    hide Healthy, PeopleValid, FamilyValid, LedgerValid, ReadingBudgetKept, MathBudgetKept, Learns, SessionPaid;
    Unfold(db);
    PeopleDistinct(db);
    KeysGrow(db.rewards, after.rewards);
    PaidByMore(db.sessions, Keys(db.rewards), Keys(after.rewards));
    SessionsOnly(Export(db), Export(after));
    Fold(after);
  }

  /** The person behind a request: signed in as a member of this family. */
  predicate SignedIn(people: seq<Person>, actor: Principal) {
    exists i :: 0 <= i < |people| && people[i].id == actor.id && people[i].role == actor.role && people[i].active
  }

  lemma {:induction false} SignedInKnown(people: seq<Person>, actor: Principal)
    requires DistinctPeople(people) && SignedIn(people, actor)
    ensures actor.id in Roles(people)
  {
    var i :| 0 <= i < |people| && people[i].id == actor.id && people[i].role == actor.role && people[i].active;
    RoleOf(people, i);
  }

  lemma {:induction false} StaffedKnown(people: seq<Person>, d: Draft)
    requires DistinctPeople(people) && PlanStaffed(d, people)
    requires forall i :: 0 <= i < |d.steps| ==> d.steps[i].participant >= 0
    ensures forall i :: 0 <= i < |d.participants| ==> d.participants[i] in Roles(people)
    ensures forall i :: 0 <= i < |d.steps| ==> d.steps[i].participant != 0 ==> d.steps[i].participant in Roles(people)
  {
    hide Roster, Roles;
    forall i | 0 <= i < |d.participants| ensures d.participants[i] in Roles(people) {
      RosterRole(people, d.participants[i]);
    }
    forall i | 0 <= i < |d.steps| && d.steps[i].participant != 0 ensures d.steps[i].participant in Roles(people) {
      RosterRole(people, d.steps[i].participant);
    }
  }

  lemma {:induction false} StepsNumbered(e: Entry)
    requires EntryValid(e)
    ensures forall i :: 0 <= i < |e.draft.steps| ==> e.draft.steps[i].participant >= 0
  {
  }

  lemma {:induction false} CreatedSaveable(people: seq<Person>, actor: Principal, kind: Kind, draft: Draft, today: Day)
    requires DistinctPeople(people) && SignedIn(people, actor)
    requires Created(actor, kind, draft, people, today).0 == Accepted
    ensures Saveable(people, NOTHING, Created(actor, kind, draft, people, today).1)
    ensures Created(actor, kind, draft, people, today).1.id == 0
  {
    hide EntryValid, Roles, SignedIn, PlanStaffed;
    var e := Created(actor, kind, draft, people, today).1;
    SignedInKnown(people, actor);
    StepsNumbered(e);
    StaffedKnown(people, e.draft);
  }

  lemma {:induction false} EditedSaveable(people: seq<Person>, e: Entry, actor: Principal, version: int,
      draft: Draft, today: Day)
    requires DistinctPeople(people) && EntryAccepted(e, Roles(people))
    requires Edited(e, actor, version, draft, people, today).0 == Accepted
    ensures Saveable(people, e, Edited(e, actor, version, draft, people, today).1)
    ensures Edited(e, actor, version, draft, people, today).1.id == e.id
  {
    hide EntryValid, Roles, PlanStaffed, CanEdit;
    var after := Edited(e, actor, version, draft, people, today).1;
    StepsNumbered(after);
    StaffedKnown(people, after.draft);
  }

  lemma {:induction false} AppliedSaveable(people: seq<Person>, e: Entry, actor: Principal, c: Command, today: Day,
        now: int)
    requires DistinctPeople(people) && EntryAccepted(e, Roles(people)) && SignedIn(people, actor) && now != 0
    ensures Saveable(people, e, Applied(e, actor, c, today, now).1)
    ensures Applied(e, actor, c, today, now).1.id == e.id
  {
    hide EntryValid, Roles, SignedIn, Applied, MayFollow;
    AppliedShape(e, actor, c, today, now);
    SignedInKnown(people, actor);
  }

  // ---------------------------------------------------------------- people

  function Joined(db: Db, p: Person): Db {
    if exists i :: 0 <= i < |db.people| && db.people[i].id == p.id then db
    else db.(people := db.people + [p])
  }

  predicate OtherParent(people: seq<Person>, id: int) {
    exists i :: 0 <= i < |people| && people[i].id != id && people[i].active && people[i].role.Parent?
  }

  /** Leaving only deactivates, and the last active parent cannot leave. */
  function Left(db: Db, at: nat): Db
    requires at < |db.people|
  {
    if OtherParent(db.people, db.people[at].id) || !(db.people[at].active && db.people[at].role.Parent?)
    then db.(people := db.people[at := db.people[at].(active := false)])
    else db
  }

  lemma {:induction false} RolesAppended(people: seq<Person>, p: Person)
    requires forall i :: 0 <= i < |people| ==> people[i].id != p.id
    ensures RolesKept(Roles(people), Roles(people + [p]))
  {
    assert (people + [p])[..|people|] == people;
    RolesNamed(people, p.id);
  }

  lemma {:induction false} RolesNamed(people: seq<Person>, id: int)
    requires forall i :: 0 <= i < |people| ==> people[i].id != id
    ensures id !in Roles(people)
  {
    if people != [] {
      RolesNamed(people[..|people| - 1], id);
    }
  }

  lemma {:induction false} RolesReplaced(people: seq<Person>, at: nat, p: Person)
    requires at < |people| && p.id == people[at].id && p.role == people[at].role
    ensures Roles(people[at := p]) == Roles(people)
  {
    var last := |people| - 1;
    if at == last {
      assert people[at := p][..last] == people[..last];
    } else {
      RolesReplaced(people[..last], at, p);
      assert people[at := p][..last] == people[..last][at := p];
    }
  }

  lemma {:induction false} EntryStays(e: Entry, before: map<int, Role>, after: map<int, Role>)
    requires EntryAccepted(e, before) && RolesKept(before, after)
    ensures EntryAccepted(e, after)
  {
    hide EntryValid;
    forall i | 0 <= i < |e.draft.participants| ensures e.draft.participants[i] in after {
      var id := e.draft.participants[i];
      assert id in before;
    }
    forall i | 0 <= i < |e.draft.steps| && e.draft.steps[i].participant != 0 ensures e.draft.steps[i].participant in after {
      assert e.draft.steps[i].participant in before;
    }
  }

  /** People may come and change activity, as long as everyone keeps their role and a parent is active. */
  lemma {:induction false} PeopleChange(db: Db, people: seq<Person>)
    requires Healthy(db) && DistinctPeople(people) && PeopleValid(people)
    requires RolesKept(Roles(db.people), Roles(people))
    ensures Healthy(db.(people := people))
  {
    hide Healthy, PeopleValid, Roles, ReadingBudgetKept, MathBudgetKept, Learns, SessionPaid, SessionValid,
         LedgerValid, EntryValid;
    var after := db.(people := people);
    var b, c := Export(db), Export(after);
    Unfold(db);
    forall i | 0 <= i < |c.entries| ensures EntryAccepted(c.entries[i], Roles(people)) {
      EntryStays(b.entries[i], Roles(db.people), Roles(people));
    }
    forall i | 0 <= i < |c.sessions| ensures SessionAccepted(c.version, Roles(people), c.sessions[i]) {
      assert SessionAccepted(b.version, Roles(db.people), b.sessions[i]);
    }
    GrowsItself(db.sessions);
    LedgerStays(b, c);
    Fold(after);
  }

  lemma {:induction false} JoinedKeeps(db: Db, p: Person)
    requires Healthy(db) && PersonValid(p)
    ensures Healthy(Joined(db, p))
  {
    hide Healthy, Roles, FamilyValid, SessionsValid, LedgerValid, AnswersPaid, MathBudgetKept, ReadingBudgetKept,
         Learns;
    var after := Joined(db, p);
    if after != db {
      Unfold(db);
      PeopleDistinct(db);
      RolesAppended(db.people, p);
      var i :| 0 <= i < |db.people| && db.people[i].active && db.people[i].role.Parent?;
      assert after.people[i] == db.people[i];
      PeopleChange(db, after.people);
    }
  }

  lemma {:induction false} LeftKeeps(db: Db, at: nat)
    requires Healthy(db) && at < |db.people|
    ensures Healthy(Left(db, at))
  {
    hide Healthy, Roles, FamilyValid, SessionsValid, LedgerValid, AnswersPaid, MathBudgetKept, ReadingBudgetKept,
         Learns;
    var after := Left(db, at);
    if after != db {
      Unfold(db);
      PeopleDistinct(db);
      RolesReplaced(db.people, at, after.people[at]);
      var i :| 0 <= i < |db.people| && i != at && db.people[i].active && db.people[i].role.Parent?;
      assert after.people[i] == db.people[i];
      PeopleChange(db, after.people);
    }
  }

  lemma {:induction false} SameRoles(a: seq<Person>, b: seq<Person>)
    requires |a| == |b| && forall i :: 0 <= i < |a| ==> a[i].id == b[i].id && a[i].role == b[i].role
    ensures Roles(a) == Roles(b)
  {
    if a != [] {
      SameRoles(a[..|a| - 1], b[..|b| - 1]);
    }
  }

  lemma {:induction false} ProfileKeeps(db: Db, id: int, profile: Profile, today: Day)
    requires Healthy(db)
    ensures Healthy(ProfileSaved(db, id, profile, today).1)
    ensures Roles(ProfileSaved(db, id, profile, today).1.people) == Roles(db.people)
  {
    hide Healthy, Roles, FamilyValid, SessionsValid, LedgerValid, AnswersPaid, MathBudgetKept, ReadingBudgetKept,
         Learns, ProfileValid, ActiveChild;
    var after := ProfileSaved(db, id, profile, today).1;
    if after != db {
      Unfold(db);
      PeopleDistinct(db);
      SameRoles(after.people, db.people);
      var i :| 0 <= i < |db.people| && db.people[i].active && db.people[i].role.Parent?;
      assert after.people[i] == db.people[i];
      PeopleChange(db, after.people);
    }
  }

  // ---------------------------------------------------------------- runs

  datatype Op =
    | StartMath(row: SessionRow, allowed: bool)
    | AnswerMath(owner: int, id: string, index: int, values: map<Key, int>, today: Day)
    | FinishMath(owner: int, id: string)
    | StartReading(owner: int, id: string, level: ReadingLevel, allowed: bool, now: int)
    | CompleteReading(owner: int, id: string, level: ReadingLevel, hosted: bool, today: Day)
    | CreateEntry(actor: Principal, kind: Kind, draft: Draft, today: Day, newId: int, now: int)
    | EditEntry(actor: Principal, entry: int, version: int, newDraft: Draft, today: Day, now: int)
    | ActOnEntry(actor: Principal, entry: int, command: Command, today: Day, now: int)
    | Join(person: Person)
    | Leave(at: nat)
    | SaveProfile(child: int, profile: Profile, today: Day)

  /** What the server guarantees of a request: drawn questions, clock days, generated ids, signed-in actors. */
  ghost predicate Possible(db: Db, op: Op) {
    match op
    case StartMath(row, _) => Drawn(row)
    case AnswerMath(_, _, _, _, today) => ValidDay(today)
    case CompleteReading(_, _, _, _, today) => ValidDay(today)
    case CreateEntry(actor, _, _, _, newId, now) => SignedIn(db.people, actor) && newId > 0 && now != 0
    case EditEntry(actor, _, _, _, _, now) => SignedIn(db.people, actor) && now != 0
    case ActOnEntry(actor, _, _, _, now) => SignedIn(db.people, actor) && now != 0
    case Join(person) => PersonValid(person) && person.profile == NO_PROFILE
    case Leave(at) => at < |db.people|
    case _ => true
  }

  ghost function Next(db: Db, op: Op): Db
    requires Sound(db) && Possible(db, op)
  {
    match op
    case StartMath(row, allowed) => StartedMath(db, row, allowed).db
    case AnswerMath(owner, id, index, values, today) => AnsweredMath(db, owner, id, index, values, today).1
    case FinishMath(owner, id) => FinishedMath(db, owner, id).1
    case StartReading(owner, id, level, allowed, now) => StartedReading(db, owner, id, level, allowed, now).1
    case CompleteReading(owner, id, level, hosted, today) => CompletedReading(db, owner, id, level, hosted, today).db
    case CreateEntry(actor, kind, draft, today, newId, now) =>
      var (error, e) := Created(actor, kind, draft, db.people, today);
      if error == Accepted then SavedEntry(db, e, newId, now).db else db
    case EditEntry(actor, entry, version, draft, today, now) =>
      var at := FindEntry(db.entries, entry);
      if at.None? then db
      else
        var (error, e) := Edited(db.entries[at.value], actor, version, draft, db.people, today);
        if error == Accepted then SavedEntry(db, e, entry, now).db else db
    case ActOnEntry(actor, entry, command, today, now) =>
      var at := FindEntry(db.entries, entry);
      if at.None? then db
      else
        var (error, e) := Applied(db.entries[at.value], actor, command, today, now);
        if error == Accepted then SavedEntry(db, e, entry, now).db else db
    case Join(person) => Joined(db, person)
    case Leave(at) => Left(db, at)
    case SaveProfile(child, profile, today) => ProfileSaved(db, child, profile, today).1
  }

  lemma {:induction false} EntryAt(db: Db, at: nat)
    requires Healthy(db) && at < |db.entries|
    ensures EntryAccepted(db.entries[at], Roles(db.people)) && db.entries[at].id != 0
  {
    hide Healthy, Roles, EntryValid, EntryKnown, SessionsValid, LedgerValid, AnswersPaid, MathBudgetKept,
         ReadingBudgetKept, Learns;
    Unfold(db);
  }

  lemma {:induction false} CreateKeeps(db: Db, actor: Principal, kind: Kind, draft: Draft, today: Day, newId: int,
        now: int)
    requires Healthy(db) && SignedIn(db.people, actor) && newId > 0 && now != 0
    requires Created(actor, kind, draft, db.people, today).0 == Accepted
    ensures Healthy(SavedEntry(db, Created(actor, kind, draft, db.people, today).1, newId, now).db)
  {
    hide Healthy, Created, Saveable, SavedEntry, SignedIn;
    PeopleDistinct(db);
    CreatedSaveable(db.people, actor, kind, draft, today);
    AppendedEntry(db, Created(actor, kind, draft, db.people, today).1, newId, now);
  }

  lemma {:induction false} EditKeeps(db: Db, at: nat, actor: Principal, version: int, draft: Draft, today: Day,
        now: int)
    requires Healthy(db) && at < |db.entries| && now != 0
    requires Edited(db.entries[at], actor, version, draft, db.people, today).0 == Accepted
    ensures var e := db.entries[at];
            Healthy(SavedEntry(db, Edited(e, actor, version, draft, db.people, today).1, e.id, now).db)
  {
    hide Healthy, Edited, Saveable, SavedEntry, EntryAccepted;
    var e := db.entries[at];
    PeopleDistinct(db);
    EntryAt(db, at);
    EditedSaveable(db.people, e, actor, version, draft, today);
    ReplacedEntry(db, Edited(e, actor, version, draft, db.people, today).1, e.id, now, at);
  }

  lemma {:induction false} ActKeeps(db: Db, at: nat, actor: Principal, c: Command, today: Day, now: int)
    requires Healthy(db) && at < |db.entries| && now != 0 && SignedIn(db.people, actor)
    ensures var e := db.entries[at];
            Healthy(SavedEntry(db, Applied(e, actor, c, today, now).1, e.id, now).db)
  {
    hide Healthy, Applied, Saveable, SavedEntry, EntryAccepted, SignedIn;
    var e := db.entries[at];
    PeopleDistinct(db);
    EntryAt(db, at);
    AppliedSaveable(db.people, e, actor, c, today, now);
    ReplacedEntry(db, Applied(e, actor, c, today, now).1, e.id, now, at);
  }

  /** The starts of lessons are no part of a backup. */
  lemma {:induction false} StartsFree(db: Db, starts: seq<ReadingStart>)
    requires Healthy(db)
    ensures Healthy(db.(starts := starts))
  {
    hide BackupValid;
  }

  /** One request of any kind keeps the tables acceptable. */
  lemma {:induction false} StepKeepsHealthy(db: Db, op: Op)
    requires Healthy(db) && Sound(db) && Possible(db, op)
    ensures Healthy(Next(db, op))
  {
    hide Healthy, Sound, Drawn, SignedIn, StartedMath, AnsweredMath, FinishedMath, CompletedReading;
    hide SavedEntry, Created, Edited, Applied, Joined, Left, CompletionValid, StartsSince, StartCount, ActiveChild;
    hide ProfileSaved;
    match op {
      case StartMath(row, allowed) => StartedMathKeeps(db, row, allowed);
      case AnswerMath(owner, id, index, values, today) => AnsweredMathKeeps(db, owner, id, index, values, today);
      case FinishMath(owner, id) => FinishedMathKeeps(db, owner, id);
      case StartReading(owner, id, level, allowed, now) => StartsFree(db, Next(db, op).starts);
      case CompleteReading(owner, id, level, hosted, today) => CompletedReadingKeeps(db, owner, id, level, hosted, today);
      case CreateEntry(actor, kind, draft, today, newId, now) =>
        if Created(actor, kind, draft, db.people, today).0 == Accepted {
          CreateKeeps(db, actor, kind, draft, today, newId, now);
        }
      case EditEntry(actor, entry, version, draft, today, now) =>
        var at := FindEntry(db.entries, entry);
        if at.Some? && Edited(db.entries[at.value], actor, version, draft, db.people, today).0 == Accepted {
          EditKeeps(db, at.value, actor, version, draft, today, now);
        }
      case ActOnEntry(actor, entry, command, today, now) =>
        var at := FindEntry(db.entries, entry);
        if at.Some? {
          ActKeeps(db, at.value, actor, command, today, now);
        }
      case Join(person) => JoinedKeeps(db, person);
      case Leave(at) => LeftKeeps(db, at);
      case SaveProfile(child, profile, today) => ProfileKeeps(db, child, profile, today);
    }
  }

  /** A run of requests; a table that held an unanswerable session could do anything. */
  ghost predicate Trace(states: seq<Db>, ops: seq<Op>) {
    |states| == |ops| + 1 && forall i :: 0 <= i < |ops| ==>
      Possible(states[i], ops[i]) && (Sound(states[i]) ==> states[i + 1] == Next(states[i], ops[i]))
  }

  /**
   From tables that export to an accepted backup, every run of requests leads to tables that export
   to an accepted backup again.
   */
  lemma {:induction false} BackupClosure(states: seq<Db>, ops: seq<Op>, i: nat)
    requires Trace(states, ops) && Healthy(states[0]) && i < |states|
    ensures Healthy(states[i]) && Sound(states[i]) && BackupValid(Export(states[i]))
  {
    hide Possible, Next, Sound, BackupValid;
    if i > 0 {
      BackupClosure(states, ops, i - 1);
      StepKeepsHealthy(states[i - 1], ops[i - 1]);
    }
    assert BackupValid(Export(states[i]));
    hide Healthy;
    Unfold(states[i]);
  }

  /** A new family's empty tables are acceptable. */
  lemma {:induction false} FirstState(parent: Person)
    requires PersonValid(parent) && parent.role.Parent? && parent.active
    ensures Healthy(Db([parent], [], [], [], []))
  {
    var people := [parent];
    assert people[0].active && people[0].role.Parent?;
    forall participant, day ensures MathWithin([], participant, day) {
    }
    forall participant, day ensures ReadingWithin([], participant, day) {
    }
  }

  // ---------------------------------------------------------------- learning profiles

  lemma {:induction false} ProfilesStep(db: Db, op: Op, today: Day)
    requires Sound(db) && Possible(db, op) && ProfilesValid(db.people, today)
    requires op.SaveProfile? ==> op.today <= today
    ensures ProfilesValid(Next(db, op).people, today)
  {
    hide ActiveChild, Inserted, Candidates, AllInserted, Created, Edited, Applied, SignedIn, Drawn, FindSession;
    hide FindReward, FindStart, FindEntry, StartedAs, OtherParent;
  }

  /** Profiles are saved on days of the clock, none after this one. */
  predicate SavedBy(ops: seq<Op>, n: nat, today: Day)
    requires n <= |ops|
  {
    forall k :: 0 <= k < n && ops[k].SaveProfile? ==> ops[k].today <= today
  }

  /** What an import checks against the calendar holds along a run on its latest day, changed profiles included. */
  lemma {:induction false} ProfilesAlong(states: seq<Db>, ops: seq<Op>, i: nat, start: Day, today: Day)
    requires Trace(states, ops) && Healthy(states[0]) && i < |states|
    requires ProfilesValid(states[0].people, start) && start <= today && SavedBy(ops, i, today)
    ensures ProfilesValid(states[i].people, today)
  {
    hide Healthy, Possible, Next, Sound, ProfilesValid;
    if i == 0 {
      LaterProfiles(states[0].people, start, today);
    } else {
      ProfilesAlong(states, ops, i - 1, start, today);
      BackupClosure(states, ops, i - 1);
      ProfilesStep(states[i - 1], ops[i - 1], today);
    }
  }

  lemma {:induction false} LaterProfiles(people: seq<Person>, today: Day, later: Day)
    requires ProfilesValid(people, today) && today <= later
    ensures ProfilesValid(people, later)
  {
  }
}
