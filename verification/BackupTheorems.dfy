/**
 Backup closure: whatever the family does after a backup was accepted, the tables export to a backup
 that is accepted again, and what an older version accepted the current version accepts too.
 */
module BackupTheorems {
  import opened Days
  import opened MathTypes
  import opened MathWork
  import opened MathSession
  import opened SessionTheorems
  import opened Rewards
  import opened Family
  import opened Store
  import opened Backup
  import opened BackupCheck
  import opened LedgerTheorems

  // ---------------------------------------------------------------- older versions

  lemma {:induction false} OlderReward(v: int, roles: map<int, Role>, sessions: seq<SessionRow>,
      entries: seq<Entry>, r: Reward)
    requires v <= CURRENT_VERSION && RewardValid(v, roles, sessions, entries, r)
    ensures RewardValid(CURRENT_VERSION, roles, sessions, entries, r)
  {
    hide Paid, LessonFits, EntryKind, IsChild;
  }

  /** A backup accepted at an older version is accepted at the current one. */
  lemma {:induction false} OlderAccepted(b: Backup)
    requires BackupValid(b)
    ensures BackupValid(b.(version := CURRENT_VERSION))
  {
    hide RewardValid, SessionValid, EntryAccepted, Roles;
    var now := b.(version := CURRENT_VERSION);
    forall i | 0 <= i < |b.rewards|
      ensures RewardValid(CURRENT_VERSION, Roles(b.people), b.sessions, b.entries, b.rewards[i])
    {
      OlderReward(b.version, Roles(b.people), b.sessions, b.entries, b.rewards[i]);
    }
    assert LedgerValid(now);
    assert SessionsValid(now);
  }

  // ---------------------------------------------------------------- the state of the tables

  /** Participant ids are the table's primary key. */
  ghost predicate DistinctPeople(people: seq<Person>) {
    forall i, j :: 0 <= i < j < |people| ==> people[i].id != people[j].id
  }

  ghost predicate Healthy(db: Db) {
    DistinctPeople(db.people) && BackupValid(Export(db))
  }

  lemma {:induction false} RoleOf(people: seq<Person>, i: nat)
    requires DistinctPeople(people) && i < |people|
    ensures people[i].id in Roles(people) && Roles(people)[people[i].id] == people[i].role
  {
    var last := |people| - 1;
    if i < last {
      RoleOf(people[..last], i);
      assert people[last].id != people[i].id;
    }
  }

  lemma {:induction false} ChildRole(people: seq<Person>, id: int)
    requires DistinctPeople(people) && ActiveChild(people, id)
    ensures IsChild(Roles(people), id) && Roster(people, id)
  {
    var i :| 0 <= i < |people| && people[i].id == id && people[i].active && people[i].role.Child?;
    RoleOf(people, i);
  }

  lemma {:induction false} RosterRole(people: seq<Person>, id: int)
    requires DistinctPeople(people) && Roster(people, id)
    ensures id in Roles(people) && InFamily(Roles(people)[id])
  {
    var i :| 0 <= i < |people| && people[i].id == id && people[i].active && InFamily(people[i].role);
    RoleOf(people, i);
  }

  // ---------------------------------------------------------------- what a valid row depends on

  ghost predicate RolesKept(before: map<int, Role>, after: map<int, Role>) {
    forall id :: id in before ==> id in after && after[id] == before[id]
  }

  /** Sessions stay where they are and keep their owner; their answers only grow. */
  ghost predicate SessionsGrow(before: seq<SessionRow>, after: seq<SessionRow>) {
    |before| <= |after| && forall i :: 0 <= i < |before| ==>
      && before[i].id == after[i].id && before[i].participant == after[i].participant
      && before[i].answers <= after[i].answers
  }

  ghost predicate KindsKept(before: seq<Entry>, after: seq<Entry>) {
    forall id :: !EntryKind(before, id).OtherKind? ==> EntryKind(after, id) == EntryKind(before, id)
  }

  lemma {:induction false} PaidStays(before: seq<SessionRow>, after: seq<SessionRow>, r: Reward)
    requires SessionsGrow(before, after) && Paid(before, r)
    ensures Paid(after, r)
  {
    var i :| 0 <= i < |before| && Pays(before[i], r);
    assert after[i].answers[r.key.index] == before[i].answers[r.key.index];
    assert Pays(after[i], r);
  }

  lemma {:induction false} RewardStays(b: Backup, after: Backup, r: Reward)
    requires RewardValid(b.version, Roles(b.people), b.sessions, b.entries, r) && after.version == b.version
    requires RolesKept(Roles(b.people), Roles(after.people))
    requires SessionsGrow(b.sessions, after.sessions) && KindsKept(b.entries, after.entries)
    ensures RewardValid(after.version, Roles(after.people), after.sessions, after.entries, r)
  {
    hide Paid, LessonFits, EntryKind, SessionsGrow;
    if r.source.MathSource? {
      PaidStays(b.sessions, after.sessions, r);
    }
  }

  lemma {:induction false} LedgerStays(b: Backup, after: Backup)
    requires LedgerValid(b) && after.version == b.version && after.rewards == b.rewards
    requires RolesKept(Roles(b.people), Roles(after.people))
    requires SessionsGrow(b.sessions, after.sessions) && KindsKept(b.entries, after.entries)
    ensures LedgerValid(after)
  {
    hide RewardValid, Roles, SessionsGrow, KindsKept, RolesKept;
    forall i | 0 <= i < |b.rewards|
      ensures RewardValid(after.version, Roles(after.people), after.sessions, after.entries, after.rewards[i])
    {
      RewardStays(b, after, b.rewards[i]);
    }
  }

  // ---------------------------------------------------------------- a new ledger row

  lemma {:induction false} InsertedLedger(b: Backup, r: Reward)
    requires LedgerValid(b)
    requires Roster(b.people, r.participant) ==> RewardValid(b.version, Roles(b.people), b.sessions, b.entries, r)
    ensures LedgerValid(b.(rewards := Inserted(b.people, b.rewards, r)))
    ensures b.rewards <= Inserted(b.people, b.rewards, r)
  {
    hide RewardValid, Roles, Roster;
    var after := Inserted(b.people, b.rewards, r);
    forall i, j | 0 <= i < j < |after| ensures KeyOf(after[i]) != KeyOf(after[j]) {
      if j == |b.rewards| {
        assert KeyOf(b.rewards[i]) in Keys(b.rewards);
      }
    }
  }

  lemma {:induction false} AllInsertedLedger(b: Backup, more: seq<Reward>)
    requires LedgerValid(b)
    requires forall r :: r in more && Roster(b.people, r.participant) ==>
               RewardValid(b.version, Roles(b.people), b.sessions, b.entries, r)
    ensures LedgerValid(b.(rewards := AllInserted(b.people, b.rewards, more)))
    ensures b.rewards <= AllInserted(b.people, b.rewards, more)
  {
    hide RewardValid, Roles, Roster, LedgerValid, Inserted;
    if more != [] {
      var last := |more| - 1;
      AllInsertedLedger(b, more[..last]);
      InsertedLedger(b.(rewards := AllInserted(b.people, b.rewards, more[..last])), more[last]);
    }
  }

  lemma {:induction false} InsertedOther(people: seq<Person>, rs: seq<Reward>, r: Reward, source: Source,
      participant: int, day: Day)
    requires r.source != source
    ensures LedgerStars(Inserted(people, rs, r), source, participant, day) == LedgerStars(rs, source, participant, day)
  {
    hide Roster;
    RowAdded(rs, r, source, participant, day);
  }

  lemma {:induction false} AllInsertedOther(people: seq<Person>, rs: seq<Reward>, more: seq<Reward>,
      source: Source, participant: int, day: Day)
    requires forall r :: r in more ==> r.source != source
    ensures LedgerStars(AllInserted(people, rs, more), source, participant, day) == LedgerStars(rs, source, participant, day)
  {
    hide Inserted;
    if more != [] {
      var last := |more| - 1;
      AllInsertedOther(people, rs, more[..last], source, participant, day);
      InsertedOther(people, AllInserted(people, rs, more[..last]), more[last], source, participant, day);
    }
  }

  lemma {:induction false} KeysGrow(rs: seq<Reward>, more: seq<Reward>)
    requires rs <= more
    ensures Keys(rs) <= Keys(more)
  {
    forall key | key in Keys(rs) ensures key in Keys(more) {
      var r :| r in rs && KeyOf(r) == key;
      var i :| 0 <= i < |rs| && rs[i] == r;
      assert more[i] == r;
    }
  }

  lemma {:induction false} PaidByMore(sessions: seq<SessionRow>, keys: set<RewardKey>, more: set<RewardKey>)
    requires keys <= more && forall i :: 0 <= i < |sessions| ==> SessionPaid(sessions[i], keys)
    ensures forall i :: 0 <= i < |sessions| ==> SessionPaid(sessions[i], more)
  {
    forall i | 0 <= i < |sessions| ensures SessionPaid(sessions[i], more) {
      assert SessionPaid(sessions[i], keys);
    }
  }

  // ---------------------------------------------------------------- math sessions

  lemma {:induction false} PeopleDistinct(db: Db)
    requires Healthy(db)
    ensures DistinctPeople(db.people)
  {
    hide BackupValid;
  }

  lemma {:induction false} Unfold(db: Db)
    requires Healthy(db)
    ensures var b := Export(db);
            && PeopleValid(b.people) && FamilyValid(b) && SessionsValid(b) && LedgerValid(b) && AnswersPaid(b)
            && MathBudgetKept(b.sessions) && ReadingBudgetKept(b.rewards)
            && Learns(b) && Sound(db)
  {
    hide Roles;
    forall i | 0 <= i < |db.sessions| ensures Runnable(db.sessions[i]) {
      assert SessionAccepted(CURRENT_VERSION, Roles(db.people), db.sessions[i]);
    }
  }

  lemma {:induction false} Fold(db: Db)
    requires DistinctPeople(db.people)
    requires var b := Export(db);
             && PeopleValid(b.people) && FamilyValid(b) && SessionsValid(b) && LedgerValid(b) && AnswersPaid(b)
             && MathBudgetKept(b.sessions) && ReadingBudgetKept(b.rewards)
    ensures Healthy(db)
  {
    hide PeopleValid, FamilyValid, SessionsValid, LedgerValid, AnswersPaid, MathBudgetKept, ReadingBudgetKept;
  }

  /** A session as it is first stored. */
  ghost predicate Drawn(row: SessionRow) {
    SessionValid(row) && row.answers == [] && !row.closed && row.rewardVersion == 3
  }

  lemma {:induction false} StartedMathKeeps(db: Db, row: SessionRow, allowed: bool)
    requires Healthy(db) && Drawn(row)
    ensures Healthy(StartedMath(db, row, allowed).db)
  {
    hide SessionValid, Healthy, Roles, FamilyValid, LedgerValid, MathStars, PeopleValid, ReadingBudgetKept, ActiveChild;
    var after := StartedMath(db, row, allowed).db;
    if after != db {
      Unfold(db);
      PeopleDistinct(db);
      var b := Export(db);
      ChildRole(db.people, row.participant);
      forall participant, day ensures MathWithin(after.sessions, participant, day) {
        assert MathWithin(db.sessions, participant, day);
        AppendedSum(db.sessions, row, Budgeted, participant, day);
        AppendedSum(db.sessions, row, Previous, participant, day);
      }
      LedgerStays(b, Export(after));
      assert FamilyValid(Export(after)) by { FamilyStays(b, Export(after)); }
      Fold(after);
    }
  }

  lemma {:induction false} FamilyStays(b: Backup, after: Backup)
    requires FamilyValid(b) && after.people == b.people && after.entries == b.entries
    ensures FamilyValid(after)
  {
    hide EntryAccepted, Roles;
  }

  /** Replacing a session by a later state of it. */
  ghost predicate Continues(s: SessionRow, next: SessionRow) {
    && SessionValid(next) && s.answers <= next.answers
    && next == s.(closed := next.closed, answers := next.answers) && (s.closed ==> next.closed)
  }

  lemma {:induction false} ContinuedSessions(b: Backup, at: nat, next: SessionRow)
    requires SessionsValid(b) && at < |b.sessions| && Continues(b.sessions[at], next)
    ensures SessionsValid(b.(sessions := b.sessions[at := next]))
    ensures SessionsGrow(b.sessions, b.sessions[at := next])
  {
    hide SessionValid, Roles;
    assert SessionAccepted(b.version, Roles(b.people), b.sessions[at]);
  }

  lemma {:induction false} FinishedMathKeeps(db: Db, owner: int, id: string)
    requires Healthy(db)
    ensures Healthy(FinishedMath(db, owner, id).1)
  {
    hide SessionValid, Healthy, Roles, FamilyValid, LedgerValid, SessionsValid, PeopleValid, ReadingBudgetKept;
    var at := FindSession(db.sessions, id, owner);
    if at.Some? {
      var s, b := db.sessions[at.value], Export(db);
      var next := s.(closed := true);
      var after := FinishedMath(db, owner, id).1;
      Unfold(db);
      PeopleDistinct(db);
      assert SessionValid(s) by { AcceptedValid(b, at.value); }
      StepKeeps(s, Closing);
      ContinuedSessions(b, at.value, next);
      LedgerStays(b, Export(after));
      FamilyStays(b, Export(after));
      forall participant, day ensures MathWithin(after.sessions, participant, day) {
        assert MathWithin(db.sessions, participant, day);
        ReplacedSum(db.sessions, at.value, next, Budgeted, participant, day);
        ReplacedSum(db.sessions, at.value, next, Previous, participant, day);
      }
      forall i | 0 <= i < |after.sessions| ensures SessionPaid(after.sessions[i], Keys(after.rewards)) {
        assert SessionPaid(db.sessions[i], Keys(db.rewards));
      }
      Fold(after);
    }
  }

  lemma {:induction false} AcceptedValid(b: Backup, at: nat)
    requires SessionsValid(b) && at < |b.sessions|
    ensures SessionValid(b.sessions[at])
  {
    hide SessionValid, Roles;
    assert SessionAccepted(b.version, Roles(b.people), b.sessions[at]);
  }

  /** The parts of one recorded answer: the session continues by one answer, judged and cut to the day's budget. */
  lemma {:induction false} AnswerRecorded(s: SessionRow, index: int, values: map<Key, int>, today: Day, earned: int)
    returns (next: SessionRow, a: AnswerRow)
    requires SessionValid(s) && ValidDay(today)
    requires AfterSubmit(s, index, values, today).0 == Accepted
    requires |AfterSubmit(s, index, values, today).1.answers| != |s.answers|
    ensures index == |s.answers| && next == AwardedRow(AfterSubmit(s, index, values, today).1, index, earned)
    ensures Continues(s, next) && next.answers == s.answers + [a] && !s.closed && !next.closed
    ensures a.index == index && a.day == today && a.stars >= 0 && (a.stars > 0 ==> a.correct)
    ensures Counts(Budgeted, s.rewardVersion) && a.stars > 0 ==> earned + a.stars <= MATH_DAILY_STARS
    ensures Counts(Previous, s.rewardVersion) && a.stars > 0 ==> earned + a.stars <= PREVIOUS_MATH_DAILY_STARS
    ensures s.rewardVersion == 3 ==>
              a.stars == Cut(if a.correct then s.settings.Stars() else 0, MATH_DAILY_STARS - earned)
    ensures a.correct <==> a.values == Expected(s.questions[index], s.settings)
  {
    hide Expected, Workable, HeaderValid, AnswerValid, NominalStars;
    next := AwardedRow(AfterSubmit(s, index, values, today).1, index, earned);
    a := next.answers[index];
    assert next.answers == s.answers + [a];
    StepKeeps(s, Answering(index, values, today, earned));
    assert SessionTheorems.Step(s, Answering(index, values, today, earned)) == next;
    NominalOfThree(s);
  }

  /** What is left of an amount under a budget that may already be spent. */
  function Cut(stars: int, left: int): int {
    if left <= 0 then 0 else if stars < left then stars else left
  }

  lemma {:induction false} NominalOfThree(s: SessionRow)
    ensures s.rewardVersion == 3 ==> NominalStars(s.settings, s.rewardVersion) == s.settings.Stars()
  {
  }

  lemma {:induction false} AnsweredBudget(b: Backup, at: nat, next: SessionRow, a: AnswerRow, participant: int,
        day: Day)
    requires Learns(b) && MathBudgetKept(b.sessions) && at < |b.sessions|
    requires forall i :: 0 <= i < |b.sessions| ==> StarsNotNegative(b.sessions[i])
    requires next == b.sessions[at].(answers := b.sessions[at].answers + [a])
    requires var (s, earned) := (b.sessions[at], LedgerStars(b.rewards, MathSource, b.sessions[at].participant, a.day));
             && (Counts(Budgeted, s.rewardVersion) && a.stars > 0 ==> earned + a.stars <= MATH_DAILY_STARS)
             && (Counts(Previous, s.rewardVersion) && a.stars > 0 ==> earned + a.stars <= PREVIOUS_MATH_DAILY_STARS)
    requires a.stars >= 0
    ensures MathWithin(b.sessions[at := next], participant, day)
  {
    hide Learns, MathStars, StarsNotNegative, SessionStars;
    assert MathWithin(b.sessions, participant, day);
    LedgerCovers(b, participant, day);
    var s := b.sessions[at];
    var scales := [Budgeted, Previous];
    forall k | 0 <= k < 2
      ensures MathStars(b.sessions[at := next], scales[k], participant, day)
           == MathStars(b.sessions, scales[k], participant, day)
              + if Counts(scales[k], s.rewardVersion) && s.participant == participant && a.day == day then a.stars else 0
    {
      ScaleWithinAll(b.sessions, scales[k], participant, day);
      ReplacedSum(b.sessions, at, next, scales[k], participant, day);
      AnswerAdded(s, a, scales[k], participant, day);
    }
    ScaleWithinAll(b.sessions, Budgeted, participant, day);
    ScaleWithinAll(b.sessions, Previous, participant, day);
    assert scales[0] == Budgeted && scales[1] == Previous;
  }

  lemma {:induction false} KeyFree(b: Backup, at: nat)
    requires SessionsValid(b) && LedgerValid(b) && at < |b.sessions|
    ensures AnswerKey(b.sessions[at], |b.sessions[at].answers|) !in Keys(b.rewards)
  {
    hide Roles, SessionAccepted;
    var s := b.sessions[at];
    forall r | r in b.rewards ensures KeyOf(r) != AnswerKey(s, |s.answers|) {
      assert RewardValid(b.version, Roles(b.people), b.sessions, b.entries, r);
      if r.source.MathSource? {
        var i :| 0 <= i < |b.sessions| && Pays(b.sessions[i], r);
        assert i != at ==> b.sessions[i].id != s.id;
      }
    }
  }

  /** Everything about the ledger when an answer with stars is recorded. */
  lemma {:induction false} AnswerRowInserted(b: Backup, at: nat, next: SessionRow, a: AnswerRow)
    requires SessionsValid(b) && LedgerValid(b) && at < |b.sessions| && DistinctPeople(b.people)
    requires SessionsGrow(b.sessions, b.sessions[at := next])
    requires next == b.sessions[at].(answers := b.sessions[at].answers + [a])
    requires ActiveChild(b.people, next.participant) && ValidDay(a.day) && a.stars > 0 && a.correct
    ensures var r := MathReward(next, |next.answers| - 1);
            && Inserted(b.people, b.rewards, r) == b.rewards + [r]
            && KeyOf(r) == AnswerKey(next, |next.answers| - 1)
            && LedgerValid(b.(sessions := b.sessions[at := next], rewards := b.rewards + [r]))
  {
    hide Roles, ActiveChild, Roster, SessionsValid, LedgerValid, SessionsGrow;
    var r := MathReward(next, |next.answers| - 1);
    var mid := b.(sessions := b.sessions[at := next]);
    ChildRole(b.people, next.participant);
    KeyFree(b, at);
    LedgerStays(b, mid);
    assert Pays(mid.sessions[at], r);
    assert |r.title| <= 160;
    InsertedLedger(mid, r);
  }

  lemma {:induction false} AnswerPaid(b: Backup, at: nat, next: SessionRow, a: AnswerRow, rewards: seq<Reward>)
    requires SessionsValid(b) && AnswersPaid(b) && at < |b.sessions| && b.rewards <= rewards
    requires next == b.sessions[at].(answers := b.sessions[at].answers + [a]) && a.index == |b.sessions[at].answers|
    requires a.stars > 0 ==> AnswerKey(next, a.index) in Keys(rewards)
    ensures AnswersPaid(b.(sessions := b.sessions[at := next], rewards := rewards))
  {
    hide SessionAccepted, Roles;
    KeysGrow(b.rewards, rewards);
    var sessions := b.sessions[at := next];
    forall i | 0 <= i < |b.sessions| ensures SessionPaid(sessions[i], Keys(rewards)) {
      assert SessionPaid(b.sessions[i], Keys(b.rewards));
    }
  }

  /** Recording an answer keeps the tables acceptable. */
  lemma {:induction false} AnsweredMathKeeps(db: Db, owner: int, id: string, index: int, values: map<Key, int>,
        today: Day)
    requires Healthy(db) && Sound(db) && ValidDay(today)
    ensures Healthy(AnsweredMath(db, owner, id, index, values, today).1)
  {
    hide Healthy, Sound, SessionValid, Roster, ActiveChild, Expected, AfterSubmit, Roles;
    hide PeopleValid, FamilyValid, SessionsValid, LedgerValid, AnswersPaid, MathBudgetKept, ReadingBudgetKept,
         Learns, Inserted;
    hide AwardedRow, FindSession;
    var after := AnsweredMath(db, owner, id, index, values, today).1;
    if after != db {
      var b, at := Export(db), FindSession(db.sessions, id, owner).value;
      var s, earned := db.sessions[at], LedgerStars(db.rewards, MathSource, owner, today);
      Unfold(db);
      AcceptedValid(b, at);
      FoundOwner(db.sessions, id, owner);
      var next, a := AnswerRecorded(s, index, values, today, earned);
      AnswerStored(db, at, next, a);
    }
  }

  lemma {:induction false} FoundOwner(sessions: seq<SessionRow>, id: string, owner: int)
    ensures var at := FindSession(sessions, id, owner);
            at.Some? ==> at.value < |sessions| && sessions[at.value].id == id && sessions[at.value].participant == owner
  {
  }

  /** The tables after an answer that was not there before. */
  lemma {:induction false} AnswerStored(db: Db, at: nat, next: SessionRow, a: AnswerRow)
    requires Healthy(db) && at < |db.sessions| && ActiveChild(db.people, next.participant)
    requires var (s, earned) := (db.sessions[at], LedgerStars(db.rewards, MathSource, db.sessions[at].participant, a.day));
             && Continues(s, next) && next == s.(answers := s.answers + [a])
             && a.index == |s.answers| && ValidDay(a.day) && a.stars >= 0 && (a.stars > 0 ==> a.correct)
             && (Counts(Budgeted, s.rewardVersion) && a.stars > 0 ==> earned + a.stars <= MATH_DAILY_STARS)
             && (Counts(Previous, s.rewardVersion) && a.stars > 0 ==> earned + a.stars <= PREVIOUS_MATH_DAILY_STARS)
    ensures var r := MathReward(next, a.index);
            && (a.stars > 0 ==> Inserted(db.people, db.rewards, r) == db.rewards + [r])
            && Healthy(db.(sessions := db.sessions[at := next],
                           rewards := if a.stars == 0 then db.rewards else Inserted(db.people, db.rewards, r)))
  {
    hide SessionValid, Continues, Roster, ActiveChild, Roles, Counts, Inserted, SessionsGrow;
    hide PeopleValid, FamilyValid, SessionsValid, LedgerValid, AnswersPaid, ReadingBudgetKept, Learns;
    var b, r := Export(db), MathReward(next, a.index);
    Unfold(db);
    NothingNegative(b);
    ContinuedSessions(b, at, next);
    assert Healthy(db);
    hide Healthy;
    var mid := db.(sessions := db.sessions[at := next]);
    LedgerStays(b, Export(mid));
    var rewards := db.rewards;
    if a.stars > 0 {
      PeopleDistinct(db);
      AnswerRowInserted(b, at, next, a);
      rewards := db.rewards + [r];
      assert KeyOf(r) in Keys(rewards) by { assert rewards[|db.rewards|] == r; }
      ReadingUntouched(db.rewards, r);
    }
    var after := mid.(rewards := rewards);
    AnswerPaid(b, at, next, a, rewards);
    forall participant, day ensures MathWithin(after.sessions, participant, day) {
      AnsweredBudget(b, at, next, a, participant, day);
    }
    FamilyStays(b, Export(after));
    PeopleDistinct(db);
    assert SessionsValid(Export(after)) by { SessionsOnly(b.(sessions := after.sessions), Export(after)); }
    Fold(after);
  }

  lemma {:induction false} SessionsOnly(b: Backup, after: Backup)
    requires SessionsValid(b) && after.sessions == b.sessions && after.people == b.people && after.version == b.version
    ensures SessionsValid(after)
  {
    hide SessionAccepted, Roles;
  }

  lemma {:induction false} ReadingUntouched(rs: seq<Reward>, r: Reward)
    requires ReadingBudgetKept(rs) && !r.source.ReadingSource?
    ensures ReadingBudgetKept(rs + [r])
  {
    hide LedgerStars;
    forall participant, day ensures ReadingWithin(rs + [r], participant, day) {
      assert ReadingWithin(rs, participant, day);
      RowAdded(rs, r, ReadingSource, participant, day);
    }
  }
}
