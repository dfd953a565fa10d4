/** What a day pays: never more than the budgets, exactly the budget's share of what was earned, and each thing once. */
module BudgetTheorems {
  import opened Days
  import opened MathTypes
  import opened MathWork
  import opened MathSession
  import opened Rewards
  import opened Family
  import opened FamilyRewards
  import opened Store
  import opened Backup
  import opened BackupCheck
  import opened LedgerTheorems
  import opened BackupTheorems
  import opened BackupRuns

  /** Over any run no child gets more in a day than the budgets allow. */
  lemma {:induction false} BudgetsHold(states: seq<Db>, ops: seq<Op>, i: nat, participant: int, day: Day)
    requires Trace(states, ops) && Healthy(states[0]) && i < |states|
    ensures MathStars(states[i].sessions, Budgeted, participant, day) <= 40
    ensures MathStars(states[i].sessions, Previous, participant, day) <= 30
    ensures LedgerStars(states[i].rewards, ReadingSource, participant, day) <= 30
  {
    hide Trace, Healthy;
    BackupClosure(states, ops, i);
    Unfold(states[i]);
    assert MathWithin(states[i].sessions, participant, day);
    assert ReadingWithin(states[i].rewards, participant, day);
  }

  // ---------------------------------------------------------------- the exact total of a day

  /** The answers with their full stars, as if there were no budget. */
  function Uncut(s: SessionRow): SessionRow {
    s.(answers := seq(|s.answers|, i requires 0 <= i < |s.answers| => FullStars(s, s.answers[i])))
  }

  function FullStars(s: SessionRow, a: AnswerRow): AnswerRow {
    a.(stars := if a.correct then s.settings.Stars() else 0)
  }

  function AllUncut(sessions: seq<SessionRow>): seq<SessionRow> {
    seq(|sessions|, i requires 0 <= i < |sessions| => Uncut(sessions[i]))
  }

  /** The stars of the day's correct answers on the current scale, before any budget. */
  function NominalDay(sessions: seq<SessionRow>, participant: int, day: Day): int {
    MathStars(AllUncut(sessions), AllScales, participant, day)
  }

  ghost predicate AllCurrent(sessions: seq<SessionRow>) {
    forall i :: 0 <= i < |sessions| ==> sessions[i].rewardVersion == 3
  }

  /** Ledger and answers agree on the day, and both are the budget's share of the nominal stars. */
  ghost predicate DayExact(db: Db, participant: int, day: Day) {
    var ledger := LedgerStars(db.rewards, MathSource, participant, day);
    && ledger == MathStars(db.sessions, AllScales, participant, day)
    && ledger == Cut(MATH_DAILY_STARS, NominalDay(db.sessions, participant, day))
  }

  lemma {:induction false} NoAnswersNoStars(s: SessionRow, participant: int, day: Day)
    requires s.answers == []
    ensures SessionStars(s, AllScales, participant, day) == 0
            && SessionStars(Uncut(s), AllScales, participant, day) == 0
  {
  }

  lemma {:induction false} NominalAppended(sessions: seq<SessionRow>, s: SessionRow, participant: int, day: Day)
    ensures NominalDay(sessions + [s], participant, day)
         == NominalDay(sessions, participant, day) + SessionStars(Uncut(s), AllScales, participant, day)
  {
    assert AllUncut(sessions + [s]) == AllUncut(sessions) + [Uncut(s)];
    AppendedSum(AllUncut(sessions), Uncut(s), AllScales, participant, day);
  }

  lemma {:induction false} NominalReplaced(sessions: seq<SessionRow>, at: nat, s: SessionRow, participant: int,
        day: Day)
    requires at < |sessions|
    ensures NominalDay(sessions[at := s], participant, day)
         == NominalDay(sessions, participant, day)
            - SessionStars(Uncut(sessions[at]), AllScales, participant, day) + SessionStars(Uncut(s), AllScales, participant, day)
  {
    assert AllUncut(sessions[at := s]) == AllUncut(sessions)[at := Uncut(s)];
    ReplacedSum(AllUncut(sessions), at, Uncut(s), AllScales, participant, day);
  }

  lemma {:induction false} UncutAdded(s: SessionRow, a: AnswerRow, participant: int, day: Day)
    ensures SessionStars(Uncut(s.(answers := s.answers + [a])), AllScales, participant, day)
         == SessionStars(Uncut(s), AllScales, participant, day)
            + if s.participant == participant && a.day == day then FullStars(s, a).stars else 0
  {
    assert Uncut(s.(answers := s.answers + [a])) == Uncut(s).(answers := Uncut(s).answers + [FullStars(s, a)]);
    AnswerAdded(Uncut(s), FullStars(s, a), AllScales, participant, day);
  }

  /** Cutting answer by answer is cutting the total. */
  lemma {:induction false} CutTwice(total: int, more: nat, limit: nat)
    requires total >= 0
    ensures Cut(limit, total) + Cut(more, limit - Cut(limit, total)) == Cut(limit, total + more)
  {
  }

  lemma {:induction false} NominalNotNegative(sessions: seq<SessionRow>, participant: int, day: Day)
    ensures NominalDay(sessions, participant, day) >= 0
  {
    var full := AllUncut(sessions);
    forall i | 0 <= i < |full| ensures StarsNotNegative(full[i]) {
    }
    ScaleWithinAll(full, AllScales, participant, day);
  }

  lemma {:induction false} AnswerExact(db: Db, owner: int, id: string, index: int, values: map<Key, int>,
      today: Day, participant: int, day: Day)
    requires Healthy(db) && Sound(db) && ValidDay(today) && AllCurrent(db.sessions) && DayExact(db, participant, day)
    ensures var after := AnsweredMath(db, owner, id, index, values, today).1;
            AllCurrent(after.sessions) && DayExact(after, participant, day)
  {
    hide Healthy, Sound, SessionValid, Roster, ActiveChild, Expected, AfterSubmit, Roles, Inserted, AwardedRow,
         FindSession;
    hide LedgerStars, MathStars, Uncut, SessionStars, NominalDay;
    var after := AnsweredMath(db, owner, id, index, values, today).1;
    if after != db {
      var b, at := Export(db), FindSession(db.sessions, id, owner).value;
      var s, earned := db.sessions[at], LedgerStars(db.rewards, MathSource, owner, today);
      StoredValid(db, at);
      FoundOwner(db.sessions, id, owner);
      var next, a := AnswerRecorded(s, index, values, today, earned);
      AnswerStored(db, at, next, a);
      AnswerCounted(db, at, next, a, after, participant, day);
    }
  }

  lemma {:induction false} StoredValid(db: Db, at: nat)
    requires Healthy(db) && at < |db.sessions|
    ensures SessionValid(db.sessions[at])
  {
    hide Healthy, SessionsValid;
    Unfold(db);
    AcceptedValid(Export(db), at);
  }

  /** The sums of one day before and after one recorded answer. */
  lemma {:induction false} AnswerCounted(db: Db, at: nat, next: SessionRow, a: AnswerRow, after: Db,
      participant: int, day: Day)
    requires at < |db.sessions| && AllCurrent(db.sessions) && DayExact(db, participant, day)
    requires var s := db.sessions[at];
             && next == s.(answers := s.answers + [a]) && a.index == |s.answers|
             && a.stars == Cut(FullStars(s, a).stars, MATH_DAILY_STARS - LedgerStars(db.rewards, MathSource, s.participant, a.day))
    requires after.sessions == db.sessions[at := next]
    requires after.rewards == if a.stars == 0 then db.rewards else db.rewards + [MathReward(next, a.index)]
    ensures AllCurrent(after.sessions) && DayExact(after, participant, day)
  {
    hide LedgerStars, MathStars, Uncut, SessionStars, NominalDay;
    var s := db.sessions[at];
    ReplacedSum(db.sessions, at, next, AllScales, participant, day);
    AnswerAdded(s, a, AllScales, participant, day);
    NominalReplaced(db.sessions, at, next, participant, day);
    UncutAdded(s, a, participant, day);
    RowAdded(db.rewards, MathReward(next, a.index), MathSource, participant, day);
    NominalNotNegative(db.sessions, participant, day);
    if s.participant == participant && a.day == day {
      CutTwice(NominalDay(db.sessions, participant, day), FullStars(s, a).stars, MATH_DAILY_STARS);
    }
  }

  lemma {:induction false} SavedExact(db: Db, e: Entry, newId: int, now: int, participant: int, day: Day)
    requires DayExact(db, participant, day) && AllCurrent(db.sessions)
    ensures var after := SavedEntry(db, e, newId, now).db;
            after.sessions == db.sessions && DayExact(after, participant, day)
  {
    hide Candidates, AllInserted, MathStars, LedgerStars, NominalDay;
    var after := SavedEntry(db, e, newId, now).db;
    if after != db {
      var before := if e.id == 0 then NOTHING else db.entries[FindEntry(db.entries, e.id).value];
      var saved := SavedEntry(db, e, newId, now).value;
      CandidatesOther(before, saved);
      AllInsertedOther(db.people, db.rewards, Candidates(before, saved), MathSource, participant, day);
    }
  }

  lemma {:induction false} OthersExact(db: Db, op: Op, participant: int, day: Day)
    requires Sound(db) && Possible(db, op) && !op.AnswerMath?
    requires AllCurrent(db.sessions) && DayExact(db, participant, day)
    ensures AllCurrent(Next(db, op).sessions) && DayExact(Next(db, op), participant, day)
  {
    hide Sound, SignedIn, SessionValid, AnsweredMath, SavedEntry, Created, Edited, Applied, ActiveChild, StartedReading;
    hide Roster, MathStars, LedgerStars, NominalDay, DayExact, Inserted, Candidates;
    match op {
      case StartMath(row, allowed) => StartExact(db, row, allowed, participant, day);
      case FinishMath(owner, id) => FinishExact(db, owner, id, participant, day);
      case StartReading(owner, id, level, allowed, now) =>
        StartsKeep(db, owner, id, level, allowed, now);
        SameExact(db, Next(db, op), participant, day);
      case CompleteReading(owner, id, level, hosted, today) =>
        ReadingExact(db, owner, id, level, hosted, today, participant, day);
      case CreateEntry(actor, kind, draft, today, newId, now) =>
        SavedExact(db, Created(actor, kind, draft, db.people, today).1, newId, now, participant, day);
      case EditEntry(actor, entry, version, draft, today, now) =>
        var at := FindEntry(db.entries, entry);
        if at.Some? {
          SavedExact(db, Edited(db.entries[at.value], actor, version, draft, db.people, today).1, entry, now, participant, day);
        }
      case ActOnEntry(actor, entry, command, today, now) =>
        var at := FindEntry(db.entries, entry);
        if at.Some? {
          SavedExact(db, Applied(db.entries[at.value], actor, command, today, now).1, entry, now, participant, day);
        }
      case Join(person) => SameExact(db, Next(db, op), participant, day);
      case Leave(at) => SameExact(db, Next(db, op), participant, day);
      case SaveProfile(_, _, _) => SameExact(db, Next(db, op), participant, day);
    }
  }

  lemma {:induction false} StartsKeep(db: Db, owner: int, id: string, level: ReadingLevel, allowed: bool, now: int)
    ensures var after := StartedReading(db, owner, id, level, allowed, now).1;
            after.sessions == db.sessions && after.rewards == db.rewards
  {
  }

  lemma {:induction false} SameExact(db: Db, after: Db, participant: int, day: Day)
    requires after.sessions == db.sessions && after.rewards == db.rewards && DayExact(db, participant, day)
    ensures DayExact(after, participant, day)
  {
  }

  lemma {:induction false} StartExact(db: Db, row: SessionRow, allowed: bool, participant: int, day: Day)
    requires Drawn(row) && AllCurrent(db.sessions) && DayExact(db, participant, day)
    ensures var after := StartedMath(db, row, allowed).db;
            AllCurrent(after.sessions) && DayExact(after, participant, day)
  {
    hide SessionValid, MathStars, LedgerStars, NominalDay, ActiveChild, SessionStars, Uncut;
    AppendedSum(db.sessions, row, AllScales, participant, day);
    NominalAppended(db.sessions, row, participant, day);
    NoAnswersNoStars(row, participant, day);
  }

  lemma {:induction false} FinishExact(db: Db, owner: int, id: string, participant: int, day: Day)
    requires AllCurrent(db.sessions) && DayExact(db, participant, day)
    ensures var after := FinishedMath(db, owner, id).1;
            AllCurrent(after.sessions) && DayExact(after, participant, day)
  {
    hide MathStars, LedgerStars, NominalDay;
    var at := FindSession(db.sessions, id, owner);
    if at.Some? {
      var s := db.sessions[at.value];
      var closed := s.(closed := true);
      ReplacedSum(db.sessions, at.value, closed, AllScales, participant, day);
      NominalReplaced(db.sessions, at.value, closed, participant, day);
      assert Uncut(closed).answers == Uncut(s).answers;
    }
  }

  lemma {:induction false} ReadingExact(db: Db, owner: int, id: string, level: ReadingLevel, hosted: bool,
      today: Day, participant: int, day: Day)
    requires AllCurrent(db.sessions) && DayExact(db, participant, day)
    ensures var after := CompletedReading(db, owner, id, level, hosted, today).db;
            AllCurrent(after.sessions) && DayExact(after, participant, day)
  {
    hide MathStars, LedgerStars, NominalDay, Inserted, ActiveChild, HexId, StartedAs;
    var r := ReadingReward(owner, id, level, LedgerStars(db.rewards, ReadingSource, owner, today), today);
    InsertedOther(db.people, db.rewards, r, MathSource, participant, day);
  }

  /**
   When all sessions use the current scale and a day starts without math stars, then after any run, in
   any order, the day's math total in the ledger is the smaller of 40 and the nominal stars of the
   day's correct answers.
   */
  lemma {:induction false} DayTotal(states: seq<Db>, ops: seq<Op>, i: nat, participant: int, day: Day)
    requires Trace(states, ops) && Healthy(states[0]) && i < |states|
    requires AllCurrent(states[0].sessions) && DayExact(states[0], participant, day)
    ensures AllCurrent(states[i].sessions) && DayExact(states[i], participant, day)
    ensures var total := LedgerStars(states[i].rewards, MathSource, participant, day);
            var nominal := NominalDay(states[i].sessions, participant, day);
            total == if nominal < 40 then nominal else 40
  {
    hide Healthy, Possible, Next, Sound, AllCurrent, LedgerStars, MathStars, NominalDay;
    if i > 0 {
      BackupClosure(states, ops, i - 1);
      DayTotal(states, ops, i - 1, participant, day);
      var op := ops[i - 1];
      if op.AnswerMath? {
        NextIsAnswer(states[i - 1], op);
        AnswerExact(states[i - 1], op.owner, op.id, op.index, op.values, op.today, participant, day);
      } else {
        OthersExact(states[i - 1], op, participant, day);
      }
    }
    NominalNotNegative(states[i].sessions, participant, day);
  }

  lemma {:induction false} NextIsAnswer(db: Db, op: Op)
    requires Sound(db) && Possible(db, op) && op.AnswerMath?
    ensures Next(db, op) == AnsweredMath(db, op.owner, op.id, op.index, op.values, op.today).1 && ValidDay(op.today)
  {
  }

  /** A day without math rows and answers starts exact. */
  lemma {:induction false} EmptyDayExact(db: Db, participant: int, day: Day)
    requires forall i :: 0 <= i < |db.rewards| ==>
               !(db.rewards[i].source.MathSource? && db.rewards[i].participant == participant && db.rewards[i].day == day)
    requires forall i, j :: 0 <= i < |db.sessions| && 0 <= j < |db.sessions[i].answers| ==>
               !(db.sessions[i].participant == participant && db.sessions[i].answers[j].day == day)
    ensures DayExact(db, participant, day)
  {
    NoRows(db.rewards, participant, day);
    NoAnswers(db.sessions, participant, day);
    var full := AllUncut(db.sessions);
    forall i, j | 0 <= i < |full| && 0 <= j < |full[i].answers|
      ensures !(full[i].participant == participant && full[i].answers[j].day == day)
    {
      assert full[i].answers[j].day == db.sessions[i].answers[j].day;
    }
    NoAnswers(full, participant, day);
  }

  lemma {:induction false} NoRows(rs: seq<Reward>, participant: int, day: Day)
    requires forall i :: 0 <= i < |rs| ==> !(rs[i].source.MathSource? && rs[i].participant == participant && rs[i].day == day)
    ensures LedgerStars(rs, MathSource, participant, day) == 0
  {
    if rs != [] {
      NoRows(rs[..|rs| - 1], participant, day);
    }
  }

  lemma {:induction false} NoAnswers(sessions: seq<SessionRow>, participant: int, day: Day)
    requires forall i, j :: 0 <= i < |sessions| && 0 <= j < |sessions[i].answers| ==>
               !(sessions[i].participant == participant && sessions[i].answers[j].day == day)
    ensures MathStars(sessions, AllScales, participant, day) == 0
  {
    if sessions != [] {
      var s := sessions[|sessions| - 1];
      NoAnswers(sessions[..|sessions| - 1], participant, day);
      if s.participant == participant {
        NoDay(s.answers, day);
      }
    }
  }

  lemma {:induction false} NoDay(answers: seq<AnswerRow>, day: Day)
    requires forall j :: 0 <= j < |answers| ==> answers[j].day != day
    ensures AnswerStars(answers, day) == 0
  {
    if answers != [] {
      NoDay(answers[..|answers| - 1], day);
    }
  }

  // ---------------------------------------------------------------- once only

  lemma {:induction false} AllInsertedGrows(people: seq<Person>, rs: seq<Reward>, more: seq<Reward>)
    ensures rs <= AllInserted(people, rs, more)
  {
    hide Roster;
    if more != [] {
      AllInsertedGrows(people, rs, more[..|more| - 1]);
    }
  }

  lemma {:induction false} SavedGrows(db: Db, e: Entry, newId: int, now: int)
    ensures var after := SavedEntry(db, e, newId, now).db;
            after.sessions == db.sessions && db.rewards <= after.rewards
  {
    hide Candidates, AllInserted;
    var after := SavedEntry(db, e, newId, now).db;
    if after != db {
      var before := if e.id == 0 then NOTHING else db.entries[FindEntry(db.entries, e.id).value];
      AllInsertedGrows(db.people, db.rewards, Candidates(before, SavedEntry(db, e, newId, now).value));
    }
  }

  lemma {:induction false} MathGrows(db: Db, op: Op)
    requires Sound(db) && Possible(db, op) && (op.StartMath? || op.AnswerMath? || op.FinishMath? || op.CompleteReading?)
    ensures SessionsGrow(db.sessions, Next(db, op).sessions) && db.rewards <= Next(db, op).rewards
  {
    hide SessionValid, ActiveChild, Roster, Expected, Judge, HexId, StartedAs, LedgerStars, Workable, WellFormed;
  }

  lemma {:induction false} StepGrows(db: Db, op: Op)
    requires Sound(db) && Possible(db, op)
    ensures SessionsGrow(db.sessions, Next(db, op).sessions) && db.rewards <= Next(db, op).rewards
  {
    hide SavedEntry, Created, Edited, Applied, StartedMath, AnsweredMath, FinishedMath, CompletedReading,
         StartedReading, SignedIn, Sound, Drawn;
    match op {
      case StartReading(owner, id, level, allowed, now) => StartsKeep(db, owner, id, level, allowed, now);
      case CreateEntry(actor, kind, draft, today, newId, now) =>
        SavedGrows(db, Created(actor, kind, draft, db.people, today).1, newId, now);
      case EditEntry(actor, entry, version, draft, today, now) =>
        var at := FindEntry(db.entries, entry);
        if at.Some? {
          SavedGrows(db, Edited(db.entries[at.value], actor, version, draft, db.people, today).1, entry, now);
        }
      case ActOnEntry(actor, entry, command, today, now) =>
        var at := FindEntry(db.entries, entry);
        if at.Some? {
          SavedGrows(db, Applied(db.entries[at.value], actor, command, today, now).1, entry, now);
        }
      case Join(_) =>
      case Leave(_) =>
      case SaveProfile(_, _, _) =>
      case _ => MathGrows(db, op);
    }
  }

  lemma {:induction false} GrowsOn(a: seq<SessionRow>, b: seq<SessionRow>, c: seq<SessionRow>)
    requires SessionsGrow(a, b) && SessionsGrow(b, c)
    ensures SessionsGrow(a, c)
  {
  }

  /** Along a run, answers and ledger rows are only ever added. */
  lemma {:induction false} RunGrows(states: seq<Db>, ops: seq<Op>, i: nat, j: nat)
    requires Trace(states, ops) && Healthy(states[0]) && i <= j < |states|
    ensures SessionsGrow(states[i].sessions, states[j].sessions) && states[i].rewards <= states[j].rewards
    decreases j
  {
    hide Healthy, Possible, Next, Sound, SessionsGrow;
    if i < j {
      RunGrows(states, ops, i, j - 1);
      BackupClosure(states, ops, j - 1);
      StepGrows(states[j - 1], ops[j - 1]);
      GrowsOn(states[i].sessions, states[j - 1].sessions, states[j].sessions);
    } else {
      GrowsItself(states[i].sessions);
    }
  }

  lemma {:induction false} OnlySession(db: Db, k: nat)
    requires Healthy(db) && k < |db.sessions|
    ensures FindSession(db.sessions, db.sessions[k].id, db.sessions[k].participant) == Some(k)
  {
    hide Healthy, Learns;
    Unfold(db);
    assert SessionsDistinct(db.sessions);
  }

  /** An answer once recorded is never changed: sending it again, at any later time, leaves sessions and ledger alone. */
  lemma {:induction false} AnsweredForGood(states: seq<Db>, ops: seq<Op>, i: nat, j: nat, k: nat, index: nat,
      values: map<Key, int>, today: Day)
    requires Trace(states, ops) && Healthy(states[0]) && i <= j < |states|
    requires k < |states[i].sessions| && index < |states[i].sessions[k].answers|
    ensures Sound(states[j]) && k < |states[j].sessions| && index < |states[j].sessions[k].answers|
    ensures states[j].sessions[k].answers[index] == states[i].sessions[k].answers[index]
    ensures var s := states[i].sessions[k];
            AnsweredMath(states[j], s.participant, s.id, index, values, today).1 == states[j]
  {
    hide Healthy, Trace, ActiveChild, Expected, FindSession;
    BackupClosure(states, ops, j);
    RunGrows(states, ops, i, j);
    OnlySession(states[j], k);
    AnswerCount(states[j], k);
  }

  lemma {:induction false} AnswerCount(db: Db, k: nat)
    requires Healthy(db) && k < |db.sessions|
    ensures |db.sessions[k].answers| <= |db.sessions[k].questions|
  {
    hide Healthy, QuestionValid, Runnable, HexId;
    StoredValid(db, k);
  }

  lemma {:induction false} OnlyReward(db: Db, k: nat)
    requires Healthy(db) && k < |db.rewards|
    ensures FindReward(db.rewards, KeyOf(db.rewards[k])) == Some(k)
  {
    hide Healthy, Learns, RewardValid;
    Unfold(db);
    assert DistinctRewards(db.rewards);
    assert KeyOf(db.rewards[k]) in Keys(db.rewards);
  }

  /** A lesson once paid is paid for good: completing it again, on any later day, pays nothing and returns the same row. */
  lemma {:induction false} LessonPaidOnce(states: seq<Db>, ops: seq<Op>, i: nat, j: nat, k: nat,
      level: ReadingLevel, hosted: bool, today: Day)
    requires Trace(states, ops) && Healthy(states[0]) && i <= j < |states|
    requires k < |states[i].rewards| && states[i].rewards[k].source.ReadingSource? && states[i].rewards[k].key.LessonOf?
    ensures var paid := states[i].rewards[k];
            var again := CompletedReading(states[j], paid.participant, paid.key.lesson, level, hosted, today);
            && again.db == states[j]
            && (again.error == Accepted ==> again.value == paid)
            && (CompletionValid(paid.key.lesson, level) && ActiveChild(states[j].people, paid.participant) ==>
                  again.error == if paid.title == ReadingTitle(level) then Accepted else Conflict)
  {
    hide Healthy, Trace, ActiveChild, FindReward, HexId, StartedAs;
    BackupClosure(states, ops, j);
    RunGrows(states, ops, i, j);
    assert states[j].rewards[k] == states[i].rewards[k];
    OnlyReward(states[j], k);
  }

  // ---------------------------------------------------------------- lessons under way

  ghost predicate StartsLimited(starts: seq<ReadingStart>) {
    forall owner :: StartCount(starts, owner) <= READING_STARTS
  }

  lemma {:induction false} FewerSince(starts: seq<ReadingStart>, owner: int, since: int, other: int)
    ensures StartCount(StartsSince(starts, owner, since), other) <= StartCount(starts, other)
  {
    if starts != [] {
      var rest, last := starts[..|starts| - 1], starts[|starts| - 1];
      FewerSince(rest, owner, since, other);
      CountAppended(StartsSince(rest, owner, since), last, other);
      CountAppended(rest, last, other);
      assert StartsSince(rest, owner, since) + [] == StartsSince(rest, owner, since);
    }
  }

  lemma {:induction false} FewerWithout(starts: seq<ReadingStart>, id: string, owner: int, other: int)
    ensures StartCount(StartsWithout(starts, id, owner), other) <= StartCount(starts, other)
  {
    if starts != [] {
      var rest, last := starts[..|starts| - 1], starts[|starts| - 1];
      FewerWithout(rest, id, owner, other);
      CountAppended(StartsWithout(rest, id, owner), last, other);
      CountAppended(rest, last, other);
      assert StartsWithout(rest, id, owner) + [] == StartsWithout(rest, id, owner);
    }
  }

  lemma {:induction false} CountAppended(starts: seq<ReadingStart>, s: ReadingStart, owner: int)
    ensures StartCount(starts + [s], owner) == StartCount(starts, owner) + if s.participant == owner then 1 else 0
  {
    assert (starts + [s])[..|starts|] == starts;
  }

  lemma {:induction false} StartedLimited(db: Db, owner: int, id: string, level: ReadingLevel, allowed: bool, now: int)
    requires StartsLimited(db.starts)
    ensures StartsLimited(StartedReading(db, owner, id, level, allowed, now).1.starts)
  {
    hide StartCount, StartsSince, CompletionValid, ActiveChild;
    var after := StartedReading(db, owner, id, level, allowed, now).1;
    if after != db {
      var recent := StartsSince(db.starts, owner, now - HOURS_24);
      forall other ensures StartCount(after.starts, other) <= READING_STARTS {
        assert StartCount(db.starts, other) <= READING_STARTS;
        FewerSince(db.starts, owner, now - HOURS_24, other);
        CountAppended(recent, ReadingStart(id, owner, level, now), other);
      }
    }
  }

  lemma {:induction false} CompletedLimited(db: Db, owner: int, id: string, level: ReadingLevel, hosted: bool,
        today: Day)
    requires StartsLimited(db.starts)
    ensures StartsLimited(CompletedReading(db, owner, id, level, hosted, today).db.starts)
  {
    hide StartCount, StartsWithout, CompletionValid, ActiveChild, Inserted, ReadingReward, StartedAs, LedgerStars;
    var after := CompletedReading(db, owner, id, level, hosted, today).db;
    if after != db {
      forall other ensures StartCount(after.starts, other) <= READING_STARTS {
        assert StartCount(db.starts, other) <= READING_STARTS;
        FewerWithout(db.starts, id, owner, other);
      }
    }
  }

  lemma {:induction false} OtherStarts(db: Db, op: Op)
    requires Sound(db) && Possible(db, op) && !op.StartReading? && !op.CompleteReading?
    ensures Next(db, op).starts == db.starts
  {
    hide ActiveChild, AfterSubmit, FindSession, Candidates, AllInserted, Inserted, Created, Edited, Applied,
         SignedIn, Sound, Drawn;
  }

  /** However lessons are started and completed, no child ever has more than twenty under way. */
  lemma {:induction false} LessonsUnderWay(states: seq<Db>, ops: seq<Op>, i: nat, owner: int)
    requires Trace(states, ops) && Healthy(states[0]) && StartsLimited(states[0].starts) && i < |states|
    ensures StartsLimited(states[i].starts) && StartCount(states[i].starts, owner) <= 20
  {
    hide Healthy, Possible, Sound, StartsLimited, StartedReading, CompletedReading, StartCount;
    if i > 0 {
      LessonsUnderWay(states, ops, i - 1, owner);
      BackupClosure(states, ops, i - 1);
      var db, op := states[i - 1], ops[i - 1];
      match op {
        case StartReading(who, id, level, allowed, now) => StartedLimited(db, who, id, level, allowed, now);
        case CompleteReading(who, id, level, hosted, today) => CompletedLimited(db, who, id, level, hosted, today);
        case _ => OtherStarts(db, op);
      }
    }
    Limited(states[i].starts, owner);
  }

  lemma {:induction false} Limited(starts: seq<ReadingStart>, owner: int)
    requires StartsLimited(starts)
    ensures StartCount(starts, owner) <= READING_STARTS
  {
  }

  /** In a hosted family a lesson is newly paid only to the child who started it, at the level it was started with. */
  lemma {:induction false} PaidLessonWasStarted(db: Db, owner: int, id: string, level: ReadingLevel, today: Day)
    ensures var done := CompletedReading(db, owner, id, level, true, today);
            done.db.rewards != db.rewards ==>
              && done.error == Accepted && StartedAs(db.starts, id, owner, level) && !StartedAs(done.db.starts, id, owner, level)
              && done.db.rewards == db.rewards + [done.value]
  {
    hide CompletionValid, ActiveChild, Roster, LedgerStars;
    StartGone(db.starts, id, owner, level);
  }

  lemma {:induction false} StartGone(starts: seq<ReadingStart>, id: string, owner: int, level: ReadingLevel)
    ensures !StartedAs(StartsWithout(starts, id, owner), id, owner, level)
  {
    if starts != [] {
      StartGone(starts[..|starts| - 1], id, owner, level);
      var before := StartsWithout(starts[..|starts| - 1], id, owner);
      forall i | 0 <= i < |before| ensures !(before[i].id == id && before[i].participant == owner && before[i].level == level) {
      }
    }
  }

  /** A start that a run of requests made: an allowed one, by that child at that level. */
  ghost predicate StartedBy(ops: seq<Op>, j: nat, s: ReadingStart) {
    exists k :: 0 <= k < j && k < |ops| && ops[k] == StartReading(s.participant, s.id, s.level, true, s.created)
  }

  lemma {:induction false} SinceOf(starts: seq<ReadingStart>, owner: int, since: int, s: ReadingStart)
    requires s in StartsSince(starts, owner, since)
    ensures s in starts
  {
    var rest := starts[..|starts| - 1];
    if s in StartsSince(rest, owner, since) {
      SinceOf(rest, owner, since, s);
    }
  }

  lemma {:induction false} WithoutOf(starts: seq<ReadingStart>, id: string, owner: int, s: ReadingStart)
    requires s in StartsWithout(starts, id, owner)
    ensures s in starts
  {
    var rest := starts[..|starts| - 1];
    if s in StartsWithout(rest, id, owner) {
      WithoutOf(rest, id, owner, s);
    }
  }

  lemma {:induction false} StartIsNew(db: Db, op: Op, s: ReadingStart)
    requires Sound(db) && Possible(db, op) && s in Next(db, op).starts && s !in db.starts
    ensures op == StartReading(s.participant, s.id, s.level, true, s.created)
  {
    hide CompletionValid, ActiveChild, StartCount, Inserted, StartedAs, LedgerStars, Sound;
    match op {
      case StartReading(owner, id, level, allowed, now) =>
        var recent := StartsSince(db.starts, owner, now - HOURS_24);
        if s in recent {
          SinceOf(db.starts, owner, now - HOURS_24, s);
          assert false;
        }
      case CompleteReading(owner, id, level, hosted, today) =>
        WithoutOf(db.starts, id, owner, s);
        assert false;
      case _ =>
        OtherStarts(db, op);
        assert false;
    }
  }

  lemma {:induction false} StartsExplained(states: seq<Db>, ops: seq<Op>, j: nat, s: ReadingStart)
    requires Trace(states, ops) && Healthy(states[0]) && j < |states| && s in states[j].starts
    ensures s in states[0].starts || StartedBy(ops, j, s)
  {
    hide Healthy, Possible, Next, Sound;
    if j > 0 {
      BackupClosure(states, ops, j - 1);
      if s in states[j - 1].starts {
        StartsExplained(states, ops, j - 1, s);
      } else {
        StartIsNew(states[j - 1], ops[j - 1], s);
      }
    }
  }

  /**
   Over any run of a hosted family, a lesson newly paid was begun by an earlier request of the same child at
   the same level that was allowed then, unless it was under way when the run began.
   */
  lemma {:induction false} PaidLessonHasStart(states: seq<Db>, ops: seq<Op>, j: nat, owner: int, id: string,
      level: ReadingLevel, today: Day)
    requires Trace(states, ops) && Healthy(states[0]) && j < |ops|
    requires ops[j] == CompleteReading(owner, id, level, true, today) && states[j + 1].rewards != states[j].rewards
    ensures StartedAs(states[0].starts, id, owner, level)
         || exists k, now :: 0 <= k < j && ops[k] == StartReading(owner, id, level, true, now)
  {
    hide Healthy, Sound, CompletedReading, StartedBy;
    BackupClosure(states, ops, j);
    PaidLessonWasStarted(states[j], owner, id, level, today);
    var i :| 0 <= i < |states[j].starts| && states[j].starts[i].id == id
             && states[j].starts[i].participant == owner && states[j].starts[i].level == level;
    var s := states[j].starts[i];
    StartsExplained(states, ops, j, s);
    if s in states[0].starts {
      var k :| 0 <= k < |states[0].starts| && states[0].starts[k] == s;
    } else {
      StartOf(ops, j, s);
    }
  }

  lemma {:induction false} StartOf(ops: seq<Op>, j: nat, s: ReadingStart)
    requires StartedBy(ops, j, s) && j <= |ops|
    ensures exists k, now :: 0 <= k < j && ops[k] == StartReading(s.participant, s.id, s.level, true, now)
  {
    var k :| 0 <= k < j && ops[k] == StartReading(s.participant, s.id, s.level, true, s.created);
  }
}
