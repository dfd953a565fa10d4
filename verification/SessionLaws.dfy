/**
 Trainings and lessons as the family is told about them: what an answer and a lesson pay, when a submission
 counts, and that a finished training is finished.
 */
module SessionLaws {
  import opened Days
  import opened MathTypes
  import opened MathWork
  import opened MathSession
  import opened Rewards
  import opened Family
  import opened Store
  import opened Backup
  import opened BackupTheorems
  import opened BackupRuns
  import opened BudgetTheorems
  import BackupLaws

  // ---------------------------------------------------------------- the published tables

  /** The stars of a right answer as published, by level, kind of operation and way of answering. */
  function Published(s: Settings): nat {
    var harder := s.operation == Multiply || s.operation == Divide;
    var chosen := s.answerMode == Choice;
    match s.level
    case Easy => if chosen then 2 else if harder then 3 else 2
    case Medium => if chosen then (if harder then 3 else 2) else if harder then 4 else 3
    case Hard => if chosen then (if harder then 4 else 3) else if harder then 5 else 4
    case _ =>
      if s.operation == Multiply then 5
      else if s.operation == Divide then
        (match s.divisionMode case Full => 6 case Steps => 5 case _ => 4)
      else 4
  }

  /** New trainings pay as published, the previous scale one star less, the first one by level alone. */
  lemma {:induction false} PaysAsPublished(s: Settings)
    requires s.Valid()
    ensures NominalStars(s, 3) == Published(s) && 2 <= Published(s) <= 6
    ensures NominalStars(s, 2) == Published(s) - 1
    ensures NominalStars(s, 0) == match s.level case Easy => 1 case Medium => 2 case _ => 3
  {
  }

  // ---------------------------------------------------------------- stored trainings

  /** A question that the server may have put: in range, without remainder, and not below zero unless allowed. */
  predicate MayAsk(q: Question, s: Settings) {
    && 0 <= q.left <= 2000 && 0 <= q.right <= 1000
    && (s.operation == Divide ==> q.right > 0 && q.left % q.right == 0)
    && (s.operation == Minus && (s.level == Columnar || !s.allowNegative) ==> q.right <= q.left)
    && (s.answerMode != Choice ==> q.options == [])
    && (s.answerMode == Choice ==>
          && |q.options| == 4 && (forall i, j :: 0 <= i < j < 4 ==> q.options[i] != q.options[j])
          && match s.operation
             case Plus => q.left + q.right in q.options
             case Minus => q.left - q.right in q.options
             case Multiply => q.left * q.right in q.options
             case _ => q.right > 0 && q.left / q.right in q.options)
  }

  lemma {:induction false} MayAskIff(q: Question, s: Settings)
    requires s.Valid()
    ensures QuestionValid(q, s) <==> MayAsk(q, s)
  {
  }

  /** The sixteen digits of an id. */
  predicate LowerHex(c: char) {
    c in "0123456789abcdef"
  }

  lemma {:induction false} HexIdIff(id: string)
    ensures HexId(id) <==> |id| == 32 && forall i :: 0 <= i < 32 ==> LowerHex(id[i])
  {
    forall c: char ensures LowerHex(c) <==> '0' <= c <= '9' || 'a' <= c <= 'f' {
      HexDigit(c);
    }
  }

  lemma {:induction false} HexDigit(c: char)
    ensures LowerHex(c) <==> '0' <= c <= '9' || 'a' <= c <= 'f'
  {
    var digits := "0123456789abcdef";
    forall n | 0 <= n < 10 ensures digits[n] == '0' + n as char {
      assert digits[..10] == "0123456789";
    }
    if '0' <= c <= '9' {
      assert digits[c as int - '0' as int] == c;
    }
    if 'a' <= c <= 'f' {
      assert digits[10 + (c as int - 'a' as int)] == c;
    }
  }

  /** Every number asked for is given, none other, and none beyond a million. */
  predicate Complete(row: SessionRow, index: nat, values: map<Key, int>)
    requires Runnable(row) && index < |row.questions|
  {
    && values.Keys == Expected(row.questions[index], row.settings).Keys
    && forall k :: k in values ==> -1000000 <= values[k] <= 1000000
  }

  /** The answer to question i, with all numbers, judged rightly and paid at most its stars. */
  predicate RightlyStored(row: SessionRow, i: nat)
    requires Runnable(row) && i < |row.answers| <= |row.questions|
  {
    var a := row.answers[i];
    && a.index == i && 0 <= a.day <= LAST_DAY && Complete(row, i, a.values)
    && (a.correct <==> a.values == Expected(row.questions[i], row.settings))
    && 0 <= a.stars <= (if a.correct then NominalStars(row.settings, row.rewardVersion) else 0)
    && (row.rewardVersion == 0 && a.correct ==> a.stars == NominalStars(row.settings, 0))
  }

  lemma {:induction false} RightlyStoredIff(row: SessionRow, i: nat)
    requires Runnable(row) && i < |row.answers| <= |row.questions|
    ensures AnswerValid(row, i) <==> RightlyStored(row, i)
  {
    hide Expected, NominalStars;
  }

  lemma {:induction false} HeaderIff(row: SessionRow)
    ensures HeaderValid(row) <==>
              && row.rewardVersion in {0, 2, 3} && |row.id| == 32 && (forall i :: 0 <= i < 32 ==> LowerHex(row.id[i]))
              && row.participant > 0 && row.created != 0
              && row.settings.operation != OtherOperation && row.settings.level != Level.OtherLevel
              && row.settings.answerMode != OtherAnswerMode && row.settings.divisionMode != OtherDivisionMode
              && (row.settings.level == Columnar ==> row.settings.answerMode == Input)
              && |row.questions| == (match row.settings.level case Medium => 12 case Hard => 15 case _ => 8)
              && |row.answers| <= |row.questions|
              && forall i :: 0 <= i < |row.questions| ==> MayAsk(row.questions[i], row.settings)
  {
    HexIdIff(row.id);
    if row.settings.Valid() {
      forall q: Question ensures QuestionValid(q, row.settings) <==> MayAsk(q, row.settings) {
        MayAskIff(q, row.settings);
      }
    }
    hide QuestionValid, MayAsk, HexId, LowerHex;
  }

  /**
   The trainings that a replay accepts: a known scale and id, known settings, eight, twelve or fifteen questions
   that may be asked, and answers to the first of them, on the first scale paid exactly their stars.
   */
  lemma {:induction false} ReplayedIff(row: SessionRow)
    ensures SessionValid(row) <==>
              && row.rewardVersion in {0, 2, 3} && |row.id| == 32 && (forall i :: 0 <= i < 32 ==> LowerHex(row.id[i]))
              && row.participant > 0 && row.created != 0
              && row.settings.operation != OtherOperation && row.settings.level != Level.OtherLevel
              && row.settings.answerMode != OtherAnswerMode && row.settings.divisionMode != OtherDivisionMode
              && (row.settings.level == Columnar ==> row.settings.answerMode == Input)
              && |row.questions| == (match row.settings.level case Medium => 12 case Hard => 15 case _ => 8)
              && (forall i :: 0 <= i < |row.questions| ==> MayAsk(row.questions[i], row.settings))
              && |row.answers| <= |row.questions| && Runnable(row)
              && forall i: nat :: i < |row.answers| ==> RightlyStored(row, i)
  {
    HeaderIff(row);
    hide MayAsk, LowerHex, RightlyStored, HeaderValid, AnswerValid, Workable;
    if HeaderValid(row) && Runnable(row) && |row.answers| <= |row.questions| {
      forall i: nat | i < |row.answers| ensures AnswerValid(row, i) <==> RightlyStored(row, i) {
        RightlyStoredIff(row, i);
      }
    }
  }

  // ---------------------------------------------------------------- submissions

  /**
   What becomes of a submission: outside the training it is invalid; an answered question stays answered; a
   finished training and any but the next question conflict; work that is not complete is invalid; anything
   else is judged by the expected values and paid by the session's scale.
   */
  lemma {:induction false} Submitted(row: SessionRow, index: int, values: map<Key, int>, day: Day)
    requires Runnable(row)
    ensures var (error, after) := AfterSubmit(row, index, values, day);
            if !(0 <= index < |row.questions|) then (error, after) == (InvalidInput, row)
            else if index < |row.answers| then (error, after) == (Accepted, row)
            else if row.closed || index > |row.answers| then (error, after) == (Conflict, row)
            else if !Complete(row, index, values) then (error, after) == (InvalidInput, row)
            else
              var right := values == Expected(row.questions[index], row.settings);
              var stars := if right then NominalStars(row.settings, row.rewardVersion) else 0;
              (error, after) == (Accepted, row.(answers := row.answers + [AnswerRow(index, values, right, stars, day)]))
  {
    hide Expected, NominalStars;
  }

  /** The stars that are left of an answer's on a day on which so many were earned already. */
  function Remaining(version: int, stars: int, earned: int): int {
    if version < 2 then stars
    else
      var limit := if version == 2 then 30 else 40;
      if earned >= limit then 0 else if stars <= limit - earned then stars else limit - earned
  }

  /**
   An answer recorded in the tables: it is judged, paid what is left of the day, and has a ledger row of its
   own if and only if it is paid anything.
   */
  lemma {:induction false} AnswerPays(db: Db, owner: int, id: string, index: int, values: map<Key, int>, today: Day, at: nat)
    requires Healthy(db) && Sound(db) && ActiveChild(db.people, owner)
    requires at < |db.sessions| && db.sessions[at].id == id && db.sessions[at].participant == owner
    requires var s := db.sessions[at];
             index == |s.answers| < |s.questions| && !s.closed && Complete(s, index, values)
    ensures var s := db.sessions[at];
            var right := values == Expected(s.questions[index], s.settings);
            var stars := if right
                         then Remaining(s.rewardVersion, NominalStars(s.settings, s.rewardVersion),
                                   BackupLaws.PaidOn(db.rewards, |db.rewards|, MathSource, owner, today))
                         else 0;
            var (error, after) := AnsweredMath(db, owner, id, index, values, today);
            && error == Accepted
            && after.sessions == db.sessions[at := s.(answers := s.answers + [AnswerRow(index, values, right, stars, today)])]
            && (stars == 0 ==> after.rewards == db.rewards)
            && (stars != 0 ==>
                  && |after.rewards| == |db.rewards| + 1 && after.rewards[..|db.rewards|] == db.rewards
                  && after.rewards[|db.rewards|] == Reward(MathSource, AnswerOf(id, index, 0), owner, today, stars, 0,
                                                          "Математика " + Sign(s.settings.operation)))
            && after.people == db.people && after.entries == db.entries && after.starts == db.starts
  {
    hide Expected, NominalStars, HexId, LedgerStars, Sound, Awarded, Healthy;
    BackupLaws.PaidOnIs(db.rewards, |db.rewards|, MathSource, owner, today);
    assert db.rewards[..|db.rewards|] == db.rewards;
    OnlySession(db, owner, id, at);
    NotPaidYet(db, at, index);
    SoundAt(db, at);
    Submitted(db.sessions[at], index, values, today);
    ChildOnRoster(db.people, owner);
    hide ActiveChild, Roster, FindSession, AfterSubmit, WellFormed;
    var s := db.sessions[at];
    assert s.id == id && s.participant == owner;
    var right := values == Expected(s.questions[index], s.settings);
    var nominal := if right then NominalStars(s.settings, s.rewardVersion) else 0;
    var earned := LedgerStars(db.rewards, MathSource, owner, today);
    AwardedIsRemaining(s, nominal, earned);
    var judged := AnswerRow(index, values, right, nominal, today);
    var paid := judged.(stars := Remaining(s.rewardVersion, nominal, earned));
    assert (s.answers + [judged])[index := paid] == s.answers + [paid];
    AwardedRowIs(s.(answers := s.answers + [judged]), s, judged, paid, index, earned);
    hide AwardedRow;
  }

  lemma {:induction false} AwardedIsRemaining(s: SessionRow, stars: nat, earned: int)
    ensures Awarded(s, stars, earned) == Remaining(s.rewardVersion, stars, earned)
    ensures stars == 0 ==> Remaining(s.rewardVersion, stars, earned) == 0
  {
  }

  lemma {:induction false} AwardedRowIs(after: SessionRow, s: SessionRow, judged: AnswerRow, paid: AnswerRow, index: nat,
      earned: int)
    requires after == s.(answers := s.answers + [judged]) && index == |s.answers|
    requires paid == judged.(stars := Awarded(s, judged.stars, earned))
    ensures AwardedRow(after, index, earned) == s.(answers := s.answers + [paid])
  {
  }

  function Sign(op: Operation): string {
    match op case Plus => "+" case Minus => "-" case Multiply => "*" case Divide => ":" case _ => ""
  }

  /** A ledger row names an answer that was given. */
  lemma {:induction false} NotPaidYet(db: Db, at: nat, index: int)
    requires Healthy(db) && at < |db.sessions| && index >= |db.sessions[at].answers|
    ensures RewardKey(MathSource, AnswerOf(db.sessions[at].id, index, 0), db.sessions[at].participant) !in Keys(db.rewards)
  {
    hide BackupValid;
    var b := Export(db);
    assert BackupValid(b);
    hide Healthy;
    BackupLaws.IdsApart(b);
    forall k: nat | k < |db.rewards|
      ensures KeyOf(db.rewards[k]) != RewardKey(MathSource, AnswerOf(db.sessions[at].id, index, 0), db.sessions[at].participant)
    {
      BackupLaws.EveryRow(b, k);
      var r := db.rewards[k];
      if r.source == MathSource {
        var i, j :| 0 <= i < |b.sessions| && 0 <= j < |b.sessions[i].answers| && BackupLaws.RowPays(r, b.sessions[i], j);
        assert r.key.session == db.sessions[at].id ==> i == at;
      }
    }
  }

  lemma {:induction false} SoundAt(db: Db, at: nat)
    requires Sound(db) && at < |db.sessions|
    ensures Runnable(db.sessions[at])
  {
  }

  /** In every state of every run no day pays a participant more than its budgets, all trainings together. */
  lemma {:induction false} DayBudgets(states: seq<Db>, ops: seq<Op>, i: nat, participant: int, day: Day)
    requires Trace(states, ops) && Healthy(states[0]) && i < |states|
    ensures var (sessions, rewards) := (states[i].sessions, states[i].rewards);
            && BackupLaws.DayStars(sessions, |sessions|, {2, 3}, participant, day) <= 40
            && BackupLaws.DayStars(sessions, |sessions|, {2}, participant, day) <= 30
            && BackupLaws.PaidOn(rewards, |rewards|, ReadingSource, participant, day) <= 30
  {
    hide Possible, Next, BackupValid, BackupLaws.DayStars, BackupLaws.PaidOn;
    BackupClosure(states, ops, i);
    BackupLaws.BudgetsKept(Export(states[i]), participant, day);
  }

  // ---------------------------------------------------------------- finishing

  /** Requests other than those about trainings leave the trainings alone. */
  lemma {:induction false} SessionsAlone(db: Db, op: Op)
    requires Sound(db) && Possible(db, op) && !op.StartMath? && !op.AnswerMath? && !op.FinishMath?
    ensures Next(db, op).sessions == db.sessions
  {
    hide SavedEntry, Created, Edited, Applied, StartedReading, SignedIn, Sound, Drawn, ProfileSaved, ActiveChild;
    match op {
      case StartReading(owner, id, level, allowed, now) => StartsKeep(db, owner, id, level, allowed, now);
      case CreateEntry(actor, kind, draft, today, newId, now) =>
        SavedGrows(db, Created(actor, kind, draft, db.people, today).1, newId, now);
      case EditEntry(actor, entry, version, draft, today, now) =>
        var at := FindEntry(db.entries, entry);
        if at.Some? {
          SavedGrows(db, Edited(db.entries[at.value], actor, version, draft, db.people, today).1, entry, now);
        }
      case ActOnEntry(actor, entry, command, today, now) =>
        var at := FindEntry(db.entries, entry);
        if at.Some? {
          SavedGrows(db, Applied(db.entries[at.value], actor, command, today, now).1, entry, now);
        }
      case SaveProfile(child, profile, today) => ProfileOnly(db, child, profile, today);
      case _ =>
    }
  }

  lemma {:induction false} ProfileOnly(db: Db, child: int, profile: Profile, today: Day)
    ensures ProfileSaved(db, child, profile, today).1.sessions == db.sessions
  {
  }

  lemma {:induction false} StepStaysClosed(db: Db, op: Op, k: nat)
    requires Sound(db) && Possible(db, op) && k < |db.sessions|
    ensures k < |Next(db, op).sessions|
    ensures db.sessions[k].closed ==> Next(db, op).sessions[k] == db.sessions[k]
  {
    hide Sound, Drawn, Expected, WellFormed, Awarded, Inserted, ActiveChild, LedgerStars, Workable;
    if op.StartMath? || op.FinishMath? {
    } else if op.AnswerMath? {
      AnswerStaysClosed(db, op.owner, op.id, op.index, op.values, op.today, k);
    } else {
      hide Next, Possible;
      SessionsAlone(db, op);
    }
  }

  lemma {:induction false} AnswerStaysClosed(db: Db, owner: int, id: string, index: int, values: map<Key, int>, today: Day,
      k: nat)
    requires Sound(db) && k < |db.sessions|
    ensures var after := AnsweredMath(db, owner, id, index, values, today).1;
            k < |after.sessions| && (db.sessions[k].closed ==> after.sessions[k] == db.sessions[k])
  {
    hide Expected, Awarded, Inserted, ActiveChild, LedgerStars, Sound;
    var at := FindSession(db.sessions, id, owner);
    if at.Some? {
      SoundAt(db, at.value);
      Submitted(db.sessions[at.value], index, values, today);
    }
  }

  /** A finished training never changes again, in any run. */
  lemma {:induction false} ClosedForGood(states: seq<Db>, ops: seq<Op>, i: nat, j: nat, k: nat)
    requires Trace(states, ops) && Healthy(states[0]) && i <= j < |states|
    requires k < |states[i].sessions| && states[i].sessions[k].closed
    ensures k < |states[j].sessions| && states[j].sessions[k] == states[i].sessions[k]
    decreases j
  {
    hide Healthy, Possible, Next, Sound;
    if i < j {
      ClosedForGood(states, ops, i, j - 1, k);
      BackupClosure(states, ops, j - 1);
      StepStaysClosed(states[j - 1], ops[j - 1], k);
    }
  }

  /**
   Finishing a training of a child's closes that training for good and no other; at any later time it is as it
   was then, and every further answer to it is refused.
   */
  lemma {:induction false} FinishedForGood(states: seq<Db>, ops: seq<Op>, i: nat, j: nat, owner: int, id: string, k: nat)
    requires Trace(states, ops) && Healthy(states[0]) && i < j < |states| && ops[i] == FinishMath(owner, id)
    requires k < |states[i].sessions| && states[i].sessions[k].id == id && states[i].sessions[k].participant == owner
    ensures k < |states[j].sessions| && states[j].sessions[k] == states[i].sessions[k].(closed := true)
    ensures states[i + 1].sessions == states[i].sessions[k := states[i].sessions[k].(closed := true)]
  {
    hide Healthy, Possible, Sound, SessionValid;
    BackupClosure(states, ops, i);
    OnlySession(states[i], owner, id, k);
    assert states[i + 1] == Next(states[i], ops[i]);
    assert states[i + 1].sessions[k].closed;
    ClosedForGood(states, ops, i + 1, j, k);
  }

  lemma {:induction false} OnlySession(db: Db, owner: int, id: string, k: nat)
    requires Healthy(db) && k < |db.sessions| && db.sessions[k].id == id && db.sessions[k].participant == owner
    ensures FindSession(db.sessions, id, owner) == Some(k)
  {
    hide SessionAccepted, LedgerValid, AnswersPaid, MathBudgetKept, ReadingBudgetKept, FamilyValid, PeopleValid, FindSession;
    forall i | 0 <= i < |db.sessions| && i != k ensures db.sessions[i].id != db.sessions[k].id {
      assert i < k ==> db.sessions[i].id != db.sessions[k].id;
    }
  }

  /** With nothing unfinished a child gets the drawn training; otherwise the one that is waiting comes back. */
  lemma {:induction false} StartsAfresh(db: Db, row: SessionRow, allowed: bool)
    requires ActiveChild(db.people, row.participant)
    ensures var out := StartedMath(db, row, allowed);
            if exists i :: 0 <= i < |db.sessions| && db.sessions[i].participant == row.participant
                           && !db.sessions[i].closed && |db.sessions[i].answers| < |db.sessions[i].questions|
            then
              && out.error == Accepted && out.db == db && out.value in db.sessions && out.value.participant == row.participant
              && !out.value.closed && |out.value.answers| < |out.value.questions|
            else if allowed && forall i :: 0 <= i < |db.sessions| ==> db.sessions[i].id != row.id
            then out == Outcome(Accepted, row, db.(sessions := db.sessions + [row]))
            else out.error != Accepted && out.db == db
  {
    hide FindActive, ActiveChild;
    var active := FindActive(db.sessions, row.participant);
    if i :| 0 <= i < |db.sessions| && db.sessions[i].participant == row.participant
            && !db.sessions[i].closed && |db.sessions[i].answers| < |db.sessions[i].questions| {
      assert Active(db.sessions[i]);
    }
    if active.Some? {
      assert Active(db.sessions[active.value]);
    }
  }

  // ---------------------------------------------------------------- lessons

  /** The stars of six cards read, by level. */
  function PublishedLesson(level: ReadingLevel): nat {
    match level case Phrases => 6 case Sentences => 9 case Advanced => 12 case OtherLevel => 0
  }

  /** A lesson paid for the first time: what is left of thirty stars that day, and its start is used up. */
  lemma {:induction false} LessonPays(db: Db, owner: int, id: string, level: ReadingLevel, hosted: bool, today: Day)
    requires HexId(id) && level != ReadingLevel.OtherLevel && ActiveChild(db.people, owner)
    requires RewardKey(ReadingSource, LessonOf(id), owner) !in Keys(db.rewards)
    requires hosted ==> exists i :: 0 <= i < |db.starts| && db.starts[i].id == id && db.starts[i].participant == owner
                                    && db.starts[i].level == level
    ensures var out := CompletedReading(db, owner, id, level, hosted, today);
            var earned := BackupLaws.PaidOn(db.rewards, |db.rewards|, ReadingSource, owner, today);
            var stars := if earned >= 30 then 0
                         else if PublishedLesson(level) <= 30 - earned then PublishedLesson(level) else 30 - earned;
            && out.error == Accepted && out.db.rewards == db.rewards + [out.value]
            && out.value == Reward(ReadingSource, LessonOf(id), owner, today, stars, 0, out.value.title)
            && out.value.title == (match level case Phrases => "Чтение · уровень 1" case Sentences => "Чтение · уровень 2"
                                   case _ => "Чтение · уровень 3")
            && (forall x :: x in out.db.starts <==> x in db.starts && !(x.id == id && x.participant == owner))
            && out.db.sessions == db.sessions && out.db.people == db.people && out.db.entries == db.entries
  {
    BackupLaws.PaidOnIs(db.rewards, |db.rewards|, ReadingSource, owner, today);
    assert db.rewards[..|db.rewards|] == db.rewards;
    hide HexId, LedgerStars, FindReward, BackupLaws.PaidOn;
    StartsLeft(db.starts, id, owner);
    ChildOnRoster(db.people, owner);
    hide ActiveChild, Roster;
  }

  lemma {:induction false} ChildOnRoster(people: seq<Person>, id: int)
    requires ActiveChild(people, id)
    ensures Roster(people, id)
  {
  }

  lemma {:induction false} StartsLeft(starts: seq<ReadingStart>, id: string, owner: int)
    ensures forall x :: x in StartsWithout(starts, id, owner) <==> x in starts && !(x.id == id && x.participant == owner)
  {
    if starts != [] {
      StartsLeft(starts[..|starts| - 1], id, owner);
      assert starts == starts[..|starts| - 1] + [starts[|starts| - 1]];
    }
  }

  /** Starts of a child within the last day. */
  function RecentStarts(starts: seq<ReadingStart>, owner: int, now: int): nat {
    if starts == [] then 0
    else
      var last := starts[|starts| - 1];
      RecentStarts(starts[..|starts| - 1], owner, now)
      + if last.participant == owner && last.created >= now - 24 * 60 * 60 then 1 else 0
  }

  lemma {:induction false} RecentAre(starts: seq<ReadingStart>, owner: int, now: int)
    ensures StartCount(StartsSince(starts, owner, now - HOURS_24), owner) == RecentStarts(starts, owner, now)
    ensures forall x :: x in StartsSince(starts, owner, now - HOURS_24) <==>
              x in starts && !(x.participant == owner && x.created < now - 24 * 60 * 60)
  {
    if starts != [] {
      var rest, last := starts[..|starts| - 1], starts[|starts| - 1];
      RecentAre(rest, owner, now);
      assert starts == rest + [last];
      var kept := StartsSince(rest, owner, now - HOURS_24);
      assert (kept + [last])[..|kept|] == kept && kept + [] == kept;
    }
  }

  /**
   A lesson begun for the first time is taken if and only if the policy allows it and fewer than twenty were
   begun in the last day; what the child began earlier is then forgotten. Beginning it again changes nothing.
   */
  lemma {:induction false} LessonBegun(db: Db, owner: int, id: string, level: ReadingLevel, allowed: bool, now: int)
    requires HexId(id) && level != ReadingLevel.OtherLevel && ActiveChild(db.people, owner)
    ensures var (error, after) := StartedReading(db, owner, id, level, allowed, now);
            if exists i :: 0 <= i < |db.starts| && db.starts[i].id == id then after == db
            else if !allowed then (error, after) == (Forbidden, db)
            else if RecentStarts(db.starts, owner, now) >= 20 then (error, after) == (Conflict, db)
            else
              && error == Accepted && after == db.(starts := after.starts)
              && forall x :: x in after.starts <==>
                   || x == ReadingStart(id, owner, level, now)
                   || (x in db.starts && !(x.participant == owner && x.created < now - 24 * 60 * 60))
  {
    hide HexId, ActiveChild, StartsSince, StartCount, FindStart;
    RecentAre(db.starts, owner, now);
    hide RecentStarts;
  }
}
