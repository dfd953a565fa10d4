/**
 A math training session: its questions are drawn at the start, answers are appended one by one
 and never change, and a stored session can be replayed to check that its answers were earned.
 */
module MathSession {
  import opened Days
  import opened MathTypes
  import opened MathWork

  const VALUE_LIMIT := 1000000
  const MATH_DAILY_STARS := 40
  const PREVIOUS_MATH_DAILY_STARS := 30

  datatype AnswerRow = AnswerRow(index: int, values: map<Key, int>, correct: bool, stars: int, day: Day)

  datatype SessionRow = SessionRow(
    rewardVersion: int, closed: bool, id: string, participant: int,
    settings: Settings, questions: seq<Question>, answers: seq<AnswerRow>, created: int)

  predicate HexId(id: string) {
    |id| == 32 && forall i :: 0 <= i < |id| ==> '0' <= id[i] <= '9' || 'a' <= id[i] <= 'f'
  }

  /** The stars of a correct answer under the reward scale the session was started with. */
  function NominalStars(s: Settings, version: int): nat {
    if version == 0 then s.LegacyStars() else if version == 2 then s.PreviousStars() else s.Stars()
  }

  /** Questions the server hands out: operands in range, division without remainder, no forbidden negative. */
  predicate QuestionValid(q: Question, s: Settings) {
    && 0 <= q.left <= 2000 && 0 <= q.right <= 1000
    && (s.operation.Divide? ==> q.right != 0 && q.left % q.right == 0)
    && (s.operation.Minus? && (!s.allowNegative || s.level.Columnar?) ==> q.left >= q.right)
    && (if s.answerMode.Choice?
        then |q.options| == 4 && q.Result(s.operation) in q.options
             && forall i, j :: 0 <= i < j < |q.options| ==> q.options[i] != q.options[j]
        else q.options == [])
  }

  /** Work that answers every field, within the accepted numbers. */
  predicate WellFormed(values: map<Key, int>, expected: map<Key, int>) {
    values.Keys == expected.Keys && forall k :: k in values ==> -VALUE_LIMIT <= values[k] <= VALUE_LIMIT
  }

  predicate Runnable(row: SessionRow) {
    forall i :: 0 <= i < |row.questions| ==> Workable(row.questions[i], row.settings)
  }

  function Judge(row: SessionRow, index: nat, values: map<Key, int>, day: Day): AnswerRow
    requires Runnable(row) && index < |row.questions|
  {
    var correct := values == Expected(row.questions[index], row.settings);
    AnswerRow(index, values, correct, if correct then NominalStars(row.settings, row.rewardVersion) else 0, day)
  }

  /** What one submission does to a session. */
  function AfterSubmit(row: SessionRow, index: int, values: map<Key, int>, day: Day): (Error, SessionRow)
    requires Runnable(row)
  {
    if index < 0 || index >= |row.questions| then (InvalidInput, row)
    else if index < |row.answers| then (Accepted, row)
    else if row.closed || index != |row.answers| then (Conflict, row)
    else if !WellFormed(values, Expected(row.questions[index], row.settings)) then (InvalidInput, row)
    else (Accepted, row.(answers := row.answers + [Judge(row, index, values, day)]))
  }

  /** The stars left of a new answer when `earned` stars of the day are already in the ledger. */
  function Awarded(row: SessionRow, stars: int, earned: int): int {
    if row.rewardVersion < 2 then stars
    else
      var limit := if row.rewardVersion == 2 then PREVIOUS_MATH_DAILY_STARS else MATH_DAILY_STARS;
      var left := if limit - earned > 0 then limit - earned else 0;
      if stars < left then stars else left
  }

  function AwardedRow(row: SessionRow, index: nat, earned: int): SessionRow
    requires index < |row.answers|
  {
    var a := row.answers[index];
    row.(answers := row.answers[index := a.(stars := Awarded(row, a.stars, earned))])
  }

  /** A stored answer that a replay of the session could have produced. */
  predicate AnswerValid(row: SessionRow, i: nat)
    requires Runnable(row) && i < |row.answers| && i < |row.questions|
  {
    var a := row.answers[i];
    var got := Judge(row, i, a.values, a.day);
    && ValidDay(a.day) && a.index == i
    && WellFormed(a.values, Expected(row.questions[i], row.settings))
    && a.correct == got.correct
    && 0 <= a.stars <= got.stars
    && (row.rewardVersion == 0 ==> a.stars == got.stars)
  }

  predicate HeaderValid(row: SessionRow) {
    && (row.rewardVersion == 0 || row.rewardVersion == 2 || row.rewardVersion == 3)
    && HexId(row.id) && row.participant > 0 && row.created != 0
    && row.settings.Valid() && |row.questions| == row.settings.Count()
    && |row.answers| <= |row.questions|
    && forall i :: 0 <= i < |row.questions| ==> QuestionValid(row.questions[i], row.settings)
  }

  lemma {:induction false} HeaderRunnable(row: SessionRow)
    requires HeaderValid(row)
    ensures Runnable(row)
  {
    forall i | 0 <= i < |row.questions| ensures Workable(row.questions[i], row.settings) {
      assert QuestionValid(row.questions[i], row.settings);
    }
  }

  ghost predicate SessionValid(row: SessionRow) {
    && HeaderValid(row)
    && Runnable(row)
    && forall i: nat :: i < |row.answers| ==> AnswerValid(row, i)
  }

  /** A session in the hands of the server while one request works on it. */
  class Session {
    const rewardVersion: int
    const id: string
    const participant: int
    const settings: Settings
    const questions: seq<Question>
    const created: int
    var closed: bool
    var answers: seq<AnswerRow>

    constructor (row: SessionRow)
      ensures Row() == row
    {
      rewardVersion, id, participant, settings := row.rewardVersion, row.id, row.participant, row.settings;
      questions, created, closed, answers := row.questions, row.created, row.closed, row.answers;
    }

    function Row(): SessionRow
      reads this
    {
      SessionRow(rewardVersion, closed, id, participant, settings, questions, answers, created)
    }

    /** Judges work against the expected values; a repeated index changes nothing. */
    method Submit(index: int, values: map<Key, int>, day: Day) returns (e: Error)
      requires Runnable(Row())
      modifies this`answers
      ensures (e, Row()) == AfterSubmit(old(Row()), index, values, day)
    {
      hide Expected, Workable;
      if index < 0 || index >= |questions| {
        return InvalidInput;
      }
      if index < |answers| {
        return Accepted;
      }
      if closed {
        return Conflict;
      }
      if index != |answers| {
        return Conflict;
      }
      var _, expected := Work(questions[index], settings);
      if |values| != |expected| {
        DifferentSizes(values, expected);
        return InvalidInput;
      }
      var correct := true;
      var todo := expected.Keys;
      while todo != {}
        invariant todo <= expected.Keys
        invariant forall k :: k in expected && k !in todo ==>
                    k in values && -VALUE_LIMIT <= values[k] <= VALUE_LIMIT
        invariant correct <==> forall k :: k in expected && k !in todo ==> k in values && values[k] == expected[k]
        decreases |todo|
      {
        var k :| k in todo;
        todo := todo - {k};
        if k !in values || values[k] < -VALUE_LIMIT || values[k] > VALUE_LIMIT {
          return InvalidInput;
        }
        if values[k] != expected[k] {
          correct := false;
        }
      }
      SameSize(values, expected);
      var stars: nat := 0;
      if correct {
        stars := settings.Stars();
        if rewardVersion == 2 {
          stars := settings.PreviousStars();
        }
        if rewardVersion == 0 {
          stars := settings.LegacyStars();
        }
      }
      answers := answers + [AnswerRow(index, values, correct, stars, day)];
      e := Accepted;
    }

    /** Applies the daily budget to a newly recorded answer; tells how many stars go to the ledger. */
    method AwardAnswer(index: nat, earned: int) returns (stars: int)
      requires index < |answers|
      modifies this`answers
      ensures Row() == AwardedRow(old(Row()), index, earned)
      ensures stars == answers[index].stars
    {
      var a := answers[index];
      if rewardVersion >= 2 {
        var limit := MATH_DAILY_STARS;
        if rewardVersion == 2 {
          limit := PREVIOUS_MATH_DAILY_STARS;
        }
        var left := if limit - earned > 0 then limit - earned else 0;
        a := a.(stars := if a.stars < left then a.stars else left);
        answers := answers[index := a];
      }
      stars := a.stars;
    }
  }

  lemma {:induction false} DifferentSizes(values: map<Key, int>, expected: map<Key, int>)
    requires |values| != |expected|
    ensures values.Keys != expected.Keys
  {
    assert |values.Keys| == |values| && |expected.Keys| == |expected|;
  }

  lemma {:induction false} SameSize(values: map<Key, int>, expected: map<Key, int>)
    requires |values| == |expected|
    requires forall k :: k in expected ==> k in values
    ensures values.Keys == expected.Keys
  {
    assert expected.Keys <= values.Keys;
    var extra := values.Keys - expected.Keys;
    assert |values.Keys| == |expected.Keys| + |extra| by {
      assert values.Keys == expected.Keys + extra;
    }
    assert |values.Keys| == |values| && |expected.Keys| == |expected|;
  }

  /** Checks a stored session by answering it again from the start. */
  method Validate(row: SessionRow) returns (ok: bool)
    ensures ok <==> SessionValid(row)
  {
    if !HeaderValid(row) {
      return false;
    }
    hide HeaderValid, Expected, Workable;
    HeaderRunnable(row);
    HeaderCounts(row);
    var check := new Session(row.(closed := false, answers := []));
    ghost var start := row.(closed := false, answers := []);
    for i := 0 to |row.answers|
      invariant check.Row() == start.(answers := check.answers) && |check.answers| == i
      invariant forall j: nat :: j < i ==> AnswerValid(row, j)
    {
      var a := row.answers[i];
      if !ValidDay(a.day) || a.index != i {
        assert !AnswerValid(row, i);
        return false;
      }
      var e := check.Submit(i, a.values, a.day);
      if e != Accepted {
        assert !AnswerValid(row, i);
        return false;
      }
      var got := check.answers[i];
      assert got == Judge(row, i, a.values, a.day);
      if got.correct != a.correct || a.stars < 0 || a.stars > got.stars
         || (row.rewardVersion == 0 && got.stars != a.stars) {
        assert !AnswerValid(row, i);
        return false;
      }
    }
    ok := true;
  }

  lemma {:induction false} HeaderCounts(row: SessionRow)
    requires HeaderValid(row)
    ensures |row.answers| <= |row.questions|
  {
  }
}
