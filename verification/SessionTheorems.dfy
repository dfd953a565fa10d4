/** Sessions over their whole life: how they are drawn, and what any sequence of requests keeps. */
module SessionTheorems {
  import opened Decimal
  import opened Days
  import opened MathTypes
  import opened MathWork
  import opened WorkTheorems
  import opened MathSession
  import opened ColumnLayout
  import opened ColumnWork

  // ---------------------------------------------------------------- drawing a session

  /** A random number below n. */
  method Draw(n: nat) returns (v: nat)
    requires n > 0
    ensures v < n
  {
    v :| 0 <= v < n;
  }

  predicate Distinct(options: seq<int>) {
    forall i, j :: 0 <= i < j < |options| ==> options[i] != options[j]
  }

  /** The wrong answers that may be offered. */
  predicate Candidate(v: int, answer: int, allowNegative: bool) {
    exists d :: 0 <= d < 17 && v == Offered(answer, d, allowNegative)
  }

  function Offered(answer: int, d: int, allowNegative: bool): int {
    var v := answer + d - 8;
    if allowNegative || v > 0 then v else 0
  }

  /** With fewer than four options there is always another candidate, so drawing can go on. */
  lemma {:induction false} FreshCandidate(options: seq<int>, answer: int, allowNegative: bool)
    requires |options| < 4 && (allowNegative || answer >= 0)
    ensures exists v :: v !in options && Candidate(v, answer, allowNegative)
  {
    assert answer == Offered(answer, 8, allowNegative) && answer + 1 == Offered(answer, 9, allowNegative);
    assert answer + 2 == Offered(answer, 10, allowNegative) && answer + 3 == Offered(answer, 11, allowNegative);
    assert Candidate(answer, answer, allowNegative) && Candidate(answer + 1, answer, allowNegative);
    assert Candidate(answer + 2, answer, allowNegative) && Candidate(answer + 3, answer, allowNegative);
    if answer in options && answer + 1 in options && answer + 2 in options && answer + 3 in options {
      var a :| 0 <= a < |options| && options[a] == answer;
      var b :| 0 <= b < |options| && options[b] == answer + 1;
      var c :| 0 <= c < |options| && options[c] == answer + 2;
      var d :| 0 <= d < |options| && options[d] == answer + 3;
      assert false;
    }
  }

  lemma {:induction false} OwnCandidate(answer: int, allowNegative: bool)
    requires allowNegative || answer >= 0
    ensures Candidate(answer, answer, allowNegative)
  {
    assert answer == Offered(answer, 8, allowNegative);
  }

  /** Four different options near the answer, the right one among them, in random order. */
  method DrawOptions(answer: int, allowNegative: bool) returns (options: seq<int>)
    requires allowNegative || answer >= 0
    ensures |options| == 4 && answer in options && Distinct(options)
    ensures forall i :: 0 <= i < 4 ==> Near(options[i], answer, allowNegative)
  {
    hide Candidate, Near;
    options := [answer];
    OwnCandidate(answer, allowNegative);
    while |options| < 4
      invariant 1 <= |options| <= 4 && answer in options && Distinct(options)
      invariant forall i :: 0 <= i < |options| ==> Candidate(options[i], answer, allowNegative)
      decreases 4 - |options|
    {
      FreshCandidate(options, answer, allowNegative);
      var v :| v !in options && Candidate(v, answer, allowNegative);
      options := options + [v];
    }
    for n := 0 to 3
      invariant |options| == 4 && answer in options && Distinct(options)
      invariant forall i :: 0 <= i < |options| ==> Candidate(options[i], answer, allowNegative)
    {
      var i := 3 - n;
      var j := Draw(i + 1);
      assert answer in options[i := options[j]][j := options[i]] by {
        var k :| 0 <= k < 4 && options[k] == answer;
        var swapped := options[i := options[j]][j := options[i]];
        assert swapped[if k == i then j else if k == j then i else k] == answer;
      }
      options := options[i := options[j]][j := options[i]];
    }
    forall i | 0 <= i < 4 ensures Near(options[i], answer, allowNegative) {
      CandidateNear(options[i], answer, allowNegative);
    }
  }

  /** At most eight away from the answer, but never negative unless the training allows it. */
  predicate Near(v: int, answer: int, allowNegative: bool) {
    answer - 8 <= v <= answer + 8 && (allowNegative || v >= 0)
  }

  lemma {:induction false} CandidateNear(v: int, answer: int, allowNegative: bool)
    requires Candidate(v, answer, allowNegative) && (allowNegative || answer >= 0)
    ensures Near(v, answer, allowNegative)
  {
  }

  method DrawFactors(small: nat, columnar: bool) returns (a: nat, b: nat)
    requires small <= 12
    ensures a <= 100 && b <= 100 && a * b <= 10000 && (columnar ==> b > 0)
    ensures if columnar then 12 <= a <= 99 && 2 <= b <= 25 else a <= small && b <= small
  {
    a := Draw(small + 1);
    b := Draw(small + 1);
    if columnar {
      var x := Draw(88);
      var y := Draw(24);
      a, b := 12 + x, 2 + y;
    }
    MulLe(a, 100, b);
  }

  method DrawDivision(max: nat, small: nat, columnar: bool) returns (a: nat, b: nat)
    requires max <= 100 && 0 < small <= 12
    ensures a <= 2000 && 0 < b <= 12 && a % b == 0
    ensures if columnar then 2 <= b <= 9 && 2 <= a / b <= 99 else 1 <= b <= small && 0 <= a / b <= max
  {
    var x := Draw(small);
    b := 1 + x;
    var result := Draw(max + 1);
    if columnar {
      var y := Draw(8);
      var z := Draw(98);
      b, result := 2 + y, 2 + z;
    }
    Multiple(b, result);
    MulLe(b, 12, result);
    a := b * result;
  }

  /** Operands of the size that the level stands for; worked examples have at least two digits. */
  predicate Suits(q: Question, s: Settings) {
    var a, b := q.left, q.right;
    var max := match s.level case Easy => 10 case Medium => 25 case Hard => 100 case _ => 999;
    var small := if s.level == Easy then 10 else 12;
    match s.operation
    case Multiply =>
      if s.level == Columnar then 12 <= a <= 99 && 2 <= b <= 25 else 0 <= a <= small && 0 <= b <= small
    case Divide =>
      if s.level == Columnar then 2 <= b <= 9 && 2 <= a / b <= 99 else 1 <= b <= small && 0 <= a / b <= max
    case _ => (if s.level == Columnar then 12 else 0) <= a <= max && (if s.level == Columnar then 12 else 0) <= b <= max
  }

  /** The operands of one question, as the level and the operation prescribe. */
  method DrawOperands(s: Settings) returns (a: nat, b: nat)
    requires s.Valid()
    ensures QuestionValid(Question(a, b, []), s.(answerMode := Input))
    ensures s.operation.Multiply? ==> a * b <= 10000 && (s.level.Columnar? ==> b > 0)
    ensures Suits(Question(a, b, []), s)
  {
    var max := 10;
    if s.level.Medium? {
      max := 25;
    }
    if s.level.Hard? {
      max := 100;
    }
    var small := if max < 12 then max else 12;
    a := Draw(max + 1);
    b := Draw(max + 1);
    if s.level.Columnar? {
      var x := Draw(988);
      var y := Draw(988);
      a, b := 12 + x, 12 + y;
    }
    match s.operation {
      case Minus =>
        if (!s.allowNegative || s.level.Columnar?) && a < b {
          a, b := b, a;
        }
      case Multiply =>
        a, b := DrawFactors(small, s.level.Columnar?);
      case Divide =>
        a, b := DrawDivision(max, small, s.level.Columnar?);
      case _ =>
    }
  }

  lemma {:induction false} Multiple(b: nat, r: nat)
    requires b > 0
    ensures b * r % b == 0 && b * r / b == r
  {
    DivModUnique(b * r, b, r, 0);
  }

  lemma {:induction false} AnswerNotNegative(q: Question, s: Settings)
    requires QuestionValid(q, s) && !s.allowNegative
    ensures q.Result(s.operation) >= 0
  {
    if s.operation.Multiply? {
      MulLe(0, q.left, q.right);
    } else if s.operation.Divide? {
      QuotientSign(q.left, q.right);
    }
  }

  /** What every drawn question is: answerable within the limits, and on the page if it is worked there. */
  ghost predicate WellDrawn(q: Question, s: Settings) {
    && QuestionValid(q, s) && Workable(q, s) && WithinLimits(Expected(q, s)) && Suits(q, s)
    && (s.level.Columnar? ==> Solvable(q, s))
    && (s.answerMode.Choice? ==>
          forall i :: 0 <= i < |q.options| ==> Near(q.options[i], q.Result(s.operation), s.allowNegative))
  }

  lemma {:induction false} SameOperands(q: Question, a: int, b: int, s: Settings)
    requires q.left == a && q.right == b && Suits(Question(a, b, []), s)
    ensures Suits(q, s)
  {
  }

  /** A new session is valid and every question in it can be answered, whatever is drawn. */
  method NewMathSession(id: string, participant: int, s: Settings, created: int) returns (row: SessionRow)
    requires HexId(id) && participant > 0 && s.Valid() && created != 0
    ensures SessionValid(row) && row.answers == [] && !row.closed
    ensures row.rewardVersion == 3 && row.id == id && row.participant == participant && row.settings == s
    ensures forall i :: 0 <= i < |row.questions| ==> WellDrawn(row.questions[i], s)
    ensures |row.questions| == match s.level case Medium => 12 case Hard => 15 case _ => 8
  {
    hide Expected, Near, Suits;
    var questions: seq<Question> := [];
    for n := 0 to s.Count()
      invariant |questions| == n && forall i :: 0 <= i < n ==> WellDrawn(questions[i], s)
    {
      var a, b := DrawOperands(s);
      var q := Question(a, b, []);
      if s.answerMode.Choice? {
        if !s.allowNegative {
          AnswerNotNegative(q, s.(answerMode := Input));
        }
        var options := DrawOptions(q.Result(s.operation), s.allowNegative);
        q := q.(options := options);
      }
      Answerable(q, s);
      assert Suits(q, s) by { SameOperands(q, a, b, s); }
      questions := questions + [q];
    }
    row := SessionRow(3, false, id, participant, s, questions, [], created);
    HeaderRunnable(row);
  }

  // ---------------------------------------------------------------- the life of a session

  datatype Request =
    | Answering(index: int, values: map<Key, int>, day: Day, earned: int)
    | Closing

  /** A submission, with the daily budget applied to the answer it adds, or the closing of the session. */
  function Step(row: SessionRow, r: Request): SessionRow
    requires Runnable(row)
  {
    match r
    case Closing => row.(closed := true)
    case Answering(index, values, day, earned) =>
      var after := AfterSubmit(row, index, values, day).1;
      if |after.answers| > |row.answers| then AwardedRow(after, |row.answers|, earned) else after
  }

  ghost predicate DatedRight(r: Request) {
    r.Answering? ==> ValidDay(r.day)
  }

  lemma {:induction false} StepKeeps(row: SessionRow, r: Request)
    requires SessionValid(row) && DatedRight(r)
    ensures SessionValid(Step(row, r))
    ensures row.answers <= Step(row, r).answers
    ensures Step(row, r) == row.(closed := Step(row, r).closed, answers := Step(row, r).answers)
  {
    hide Expected, Workable, QuestionValid;
    var next := Step(row, r);
    forall i: nat | i < |next.answers| ensures AnswerValid(next, i) {
      if i < |row.answers| {
        assert AnswerValid(row, i);
        assert next.answers[i] == row.answers[i];
      }
    }
  }

  function Run(row: SessionRow, rs: seq<Request>): SessionRow
    requires SessionValid(row) && forall i :: 0 <= i < |rs| ==> DatedRight(rs[i])
    ensures SessionValid(Run(row, rs))
    decreases |rs|
  {
    if rs == [] then row
    else
      StepKeeps(row, rs[0]);
      Run(Step(row, rs[0]), rs[1..])
  }

  /**
   Whatever is submitted in whatever order, the session stays valid, its answers only grow, and an
   index answered once is answered for good: sending it again changes nothing.
   */
  lemma {:induction false} SessionLife(row: SessionRow, rs: seq<Request>, index: nat, values: map<Key, int>, day: Day)
    requires SessionValid(row) && forall i :: 0 <= i < |rs| ==> DatedRight(rs[i])
    ensures SessionValid(Run(row, rs))
    ensures row.answers <= Run(row, rs).answers
    ensures Run(row, rs).questions == row.questions && Run(row, rs).settings == row.settings
    ensures index < |row.answers| ==> AfterSubmit(Run(row, rs), index, values, day) == (Accepted, Run(row, rs))
    decreases |rs|
  {
    if rs != [] {
      StepKeeps(row, rs[0]);
      SessionLife(Step(row, rs[0]), rs[1..], index, values, day);
    }
  }

  // ---------------------------------------------------------------- which questions can be answered

  predicate WithinLimits(expected: map<Key, int>) {
    forall k :: k in expected ==> -VALUE_LIMIT <= expected[k] <= VALUE_LIMIT
  }

  /** A valid question can be answered correctly unless its product exceeds the accepted numbers. */
  lemma {:induction false} Answerable(q: Question, s: Settings)
    requires QuestionValid(q, s) && s.Valid()
    ensures Workable(q, s)
    ensures WithinLimits(Expected(q, s)) <==> !(s.operation.Multiply? && q.left * q.right > VALUE_LIMIT)
  {
    hide Fields;
    FieldKeys(q, s);
    forall k | k in Expected(q, s) && k != Answer
      ensures -VALUE_LIMIT <= Expected(q, s)[k] <= VALUE_LIMIT
    {
      ValueSmall(q, s, k);
    }
    AnswerSmall(q, s);
    assert Expected(q, s)[Answer] == q.Result(s.operation);
  }

  /** A valid session that holds a product above the accepted numbers: its right answer is refused. */
  lemma {:induction false} LargeProductRefused(s: Settings, day: Day) returns (row: SessionRow)
    requires s == Settings(Multiply, Columnar, Input, ResultOnly, false)
    ensures SessionValid(row) && row.answers == [] && !row.closed && row.settings == s
    ensures row.questions[0] == Question(2000, 1000, [])
    ensures AfterSubmit(row, 0, Expected(row.questions[0], row.settings), day) == (InvalidInput, row)
  {
    hide Fields, Values, NumDigits, Workable, AfterSubmit;
    var q := Question(2000, 1000, []);
    row := SessionRow(3, false, seq(32, i => 'a'), 1, s, seq(8, i => q), [], 1);
    Answerable(q, s);
    assert HeaderValid(row) && Runnable(row);
    RefusedAboveLimit(row, day);
  }

  lemma {:induction false} RefusedAboveLimit(row: SessionRow, day: Day)
    requires Runnable(row) && row.answers == [] && !row.closed && row.questions != []
    requires Workable(row.questions[0], row.settings) && !WithinLimits(Expected(row.questions[0], row.settings))
    ensures AfterSubmit(row, 0, Expected(row.questions[0], row.settings), day) == (InvalidInput, row)
  {
    hide Fields, Values, Expected, Workable;
  }

  lemma {:induction false} AnswerSmall(q: Question, s: Settings)
    requires QuestionValid(q, s) && s.Valid()
    ensures !s.operation.Multiply? ==> -VALUE_LIMIT <= q.Result(s.operation) <= VALUE_LIMIT
    ensures s.operation.Multiply? ==> 0 <= q.Result(s.operation) == q.left * q.right
  {
    if s.operation.Multiply? {
      MulLe(0, q.left, q.right);
    } else if s.operation.Divide? {
      ProductBelow(q.left, q.right);
      QuotientSmall(q.left, q.right);
    }
  }

  lemma {:induction false} QuotientSmall(p: nat, r: nat)
    requires r > 0
    ensures 0 <= p / r <= p
  {
    QuotientSign(p, r);
    if p / r > 0 {
      MulLe(1, r, p / r);
      assert p == p / r * r + p % r;
    }
  }

  lemma {:induction false} ValueSmall(q: Question, s: Settings, k: Key)
    requires QuestionValid(q, s) && Workable(q, s) && IsWorkKey(q, s, k)
    ensures 0 <= TrueValue(q, s, k) <= VALUE_LIMIT
  {
    var l: nat, r: nat := q.left, q.right;
    match k {
      case Carry(i) =>
        CarryAtMostOne(l, r, i + 1);
        BorrowIsBit(l, r, i + 1);
      case MulCarry(i, j) => MulCarryColumn(l, DigitAt(r, i), j + 1);
      case Partial(i) =>
        MulLe(l, 2000, DigitAt(r, i));
        MulLe(0, l, DigitAt(r, i));
      case Product(i) =>
        StepFits(l, r, i);
        MulLe(0, QuotientDigit(l, r, i), r);
      case Remainder(i) => StepFits(l, r, i);
      case _ =>
    }
  }

  /**
   The page and the judge together: a filled page is accepted as correct exactly when the question
   can be answered on the page, every drawn digit is right, and the numbers are within the limits.
   */
  lemma {:induction false} PageJudged(row: SessionRow, e: Entries, day: Day)
    requires SessionValid(row) && !row.closed && |row.answers| < |row.questions| && row.settings.level.Columnar?
    requires var q := row.questions[|row.answers|];
             Columnable(q, row.settings) && Digits(e) && Filled(q, row.settings, e)
    ensures var q, n := row.questions[|row.answers|], |row.answers|;
            var (error, after) := AfterSubmit(row, n, Sent(q, row.settings, e), day);
            (error == Accepted && after.answers[n].correct)
            <==> Solvable(q, row.settings) && AllRight(q, row.settings, e) && WithinLimits(Expected(q, row.settings))
  {
    hide Expected, Sent, Solvable, AllRight, Filled, QuestionValid;
    var q := row.questions[|row.answers|];
    PageRefinesServer(q, row.settings, e);
  }

  /** A valid session that holds a product with a zero multiplier: whatever is filled in, the server refuses it. */
  lemma {:induction false} ZeroMultiplierRefused(s: Settings, day: Day) returns (row: SessionRow)
    requires s == Settings(Multiply, Columnar, Input, ResultOnly, false)
    ensures SessionValid(row) && row.answers == [] && !row.closed && row.settings == s
    ensures row.questions[0] == Question(12, 0, []) && Columnable(row.questions[0], s)
    ensures forall e: Entries :: AfterSubmit(row, 0, Sent(row.questions[0], s, e), day) == (InvalidInput, row)
  {
    hide Fields, Values, NumDigits, Workable, Sent, Expected;
    var q := Question(12, 0, []);
    row := SessionRow(3, false, seq(32, i => 'a'), 1, s, seq(8, i => q), [], 1);
    Answerable(q, s);
    assert HeaderValid(row) && Runnable(row);
    forall e: Entries ensures AfterSubmit(row, 0, Sent(q, s, e), day) == (InvalidInput, row) {
      ZeroMultiplierUnanswerable(q, s, e);
    }
  }
}
