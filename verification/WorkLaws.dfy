/**
 What the expected work of a question must satisfy as school arithmetic, read off the values themselves:
 every column adds up with what it takes in and hands on, rows add up to the product, and each division step
 subtracts from what stands above it.
 */
module WorkLaws {
  import opened Decimal
  import opened MathTypes
  import opened MathWork
  import opened WorkTheorems

  /** The value asked for under a key, or nothing to carry in before the first column. */
  function At(e: map<Key, int>, first: bool, key: Key): int {
    if first || key !in e then 0 else e[key]
  }

  /** Every column of a sum: both digits and the carry coming in make the sum's digit and ten times the carry. */
  lemma {:induction false} SumColumns(q: Question, s: Settings, i: nat)
    requires Workable(q, s) && s.level.Columnar? && s.operation.Plus?
    ensures var e := Expected(q, s);
            && (Carry(i) in e <==> i < Max(NumDigits(q.left), NumDigits(q.right)))
            && Answer in e && e[Answer] == q.left + q.right
            && (Carry(i) in e ==>
                  && 0 <= e[Carry(i)] <= 1
                  && DigitAt(q.left, i) + DigitAt(q.right, i) + At(e, i == 0, Carry(if i == 0 then 0 else i - 1))
                     == DigitAt(q.left + q.right, i) + 10 * e[Carry(i)])
            && DigitAt(q.left + q.right, Max(NumDigits(q.left), NumDigits(q.right)))
               == At(e, false, Carry(Max(NumDigits(q.left), NumDigits(q.right)) - 1))
  {
    hide Fields, CarryOut, DigitAt, NumDigits;
    FieldKeys(q, s);
    CarryColumn(q.left, q.right, i);
    CarryAtMostOne(q.left, q.right, i + 1);
    TopDigit(q.left, q.right);
  }

  lemma {:induction false} TopDigit(l: nat, r: nat)
    ensures var n := Max(NumDigits(l), NumDigits(r));
            DigitAt(l + r, n) == CarryOut(l, r, n)
  {
    var n := Max(NumDigits(l), NumDigits(r));
    HighAll(l, n);
    HighAll(r, n);
    SumHigh(l, r, n);
    CarryAtMostOne(l, r, n);
  }

  /**
   Every column of a difference: the upper digit, less the borrow coming in, plus ten if it borrows, is the
   lower digit and a digit left; for a difference that is not negative that digit is the difference's, and
   nothing is borrowed beyond the last column.
   */
  lemma {:induction false} DifferenceColumns(q: Question, s: Settings, i: nat)
    requires Workable(q, s) && s.level.Columnar? && s.operation.Minus?
    ensures var e := Expected(q, s);
            && (Carry(i) in e <==> i < Max(NumDigits(q.left), NumDigits(q.right)))
            && Answer in e && e[Answer] == q.left - q.right
            && (Carry(i) in e ==>
                  var stays := DigitAt(q.left, i) - At(e, i == 0, Carry(if i == 0 then 0 else i - 1))
                               + 10 * e[Carry(i)] - DigitAt(q.right, i);
                  && 0 <= e[Carry(i)] <= 1 && 0 <= stays < 10
                  && (q.left >= q.right ==> stays == DigitAt(q.left - q.right, i)))
            && (q.left >= q.right <==> At(e, false, Carry(Max(NumDigits(q.left), NumDigits(q.right)) - 1)) == 0)
  {
    hide Fields, BorrowOut, DigitAt, NumDigits;
    FieldKeys(q, s);
    BorrowColumn(q.left, q.right, i);
    BorrowIsBit(q.left, q.right, i);
    LastBorrow(q.left, q.right);
  }

  lemma {:induction false} BorrowIsBit(l: nat, r: nat, i: nat)
    ensures BorrowOut(l, r, i) <= 1
  {
  }

  /** The sum of the first k rows of a product as asked for, each shifted to its place. */
  function RowsSum(e: map<Key, int>, k: nat): int {
    if k == 0 then 0 else RowsSum(e, k - 1) + Shift(At(e, false, Partial(k - 1)), k - 1)
  }

  /** Every column of a product's rows: digit times digit and the carry coming in make a digit and a carry. */
  lemma {:induction false} ProductColumns(q: Question, s: Settings, i: nat, j: nat)
    requires Workable(q, s) && s.level.Columnar? && s.operation.Multiply?
    ensures var e := Expected(q, s);
            && (Partial(i) in e <==> q.right > 0 && i < NumDigits(q.right))
            && (MulCarry(i, j) in e <==> Partial(i) in e && j < NumDigits(q.left))
            && (Partial(i) in e ==> e[Partial(i)] == q.left * DigitAt(q.right, i) >= 0)
            && (MulCarry(i, j) in e ==>
                  && 0 <= e[MulCarry(i, j)] < 10
                  && DigitAt(q.left, j) * DigitAt(q.right, i)
                     + At(e, j == 0, MulCarry(i, if j == 0 then 0 else j - 1))
                     == DigitAt(e[Partial(i)], j) + 10 * e[MulCarry(i, j)])
            && (Partial(i) in e ==>
                  High(e[Partial(i)], NumDigits(q.left)) == At(e, false, MulCarry(i, NumDigits(q.left) - 1)))
  {
    hide Fields, MulCarryOut, DigitAt, NumDigits, High;
    var d := DigitAt(q.right, i);
    FieldKeys(q, s);
    MulLe(0, q.left, d);
    MulCarryColumn(q.left, d, j);
    MulCarryColumn(q.left, d, j + 1);
    LastMulCarry(q.left, d);
    ColumnMakes(DigitAt(q.left, j) * d + MulCarryOut(q.left, d, j));
    Commute(q.left, d);
  }

  lemma {:induction false} ColumnMakes(n: nat)
    ensures n == n % 10 + 10 * (n / 10)
  {
  }

  lemma {:induction false} Commute(a: int, b: int)
    ensures a * b == b * a
  {
  }

  /** The rows of a product, each shifted to its place, add up to the answer. */
  lemma {:induction false} ProductRows(q: Question, s: Settings)
    requires Workable(q, s) && s.level.Columnar? && s.operation.Multiply?
    ensures var e := Expected(q, s);
            && Answer in e && e[Answer] == q.left * q.right
            && RowsSum(e, if q.right == 0 then 0 else NumDigits(q.right)) == e[Answer]
  {
    hide Fields, ShiftedRows, NumDigits;
    FieldKeys(q, s);
    PartialsAddUp(q.left, q.right);
    RowsAreShifted(q, s, if q.right == 0 then 0 else NumDigits(q.right));
  }

  lemma {:induction false} RowsAreShifted(q: Question, s: Settings, k: nat)
    requires Workable(q, s) && s.level.Columnar? && s.operation.Multiply?
    requires k <= if q.right == 0 then 0 else NumDigits(q.right)
    ensures RowsSum(Expected(q, s), k) == ShiftedRows(q.left, q.right, k)
  {
    hide Fields, Expected, DigitAt, NumDigits;
    if k > 0 {
      RowsAreShifted(q, s, k - 1);
      ProductColumns(q, s, k - 1, 0);
    }
  }

  /**
   Long division, step by step: the first step takes the leading part of the dividend, every later one ten
   times the remainder above and the next digit; each subtracts its quotient digit times the divisor, leaves
   less than the divisor, and the last leaves the remainder of the division.
   */
  lemma {:induction false} DivisionSteps(q: Question, s: Settings, k: nat)
    requires Workable(q, s) && s.level.Columnar? && s.operation.Divide?
    ensures var e := Expected(q, s);
            && Answer in e && e[Answer] == q.left / q.right >= 0
            && (Product(k) in e <==>
                  !s.divisionMode.ResultOnly? && q.left >= q.right && k < NumDigits(q.left / q.right))
            && (Remainder(k) in e <==> Product(k) in e)
            && (Bring(k) in e <==> Product(k) in e && s.divisionMode.Full? && k > 0)
            && (Product(k) in e ==>
                  var left := NumDigits(q.left / q.right) - 1 - k;
                  && e[Product(k)] == DigitAt(e[Answer], left) * q.right
                  && 0 <= e[Remainder(k)] < q.right
                  && e[Product(k)] + e[Remainder(k)]
                     == (if k == 0 then High(q.left, left)
                         else 10 * At(e, false, Remainder(k - 1)) + DigitAt(q.left, left))
                  && (Bring(k) in e ==> e[Bring(k)] == DigitAt(q.left, left))
                  && (left == 0 ==> e[Remainder(k)] == q.left % q.right))
  {
    hide Fields, DigitAt, NumDigits, High, TrueValue;
    var l: nat, r: nat := q.left, q.right;
    FieldKeys(q, s);
    QuotientSign(l, r);
    AnswerValue(q, s);
    if Product(k) in Expected(q, s) {
      var j := StepCount(l, r) - 1 - k;
      StepTrueValues(q, s, j, k);
      StepRemainder(l, r, j);
      if k > 0 {
        StepTrueValues(q, s, j + 1, k - 1);
        StepValues(l, r, j, 10 * (High(l, j + 1) % r) + DigitAt(l, j));
        RemainderOf(10 * (High(l, j + 1) % r) + DigitAt(l, j), r);
      } else {
        FirstStep(l, r);
      }
    }
  }

  lemma {:induction false} AnswerValue(q: Question, s: Settings)
    requires Workable(q, s) && s.operation.Divide?
    ensures TrueValue(q, s, Answer) == q.left / q.right
  {
  }

  lemma {:induction false} StepRemainder(l: nat, r: nat, j: nat)
    requires r > 0
    ensures 0 <= High(l, j) % r < r
    ensures j == 0 ==> High(l, j) == l
  {
  }

  /** The first quotient digit is the whole quotient of the leading part. */
  lemma {:induction false} FirstStep(l: nat, r: nat)
    requires r > 0 && l >= r
    ensures var j := NumDigits(l / r) - 1;
            DigitAt(l / r, j) * r + High(l, j) % r == High(l, j)
  {
    var j := NumDigits(l / r) - 1;
    QuotientSign(l, r);
    HighQuotient(l, r, j);
    LeadingDigit(l / r);
    RemainderOf(High(l, j), r);
  }

  lemma {:induction false} LeadingDigit(n: nat)
    ensures High(n, NumDigits(n) - 1) == DigitAt(n, NumDigits(n) - 1)
  {
    if n >= 10 {
      LeadingDigit(n / 10);
    }
  }

  /** Every value fits the width it is asked for in, and only partial products are shifted, each to its row. */
  lemma {:induction false} ValuesFit(q: Question, s: Settings, n: nat)
    requires Workable(q, s) && n < |Fields(q, s)|
    ensures var f := Fields(q, s)[n];
            && f.key in Expected(q, s)
            && PrintedWidth(Expected(q, s)[f.key]) <= f.width
            && f.shift == (if f.key.Partial? then f.key.row else 0)
            && (f.key.Carry? || f.key.MulCarry? || f.key.Bring? ==> f.width == 1)
            && (f.key == Answer <==> n == |Fields(q, s)| - 1)
  {
    hide NumDigits, CarryOut, BorrowOut, MulCarryOut, DigitAt;
    var f := Fields(q, s)[n];
    FieldKeys(q, s);
    assert f.key in KeysOf(Fields(q, s));
    assert Fields(q, s)[|Fields(q, s)| - 1].key == Answer;
    FieldShape(q, s, n);
    assert f.key != Answer ==> IsWorkKey(q, s, f.key);
    match f.key {
      case Carry(i) =>
        CarryAtMostOne(q.left, q.right, i + 1);
        BorrowIsBit(q.left, q.right, i + 1);
        SmallNumber(Expected(q, s)[f.key]);
      case MulCarry(i, j) =>
        MulCarryColumn(q.left, DigitAt(q.right, i), j + 1);
        SmallNumber(Expected(q, s)[f.key]);
      case Partial(i) =>
        MulLe(0, q.left, DigitAt(q.right, i));
        LastMulCarry(q.left, DigitAt(q.right, i));
      case Bring(k) =>
        DivisionValuesFit(q, s, k);
        BringSmall(q, s, k);
        SmallNumber(Expected(q, s)[f.key]);
      case Product(k) => DivisionValuesFit(q, s, k);
      case Remainder(k) => DivisionValuesFit(q, s, k);
      case Answer =>
      case SumCarry(_) =>
    }
  }

  lemma {:induction false} SmallNumber(v: int)
    requires 0 <= v < 10
    ensures PrintedWidth(v) == 1
  {
  }

  lemma {:induction false} BringSmall(q: Question, s: Settings, k: nat)
    requires Workable(q, s)
    ensures 0 <= TrueValue(q, s, Bring(k)) < 10
  {
  }

  predicate ShapedFor(q: Question, f: Field) {
    && f.shift == (if f.key.Partial? then f.key.row else 0)
    && match f.key
       case Carry(_) => f.width == 1
       case MulCarry(_, _) => f.width == 1
       case Bring(_) => f.width == 1
       case Partial(_) => f.width == PrintedWidth(q.left) + 1
       case Product(_) => f.width == OperandWidth(q)
       case Remainder(_) => f.width == OperandWidth(q)
       case _ => true
  }

  lemma {:induction false} RowsShaped(q: Question, w: nat, rows: nat)
    requires w == PrintedWidth(q.left)
    ensures forall n :: 0 <= n < |ProductFields(w, rows)| ==> ShapedFor(q, ProductFields(w, rows)[n])
  {
    if rows > 0 {
      RowsShaped(q, w, rows - 1);
    }
  }

  lemma {:induction false} StepsShaped(q: Question, w: nat, full: bool, steps: nat)
    requires w == OperandWidth(q)
    ensures forall n :: 0 <= n < |DivisionFields(w, full, steps)| ==> ShapedFor(q, DivisionFields(w, full, steps)[n])
  {
    hide OperandWidth;
    if steps > 0 {
      StepsShaped(q, w, full, steps - 1);
      var above, step := DivisionFields(w, full, steps - 1), StepFields(w, full, steps - 1);
      assert forall n :: 0 <= n < |step| ==> ShapedFor(q, step[n]);
    }
  }

  lemma {:induction false} FieldShape(q: Question, s: Settings, n: nat)
    requires Workable(q, s) && n < |Fields(q, s)|
    ensures ShapedFor(q, Fields(q, s)[n])
    ensures Fields(q, s)[n].key == Answer ==>
              n == |Fields(q, s)| - 1
              && Fields(q, s)[n].width == Max(OperandWidth(q), PrintedWidth(q.Result(s.operation)))
  {
    hide NumDigits, OperandWidth, PrintedWidth;
    RowsShaped(q, PrintedWidth(q.left), RowCount(q.right));
    if s.operation.Divide? {
      StepsShaped(q, OperandWidth(q), s.divisionMode.Full?, StepCount(q.left, q.right));
    }
    FieldKeys(q, s);
    var last := |Fields(q, s)| - 1;
    assert Fields(q, s)[last].key == Answer;
    if n < last {
      assert Fields(q, s)[n] == WorkFields(q, s)[n];
    }
  }
}
