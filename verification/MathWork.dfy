/**
 The written work the server expects for a question: carries, borrows, partial products and
 long-division steps. Every value has a closed form on the operands; the loops that compute
 them step by step are proved equal to it.
 */
module MathWork {
  import opened Decimal
  import opened MathTypes

  /** The carry out of the low k columns of a sum. */
  function CarryOut(l: nat, r: nat, k: nat): nat {
    High(Low(l, k) + Low(r, k), k)
  }

  /** The borrow out of the low k columns of a difference. */
  function BorrowOut(l: nat, r: nat, k: nat): nat {
    if Low(l, k) < Low(r, k) then 1 else 0
  }

  /** The carry out of the low k columns of l times the digit d. */
  function MulCarryOut(l: nat, d: nat, k: nat): nat {
    High(Low(l, k) * d, k)
  }

  /** The loop over the multiplier's digits runs while a multiplier is left, so not at all for zero. */
  function RowCount(r: nat): nat {
    if r == 0 then 0 else NumDigits(r)
  }

  /** One division step for each quotient digit; none when the quotient is zero. */
  function StepCount(l: nat, r: nat): nat
    requires r > 0
  {
    if l < r then 0 else NumDigits(l / r)
  }

  /** The part of the dividend standing above division step k. */
  function Prefix(l: nat, r: nat, k: nat): nat
    requires r > 0 && k < StepCount(l, r)
  {
    High(l, StepCount(l, r) - 1 - k)
  }

  function QuotientDigit(l: nat, r: nat, k: nat): nat
    requires r > 0 && k < StepCount(l, r)
  {
    DigitAt(l / r, StepCount(l, r) - 1 - k)
  }

  /** The largest multiple of r not above p: what a division step subtracts. */
  function LargestMultiple(p: nat, r: nat): int
    requires r > 0
  {
    p / r * r
  }

  /** What callers of Work must have checked: operands of a validated question. */
  predicate Workable(q: Question, s: Settings) {
    q.left >= 0 && q.right >= 0 && (s.operation.Divide? ==> q.right > 0)
  }

  function OperandWidth(q: Question): nat {
    Max(PrintedWidth(q.left), PrintedWidth(q.right))
  }

  /** The true value of a field. */
  function TrueValue(q: Question, s: Settings, key: Key): int
    requires Workable(q, s)
  {
    var l: nat, r: nat := q.left, q.right;
    match key
    case Carry(i) => if s.operation.Plus? then CarryOut(l, r, i + 1) else BorrowOut(l, r, i + 1)
    case MulCarry(i, j) => MulCarryOut(l, DigitAt(r, i), j + 1)
    case Partial(i) => l * DigitAt(r, i)
    case Bring(k) => if r > 0 && k < StepCount(l, r) then DigitAt(l, StepCount(l, r) - 1 - k) else 0
    case Product(k) => if r > 0 && k < StepCount(l, r) then QuotientDigit(l, r, k) * r else 0
    case Remainder(k) => if r > 0 && k < StepCount(l, r) then Prefix(l, r, k) % r else 0
    case Answer => q.Result(s.operation)
    case SumCarry(_) => 0
  }

  function CarryFields(n: nat): seq<Field> {
    seq(n, i requires 0 <= i => Field(Carry(i), 1, 0))
  }

  function RowFields(row: nat, w: nat, j: nat): seq<Field>
    requires j <= w
  {
    seq(j, c requires 0 <= c => Field(MulCarry(row, c), 1, 0))
  }

  function ProductFields(w: nat, rows: nat): seq<Field> {
    if rows == 0 then []
    else ProductFields(w, rows - 1) + RowFields(rows - 1, w, w) + [Field(Partial(rows - 1), w + 1, rows - 1)]
  }

  function StepFields(w: nat, full: bool, step: nat): seq<Field> {
    (if full && step > 0 then [Field(Bring(step), 1, 0)] else [])
    + [Field(Product(step), w, 0), Field(Remainder(step), w, 0)]
  }

  function DivisionFields(w: nat, full: bool, steps: nat): seq<Field> {
    if steps == 0 then [] else DivisionFields(w, full, steps - 1) + StepFields(w, full, steps - 1)
  }

  function WorkFields(q: Question, s: Settings): seq<Field>
    requires Workable(q, s)
  {
    if !s.level.Columnar? then []
    else match s.operation
      case Plus => CarryFields(OperandWidth(q))
      case Minus => CarryFields(OperandWidth(q))
      case Multiply => ProductFields(PrintedWidth(q.left), RowCount(q.right))
      case Divide =>
        if s.divisionMode.ResultOnly? then []
        else DivisionFields(OperandWidth(q), s.divisionMode.Full?, StepCount(q.left, q.right))
      case OtherOperation => []
  }

  /** Every field of the question in the order it is asked for; the answer comes last. */
  function Fields(q: Question, s: Settings): seq<Field>
    requires Workable(q, s)
  {
    WorkFields(q, s)
    + [Field(Answer, Max(OperandWidth(q), PrintedWidth(q.Result(s.operation))), 0)]
  }

  function KeysOf(fields: seq<Field>): set<Key> {
    set f | f in fields :: f.key
  }

  function Expected(q: Question, s: Settings): map<Key, int>
    requires Workable(q, s)
  {
    map k | k in KeysOf(Fields(q, s)) :: TrueValue(q, s, k)
  }

  // ---------------------------------------------------------------- column steps

  lemma {:induction false} CarryAtMostOne(l: nat, r: nat, k: nat)
    ensures CarryOut(l, r, k) <= 1
  {
    var s := Low(l, k) + Low(r, k);
    Split(s, k);
    if High(s, k) > 1 {
      ShiftOrder(1, High(s, k), k);
      ShiftIsProduct(1, k);
    }
  }

  /** Adding two numbers split at digit k whose low parts make c units and a rest w. */
  lemma {:induction false} AddSplit(n: nat, a: nat, b: nat, c: nat, u: nat, v: nat, w: nat, k: nat)
    requires n == Shift(a, k) + u + Shift(b, k) + v
    requires u + v == Shift(c, k) + w && w < Pow10(k)
    ensures High(n, k) == a + b + c
  {
    ShiftSum(a, b, k);
    ShiftSum(a + b, c, k);
    SplitUnique(n, k, a + b + c, w);
  }

  lemma {:induction false} SumHigh(l: nat, r: nat, k: nat)
    ensures High(l + r, k) == High(l, k) + High(r, k) + CarryOut(l, r, k)
  {
    var s := Low(l, k) + Low(r, k);
    Split(l, k);
    Split(r, k);
    Split(s, k);
    AddSplit(l + r, High(l, k), High(r, k), High(s, k), Low(l, k), Low(r, k), Low(s, k), k);
  }

  lemma {:induction false} CarryStep(l: nat, r: nat, k: nat)
    ensures CarryOut(l, r, k + 1) == (DigitAt(l, k) + DigitAt(r, k) + CarryOut(l, r, k)) / 10
  {
    var s, t := Low(l, k) + Low(r, k), Low(l, k + 1) + Low(r, k + 1);
    ShiftOne(l, k);
    ShiftOne(r, k);
    Split(s, k);
    AddSplit(t, DigitAt(l, k), DigitAt(r, k), High(s, k), Low(l, k), Low(r, k), Low(s, k), k);
    ShiftOne(t, k);
  }

  lemma {:induction false} LastDigitOfSum(x: nat, y: nat, c: nat)
    ensures (x + y + c) % 10 == (x % 10 + y % 10 + c) % 10
  {
    var t := x % 10 + y % 10 + c;
    DivModUnique(x + y + c, 10, x / 10 + y / 10 + t / 10, t % 10);
  }

  lemma {:induction false} SumDigit(l: nat, r: nat, k: nat)
    ensures DigitAt(l + r, k) == (DigitAt(l, k) + DigitAt(r, k) + CarryOut(l, r, k)) % 10
  {
    SumHigh(l, r, k);
    LastDigitOfSum(High(l, k), High(r, k), CarryOut(l, r, k));
  }

  /** A sum column: what it takes in, what it leaves, what it hands on. */
  lemma {:induction false} CarryColumn(l: nat, r: nat, k: nat)
    ensures CarryOut(l, r, 0) == 0
    ensures CarryOut(l, r, k) <= 1
    ensures CarryOut(l, r, k + 1) == (DigitAt(l, k) + DigitAt(r, k) + CarryOut(l, r, k)) / 10
    ensures DigitAt(l + r, k) == (DigitAt(l, k) + DigitAt(r, k) + CarryOut(l, r, k)) % 10
  {
    CarryAtMostOne(l, r, k);
    CarryStep(l, r, k);
    SumDigit(l, r, k);
  }

  lemma {:induction false} BorrowStep(l: nat, r: nat, k: nat)
    ensures BorrowOut(l, r, k + 1) == (if DigitAt(l, k) - BorrowOut(l, r, k) < DigitAt(r, k) then 1 else 0)
  {
    ShiftOne(l, k);
    ShiftOne(r, k);
    if DigitAt(l, k) < DigitAt(r, k) {
      ShiftOrder(DigitAt(l, k), DigitAt(r, k), k);
    } else if DigitAt(l, k) > DigitAt(r, k) {
      ShiftOrder(DigitAt(r, k), DigitAt(l, k), k);
    }
  }

  lemma {:induction false} SubSplit(n: nat, a: nat, b: nat, c: nat, u: nat, v: nat, k: nat)
    requires n == Shift(a, k) + u - Shift(b, k) - v
    requires u < Pow10(k) && v < Pow10(k) && c == (if u < v then 1 else 0)
    ensures High(n, k) == a - b - c
  {
    var h: int, w: int := a - b - c, u - v + c * Pow10(k);
    ShiftSum(h, b, k);
    ShiftSum(h + b, c, k);
    ShiftIsProduct(c, k);
    SplitUnique(n, k, h, w);
  }

  lemma {:induction false} DifferenceHigh(l: nat, r: nat, k: nat)
    requires l >= r
    ensures High(l - r, k) == High(l, k) - High(r, k) - BorrowOut(l, r, k)
  {
    Split(l, k);
    Split(r, k);
    SubSplit(l - r, High(l, k), High(r, k), BorrowOut(l, r, k), Low(l, k), Low(r, k), k);
  }

  lemma {:induction false} LastDigitOfDifference(x: nat, y: nat, b: nat)
    requires x - y - b >= 0
    ensures (x - y - b) % 10 == (x % 10 - b - y % 10 + 10) % 10
  {
    var t := x % 10 - b - y % 10 + 10;
    DivModUnique(x - y - b, 10, x / 10 - y / 10 + t / 10 - 1, t % 10);
  }

  lemma {:induction false} DifferenceDigit(l: nat, r: nat, k: nat)
    requires l >= r
    ensures DigitAt(l - r, k) == (DigitAt(l, k) - BorrowOut(l, r, k) - DigitAt(r, k) + 10) % 10
  {
    hide BorrowOut, High;
    DifferenceHigh(l, r, k);
    LastDigitOfDifference(High(l, k), High(r, k), BorrowOut(l, r, k));
  }

  /** A difference column, for any operands: the borrow test of the loop and the digit it leaves. */
  lemma {:induction false} BorrowColumn(l: nat, r: nat, k: nat)
    ensures BorrowOut(l, r, 0) == 0
    ensures BorrowOut(l, r, k + 1) == (if DigitAt(l, k) - BorrowOut(l, r, k) < DigitAt(r, k) then 1 else 0)
    ensures l >= r ==>
              DigitAt(l - r, k) == (DigitAt(l, k) - BorrowOut(l, r, k) - DigitAt(r, k) + 10) % 10
  {
    hide DigitAt;
    BorrowStep(l, r, k);
    if l >= r {
      DifferenceDigit(l, r, k);
    }
  }

  /** Multiplying below digit k by d: c units are carried and the rest stays. */
  lemma {:induction false} ProductSplit(l: nat, d: nat, k: nat)
    requires d < 10
    ensures var c := MulCarryOut(l, d, k);
            && c < 10
            && High(Times(l, d), k) == High(l, k) * d + c
            && High(Times(Low(l, k + 1), d), k) == DigitAt(l, k) * d + c
  {
    var s := Low(l, k) * d;
    var c, w := High(s, k), Low(s, k);
    Split(s, k);
    DigitProductBelow(Low(l, k), d, k, c, w);
    Split(l, k);
    ScaleSplit(l, d, k, High(l, k), Low(l, k), c, w);
    ShiftOne(l, k);
    ScaleSplit(Low(l, k + 1), d, k, DigitAt(l, k), Low(l, k), c, w);
  }

  lemma {:induction false} DigitProductBelow(u: nat, d: nat, k: nat, c: nat, w: nat)
    requires d < 10 && u < Pow10(k) && u * d == Shift(c, k) + w
    ensures c < 10
  {
    if c >= 10 {
      ShiftOrder(9, c, k);
      ShiftIsProduct(9, k);
      MulLe(d, 9, u);
    }
  }

  lemma {:induction false} ScaleSplit(n: nat, d: nat, k: nat, h: nat, u: nat, c: nat, w: nat)
    requires n == Shift(h, k) + u && u * d == Shift(c, k) + w && w < Pow10(k)
    ensures High(n * d, k) == h * d + c
  {
    ShiftScale(h, d, k);
    ShiftSum(h * d, c, k);
    assert n * d == Shift(h, k) * d + u * d;
    SplitUnique(n * d, k, h * d + c, w);
  }

  lemma {:induction false} LastDigitOfProduct(h: nat, d: nat, c: nat)
    ensures (h * d + c) % 10 == (h % 10 * d + c) % 10
  {
    var q, t := h / 10, h % 10 * d + c;
    Regroup(q, h % 10, 10, d);
    assert h * d == 10 * (q * d) + h % 10 * d;
    DivModUnique(h * d + c, 10, q * d + t / 10, t % 10);
  }

  /** One column of a single-digit product. */
  lemma {:induction false} MulCarryColumn(l: nat, d: nat, k: nat)
    requires d < 10
    ensures MulCarryOut(l, d, 0) == 0
    ensures MulCarryOut(l, d, k) < 10
    ensures MulCarryOut(l, d, k + 1) == (DigitAt(l, k) * d + MulCarryOut(l, d, k)) / 10
    ensures DigitAt(l * d, k) == (DigitAt(l, k) * d + MulCarryOut(l, d, k)) % 10
  {
    ProductSplit(l, d, k);
    ShiftOne(Low(l, k + 1) * d, k);
    LastDigitOfProduct(High(l, k), d, MulCarryOut(l, d, k));
  }

  // ---------------------------------------------------------------- division steps

  /** Bringing one digit down: the quotient grows by exactly one digit. */
  lemma {:induction false} BringDown(p: nat, r: nat, d: nat)
    requires r > 0 && d < 10
    ensures (10 * (p % r) + d) / r < 10
    ensures (10 * p + d) / r == 10 * (p / r) + (10 * (p % r) + d) / r
    ensures (10 * p + d) % r == (10 * (p % r) + d) % r
  {
    var q, t := p / r, 10 * (p % r) + d;
    var e := t / r;
    if e >= 10 {
      MulLe(10, e, r);
    }
    assert (10 * q + e) * r == 10 * (q * r) + e * r by {
      Regroup(q, e, 10, r);
      Reorder(q, r);
    }
    DivModUnique(10 * p + d, r, 10 * q + e, t % r);
  }

  lemma {:induction false} HighQuotient(l: nat, r: nat, k: nat)
    requires r > 0
    ensures High(l, k) / r == High(l / r, k)
  {
    if k > 0 {
      HighQuotient(l / 10, r, k - 1);
      DivDivCommute(l, 10, r);
    }
  }

  lemma {:induction false} QuotientSign(p: nat, r: nat)
    requires r > 0
    ensures p / r > 0 <==> p >= r
    ensures p < r ==> p / r == 0 && p % r == p
  {
    if p < r {
      DivModUnique(p, r, 0, p);
    } else if p / r <= 0 {
      MulLe(p / r, 0, r);
      assert false;
    }
  }

  /** The prefix with k digits left to bring down decides how many steps are done. */
  lemma {:induction false} StepsSoFar(l: nat, r: nat, k: nat)
    requires r > 0 && High(l, k) >= r
    ensures l >= r
    ensures StepCount(l, r) == NumDigits(High(l, k) / r) + k
  {
    HighQuotient(l, r, k);
    QuotientSign(High(l, k), r);
    NumDigitsHigh(l / r, k);
    QuotientSign(l, r);
    if l < r {
      HighOfZero(k);
    }
  }

  /** The number of steps done before the prefix p. */
  function StepsDone(p: nat, r: nat): nat
    requires r > 0
  {
    if p < r then 0 else NumDigits(p / r)
  }

  lemma {:induction false} QuotientGrows(h: nat, p: nat, d: nat, r: nat) returns (q: nat, e: nat)
    requires r > 0 && d < 10 && h == 10 * p + d && h >= r
    ensures q == p / r && e < 10 && h / r == 10 * q + e
    ensures q == 0 <==> p < r
    ensures q == 0 ==> e > 0
  {
    BringDown(p, r, d);
    QuotientSign(p, r);
    QuotientSign(h, r);
    q, e := p / r, (10 * (p % r) + d) / r;
  }

  lemma {:induction false} StepsGrow(h: nat, p: nat, d: nat, r: nat)
    requires r > 0 && d < 10 && h == 10 * p + d && h >= r
    ensures StepsDone(h, r) == StepsDone(p, r) + 1
  {
    var q, e := QuotientGrows(h, p, d, r);
    DigitAppended(q, e);
  }

  lemma {:induction false} DigitAppended(q: nat, e: nat)
    requires e < 10
    ensures NumDigits(10 * q + e) == if q == 0 then 1 else 1 + NumDigits(q)
  {
  }

  lemma {:induction false} LowQuotientDigit(h: nat, p: nat, d: nat, r: nat)
    requires r > 0 && d < 10 && h == 10 * p + d
    ensures h / r % 10 == (10 * (p % r) + d) / r
    ensures h % r == (10 * (p % r) + d) % r
  {
    BringDown(p, r, d);
    DivModUnique(h / r, 10, p / r, (10 * (p % r) + d) / r);
  }

  /** The step that brings digit k down, when the prefix then holds the divisor. */
  lemma {:induction false} StepIndex(l: nat, r: nat, k: nat)
    requires r > 0 && High(l, k) >= r
    ensures StepsDone(High(l, k), r) == StepsDone(High(l, k + 1), r) + 1
    ensures StepCount(l, r) == StepsDone(High(l, k + 1), r) + 1 + k
  {
    ShiftOne(l, k);
    StepsGrow(High(l, k), High(l, k + 1), DigitAt(l, k), r);
    StepsSoFar(l, r, k);
  }

  /** What that step writes: its quotient digit and its remainder. */
  lemma {:induction false} StepValues(l: nat, r: nat, k: nat, partial: nat)
    requires r > 0 && partial == 10 * (High(l, k + 1) % r) + DigitAt(l, k)
    ensures High(l, k) == 10 * High(l, k + 1) + DigitAt(l, k)
    ensures DigitAt(l / r, k) == partial / r
    ensures High(l, k) % r == partial % r
  {
    ShiftOne(l, k);
    HighQuotient(l, r, k);
    LowQuotientDigit(High(l, k), High(l, k + 1), DigitAt(l, k), r);
  }

  // ---------------------------------------------------------------- the loops

  /** The true values of the given fields. */
  function Values(q: Question, s: Settings, fields: seq<Field>): map<Key, int>
    requires Workable(q, s)
  {
    map k | k in KeysOf(fields) :: TrueValue(q, s, k)
  }

  lemma {:induction false} ValuesAppend(q: Question, s: Settings, fields: seq<Field>, f: Field)
    requires Workable(q, s)
    ensures Values(q, s, fields + [f]) == Values(q, s, fields)[f.key := TrueValue(q, s, f.key)]
  {
    assert KeysOf(fields + [f]) == KeysOf(fields) + {f.key};
  }

  /** The carry loop of sums and differences, right to left. */
  method ColumnLoop(q: Question, s: Settings) returns (fields: seq<Field>, expected: map<Key, int>)
    requires Workable(q, s) && (s.operation.Plus? || s.operation.Minus?)
    ensures fields == CarryFields(OperandWidth(q)) && expected == Values(q, s, fields)
  {
    fields, expected := [], map[];
    var n := OperandWidth(q);
    var a: nat, b: nat, carry: nat := q.left, q.right, 0;
    for i := 0 to n
      invariant a == High(q.left, i) && b == High(q.right, i)
      invariant carry == if s.operation.Plus? then CarryOut(q.left, q.right, i) else BorrowOut(q.left, q.right, i)
      invariant fields == CarryFields(i)
      invariant expected == Values(q, s, fields)
    {
      CarryColumn(q.left, q.right, i);
      BorrowColumn(q.left, q.right, i);
      ShiftOne(q.left, i);
      ShiftOne(q.right, i);
      var next: nat := 0;
      if s.operation.Plus? {
        next := (a % 10 + b % 10 + carry) / 10;
      } else if a % 10 - carry < b % 10 {
        next := 1;
      }
      ValuesAppend(q, s, fields, Field(Carry(i), 1, 0));
      fields := fields + [Field(Carry(i), 1, 0)];
      expected := expected[Carry(i) := next];
      carry, a, b := next, a / 10, b / 10;
    }
  }

  /** The carry loop of one product row, appended to the rows above it. */
  method RowCarries(q: Question, s: Settings, i: nat, digit: nat, rows: seq<Field>, above: map<Key, int>)
    returns (fields: seq<Field>, expected: map<Key, int>)
    requires Workable(q, s) && digit == DigitAt(q.right, i) && above == Values(q, s, rows)
    ensures fields == rows + RowFields(i, PrintedWidth(q.left), PrintedWidth(q.left))
    ensures expected == Values(q, s, fields)
  {
    fields, expected := rows, above;
    var w := PrintedWidth(q.left);
    var a: nat, carry: nat := q.left, 0;
    for j := 0 to w
      invariant a == High(q.left, j) && carry == MulCarryOut(q.left, digit, j)
      invariant fields == rows + RowFields(i, w, j)
      invariant expected == Values(q, s, fields)
    {
      MulCarryColumn(q.left, digit, j);
      ShiftOne(q.left, j);
      carry := (a % 10 * digit + carry) / 10;
      ValuesAppend(q, s, fields, Field(MulCarry(i, j), 1, 0));
      fields := fields + [Field(MulCarry(i, j), 1, 0)];
      expected := expected[MulCarry(i, j) := carry];
      a := a / 10;
    }
  }

  /** The row loop of a product: every row computes its carries and its partial product. */
  method RowLoop(q: Question, s: Settings) returns (fields: seq<Field>, expected: map<Key, int>)
    requires Workable(q, s)
    ensures fields == ProductFields(PrintedWidth(q.left), RowCount(q.right)) && expected == Values(q, s, fields)
  {
    fields, expected := [], map[];
    var b: nat, i: nat := q.right, 0;
    RowsLeft(q.right, 0);
    while b > 0
      invariant i <= RowCount(q.right) && b == High(q.right, i)
      invariant b > 0 <==> i < RowCount(q.right)
      invariant fields == ProductFields(PrintedWidth(q.left), i)
      invariant expected == Values(q, s, fields)
      decreases b
    {
      var digit := b % 10;
      fields, expected := RowCarries(q, s, i, digit, fields, expected);
      var f := Field(Partial(i), PrintedWidth(q.left) + 1, i);
      ValuesAppend(q, s, fields, f);
      fields := fields + [f];
      expected := expected[Partial(i) := q.left * digit];
      ShiftOne(q.right, i);
      RowsLeft(q.right, i + 1);
      b := b / 10;
      i := i + 1;
    }
  }

  /** After k digits the multiplier is used up exactly when there are no more rows. */
  lemma {:induction false} RowsLeft(r: nat, k: nat)
    ensures High(r, k) > 0 <==> k < RowCount(r)
  {
    if High(r, k) > 0 {
      NumDigitsHigh(r, k);
      if r == 0 {
        HighOfZero(k);
      }
    } else if k < RowCount(r) {
      NumDigitsExact(r);
      Split(r, k);
      ShiftIsProduct(0, k);
      if k < NumDigits(r) - 1 {
        Pow10Monotone(k, NumDigits(r) - 1);
      }
      assert false;
    }
  }

  lemma {:induction false} StepTrueValues(q: Question, s: Settings, k: nat, step: nat)
    requires Workable(q, s) && q.right > 0
    requires step + 1 + k == StepCount(q.left, q.right)
    ensures TrueValue(q, s, Bring(step)) == DigitAt(q.left, k)
    ensures TrueValue(q, s, Product(step)) == DigitAt(q.left / q.right, k) * q.right
    ensures TrueValue(q, s, Remainder(step)) == High(q.left, k) % q.right
  {
  }

  lemma {:induction false} StillBelow(p: nat, d: nat, h: nat, r: nat, partial: nat)
    requires r > 0 && h == 10 * p + d && partial == 10 * (p % r) + d
    ensures p < r && partial < r <==> h < r
    ensures p < r ==> partial == h
    ensures h < r ==> h % r == partial
  {
    QuotientSign(p, r);
    QuotientSign(h, r);
  }

  lemma {:induction false} RemainderOf(n: nat, r: nat)
    requires r > 0
    ensures n % r == n - n / r * r == n - LargestMultiple(n, r)
  {
  }

  /** What one turn of the division loop finds after bringing digit k of the dividend down. */
  lemma {:induction false} DivisionTurn(q: Question, s: Settings, k: nat, partial: nat, step: nat)
    requires Workable(q, s) && q.right > 0
    requires partial == 10 * (High(q.left, k + 1) % q.right) + DigitAt(q.left, k)
    requires step == StepsDone(High(q.left, k + 1), q.right)
    ensures High(q.left, k + 1) < q.right && partial < q.right <==> High(q.left, k) < q.right
    ensures High(q.left, k) < q.right ==> High(q.left, k) % q.right == partial
    ensures High(q.left, k) >= q.right ==>
              && StepsDone(High(q.left, k), q.right) == step + 1
              && TrueValue(q, s, Bring(step)) == DigitAt(q.left, k)
              && TrueValue(q, s, Product(step)) == LargestMultiple(partial, q.right)
              && TrueValue(q, s, Remainder(step)) == partial - LargestMultiple(partial, q.right)
              && High(q.left, k) % q.right == partial - LargestMultiple(partial, q.right) >= 0
  {
    var l: nat, r: nat := q.left, q.right;
    StepValues(l, r, k, partial);
    StillBelow(High(l, k + 1), DigitAt(l, k), High(l, k), r, partial);
    RemainderOf(partial, r);
    if High(l, k) >= r {
      StepIndex(l, r, k);
      StepTrueValues(q, s, k, step);
    }
  }

  /** Writes one division step below the work done so far. */
  method AddStep(q: Question, s: Settings, fields: seq<Field>, expected: map<Key, int>,
                 step: nat, digit: int, product: int, remainder: int)
    returns (fields': seq<Field>, expected': map<Key, int>)
    requires Workable(q, s)
    requires fields == DivisionFields(OperandWidth(q), s.divisionMode.Full?, step)
    requires expected == Values(q, s, fields)
    requires digit == TrueValue(q, s, Bring(step))
    requires product == TrueValue(q, s, Product(step)) && remainder == TrueValue(q, s, Remainder(step))
    ensures fields' == DivisionFields(OperandWidth(q), s.divisionMode.Full?, step + 1)
    ensures expected' == Values(q, s, fields')
  {
    fields', expected' := fields, expected;
    var w := OperandWidth(q);
    if step > 0 && s.divisionMode.Full? {
      ValuesAppend(q, s, fields', Field(Bring(step), 1, 0));
      fields' := fields' + [Field(Bring(step), 1, 0)];
      expected' := expected'[Bring(step) := digit];
    }
    ValuesAppend(q, s, fields', Field(Product(step), w, 0));
    fields' := fields' + [Field(Product(step), w, 0)];
    expected' := expected'[Product(step) := product];
    ValuesAppend(q, s, fields', Field(Remainder(step), w, 0));
    fields' := fields' + [Field(Remainder(step), w, 0)];
    expected' := expected'[Remainder(step) := remainder];
  }

  /** Before any digit is brought down nothing is done, and after the last one the work is. */
  lemma {:induction false} DivisionEnds(l: nat, r: nat)
    requires r > 0
    ensures High(l, |Text(l)|) % r == 0 && High(l, |Text(l)|) < r && StepsDone(High(l, |Text(l)|), r) == 0
    ensures High(l, 0) == l && StepsDone(l, r) == StepCount(l, r)
  {
    TextDigits(l);
    HighAll(l, |Text(l)|);
  }

  /** The digit loop of long division, left to right over the dividend's text. */
  method DivisionLoop(q: Question, s: Settings) returns (fields: seq<Field>, expected: map<Key, int>)
    requires Workable(q, s) && q.right > 0
    ensures fields == DivisionFields(OperandWidth(q), s.divisionMode.Full?, StepCount(q.left, q.right))
    ensures expected == Values(q, s, fields)
  {
    fields, expected := [], map[];
    var l: nat, r: nat := q.left, q.right;
    var text := Text(l);
    var partial: nat, started, step: nat := 0, false, 0;
    TextDigits(l);
    DivisionEnds(l, r);
    hide High, StepsDone, StepCount, NumDigits, Text, TrueValue, OperandWidth, LargestMultiple, DigitAt;
    for t := 0 to |text|
      invariant partial == High(l, |text| - t) % r
      invariant started <==> High(l, |text| - t) >= r
      invariant started <==> step > 0
      invariant step == StepsDone(High(l, |text| - t), r)
      invariant fields == DivisionFields(OperandWidth(q), s.divisionMode.Full?, step)
      invariant expected == Values(q, s, fields)
    {
      DivisionTurn(q, s, |text| - t - 1, partial * 10 + text[t], step);
      partial := partial * 10 + text[t];
      if !started && partial < r {
        continue;
      }
      started := true;
      var product := LargestMultiple(partial, r);
      var remainder := partial - product;
      fields, expected := AddStep(q, s, fields, expected, step, text[t], product, remainder);
      partial := remainder;
      step := step + 1;
    }
  }

  /** The work of a question: the fields asked for, in order, and the value each must hold. */
  method Work(q: Question, s: Settings) returns (fields: seq<Field>, expected: map<Key, int>)
    requires Workable(q, s)
    ensures fields == Fields(q, s)
    ensures expected == Expected(q, s)
  {
    fields, expected := [], map[];
    if s.level.Columnar? {
      match s.operation {
        case Plus => fields, expected := ColumnLoop(q, s);
        case Minus => fields, expected := ColumnLoop(q, s);
        case Multiply => fields, expected := RowLoop(q, s);
        case Divide =>
          if !s.divisionMode.ResultOnly? {
            fields, expected := DivisionLoop(q, s);
          }
        case OtherOperation =>
      }
    }
    var answer := q.Result(s.operation);
    var f := Field(Answer, Max(OperandWidth(q), PrintedWidth(answer)), 0);
    ValuesAppend(q, s, fields, f);
    fields := fields + [f];
    expected := expected[Answer := answer];
  }
}
