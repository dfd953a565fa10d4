/** What the written work amounts to: the column methods compute what their names promise. */
module WorkTheorems {
  import opened Decimal
  import opened MathTypes
  import opened MathWork

  /** The last carry of a sum is 1 exactly when the sum is one digit longer than its operands. */
  lemma {:induction false} LastCarry(l: nat, r: nat)
    ensures var n := Max(NumDigits(l), NumDigits(r));
            NumDigits(l + r) == n + CarryOut(l, r, n) && CarryOut(l, r, n) <= 1
  {
    var n := Max(NumDigits(l), NumDigits(r));
    SumHigh(l, r, n);
    CarryAtMostOne(l, r, n);
    HighAll(l, n);
    HighAll(r, n);
    if CarryOut(l, r, n) == 1 {
      NumDigitsHigh(l + r, n);
    } else {
      Split(l + r, n);
      ShiftIsProduct(0, n);
      NumDigitsBound(l + r, n);
      NumDigitsMonotone(l, l + r);
      NumDigitsMonotone(r, l + r);
    }
  }

  /** The last borrow of a difference is zero exactly when the difference is not negative. */
  lemma {:induction false} LastBorrow(l: nat, r: nat)
    ensures var n := Max(NumDigits(l), NumDigits(r));
            BorrowOut(l, r, n) == 0 <==> l >= r
  {
    var n := Max(NumDigits(l), NumDigits(r));
    HighAll(l, n);
    HighAll(r, n);
  }

  /** The last carry of a product row is the part of the partial product beyond the operand's width. */
  lemma {:induction false} LastMulCarry(l: nat, d: nat)
    requires d < 10
    ensures MulCarryOut(l, d, NumDigits(l)) == High(l * d, NumDigits(l)) < 10
    ensures NumDigits(l * d) <= NumDigits(l) + 1
  {
    var w := NumDigits(l);
    HighAll(l, w);
    MulCarryColumn(l, d, w);
    NumDigitsProduct(l, d);
  }

  /** The sum of the first k partial products, each shifted to its row. */
  function ShiftedRows(l: nat, r: nat, k: nat): int {
    if k == 0 then 0 else ShiftedRows(l, r, k - 1) + Shift(l * DigitAt(r, k - 1), k - 1)
  }

  lemma {:induction false} RowTerm(l: nat, d: nat, u: nat, k: nat)
    ensures l * (Shift(d, k) + u) == Shift(l * d, k) + l * u
  {
    ShiftScale(d, l, k);
    var s := Shift(d, k);
    assert l * (s + u) == l * s + l * u;
    assert d * l == l * d;
  }

  lemma {:induction false} RowsOfLowPart(l: nat, r: nat, k: nat)
    ensures ShiftedRows(l, r, k) == l * Low(r, k)
  {
    if k > 0 {
      RowsOfLowPart(l, r, k - 1);
      LowGrows(l, r, k - 1);
    }
  }

  lemma {:induction false} LowGrows(l: nat, r: nat, k: nat)
    ensures l * Low(r, k + 1) == l * Low(r, k) + Shift(l * DigitAt(r, k), k)
  {
    ShiftOne(r, k);
    hide Low, Shift, DigitAt;
    RowTerm(l, DigitAt(r, k), Low(r, k), k);
  }

  /** The shifted partial products add up to the product. */
  lemma {:induction false} PartialsAddUp(l: nat, r: nat)
    ensures ShiftedRows(l, r, RowCount(r)) == l * r
  {
    RowsOfLowPart(l, r, RowCount(r));
    if r > 0 {
      HighAll(r, RowCount(r));
    }
  }

  /**
   Long division of any size: the steps spell the quotient digit by digit, every remainder is
   below the divisor, each step subtracts its product from what stands above it, and the last
   remainder is the remainder of the division.
   */
  lemma {:induction false} LongDivision(q: Question, s: Settings)
    requires Workable(q, s) && q.right > 0 && q.left >= q.right
    ensures var m := StepCount(q.left, q.right);
            && m == NumDigits(q.left / q.right) > 0
            && Text(q.left / q.right) == seq(m, k requires 0 <= k < m => QuotientDigit(q.left, q.right, k))
            && TrueValue(q, s, Remainder(m - 1)) == q.left % q.right
            && forall k :: 0 <= k < m ==>
                 && TrueValue(q, s, Product(k)) == QuotientDigit(q.left, q.right, k) * q.right
                 && 0 <= TrueValue(q, s, Remainder(k)) < q.right
  {
    var l: nat, r: nat := q.left, q.right;
    TextDigits(l / r);
    QuotientSign(l, r);
  }

  /** The chain of one step: the remainder above with the brought digit, less the product, is the remainder below. */
  lemma {:induction false} DivisionChain(q: Question, s: Settings, k: nat)
    requires Workable(q, s) && q.right > 0 && 0 < k < StepCount(q.left, q.right)
    ensures 10 * TrueValue(q, s, Remainder(k - 1)) + TrueValue(q, s, Bring(k)) - TrueValue(q, s, Product(k))
         == TrueValue(q, s, Remainder(k))
  {
    var l: nat, r: nat := q.left, q.right;
    var j := StepCount(l, r) - 1 - k;
    StepTrueValues(q, s, j, k);
    StepTrueValues(q, s, j + 1, k - 1);
    StepValues(l, r, j, 10 * (High(l, j + 1) % r) + DigitAt(l, j));
    RemainderOf(10 * (High(l, j + 1) % r) + DigitAt(l, j), r);
  }

  lemma {:induction false} HighAtMost(n: nat, k: nat)
    ensures High(n, k) <= n
  {
    if k > 0 {
      HighAtMost(n / 10, k - 1);
    }
  }

  lemma {:induction false} StepFits(l: nat, r: nat, k: nat)
    requires r > 0 && k < StepCount(l, r)
    ensures QuotientDigit(l, r, k) * r <= l
    ensures Prefix(l, r, k) % r <= l
  {
    var j := StepCount(l, r) - 1 - k;
    HighAtMost(l, j);
    HighQuotient(l, r, j);
    ProductBelow(Prefix(l, r, k), r);
  }

  lemma {:induction false} ProductBelow(p: nat, r: nat)
    requires r > 0
    ensures p / r % 10 * r <= p && p % r <= p
  {
    RemainderOf(p, r);
    QuotientSign(p, r);
    MulLe(p / r % 10, p / r, r);
    MulLe(0, p / r, r);
  }

  /** Every division value fits the field it is asked for in. */
  lemma {:induction false} DivisionValuesFit(q: Question, s: Settings, k: nat)
    requires Workable(q, s) && q.right > 0 && k < StepCount(q.left, q.right)
    ensures TrueValue(q, s, Product(k)) >= 0 && NumDigits(TrueValue(q, s, Product(k))) <= OperandWidth(q)
    ensures TrueValue(q, s, Remainder(k)) >= 0 && NumDigits(TrueValue(q, s, Remainder(k))) <= OperandWidth(q)
    ensures TrueValue(q, s, Bring(k)) < 10
  {
    StepFits(q.left, q.right, k);
    NumDigitsMonotone(QuotientDigit(q.left, q.right, k) * q.right, q.left);
    NumDigitsMonotone(Prefix(q.left, q.right, k) % q.right, q.left);
  }

  // ---------------------------------------------------------------- the field list

  ghost predicate DistinctKeys(fields: seq<Field>) {
    forall i, j :: 0 <= i < j < |fields| ==> fields[i].key != fields[j].key
  }

  lemma {:induction false} AppendKeys(a: seq<Field>, b: seq<Field>)
    ensures KeysOf(a + b) == KeysOf(a) + KeysOf(b)
    ensures DistinctKeys(a) && DistinctKeys(b) && KeysOf(a) !! KeysOf(b) ==> DistinctKeys(a + b)
  {
    if DistinctKeys(a) && DistinctKeys(b) && KeysOf(a) !! KeysOf(b) {
      forall i, j | 0 <= i < j < |a + b| ensures (a + b)[i].key != (a + b)[j].key {
        if i < |a| <= j {
          assert a[i].key in KeysOf(a) && b[j - |a|].key in KeysOf(b);
        }
      }
    }
  }

  lemma {:induction false} RowKeys(row: nat, w: nat)
    ensures DistinctKeys(RowFields(row, w, w))
    ensures forall k :: k in KeysOf(RowFields(row, w, w)) <==> k.MulCarry? && k.row == row && k.j < w
  {
    forall k: Key | k.MulCarry? && k.row == row && k.j < w ensures k in KeysOf(RowFields(row, w, w)) {
      assert RowFields(row, w, w)[k.j].key == k;
    }
  }

  lemma {:induction false} StepKeys(w: nat, full: bool, step: nat)
    ensures DistinctKeys(StepFields(w, full, step))
    ensures forall k :: k in KeysOf(StepFields(w, full, step)) <==>
              (k == Bring(step) && full && step > 0) || k == Product(step) || k == Remainder(step)
  {
    var f := StepFields(w, full, step);
    assert f[|f| - 2].key == Product(step) && f[|f| - 1].key == Remainder(step);
    assert full && step > 0 ==> f[0].key == Bring(step);
  }

  predicate IsRowKey(k: Key, w: nat, rows: nat) {
    match k
    case MulCarry(i, j) => i < rows && j < w
    case Partial(i) => i < rows
    case _ => false
  }

  predicate IsStepKey(k: Key, full: bool, steps: nat) {
    match k
    case Bring(i) => full && 0 < i < steps
    case Product(i) => i < steps
    case Remainder(i) => i < steps
    case _ => false
  }

  lemma {:induction false} ProductKeys(w: nat, rows: nat)
    ensures DistinctKeys(ProductFields(w, rows))
    ensures forall k :: k in KeysOf(ProductFields(w, rows)) <==> IsRowKey(k, w, rows)
  {
    if rows > 0 {
      ProductKeys(w, rows - 1);
      RowKeys(rows - 1, w);
      var above, row, last := ProductFields(w, rows - 1), RowFields(rows - 1, w, w), [Field(Partial(rows - 1), w + 1, rows - 1)];
      AppendKeys(above, row);
      AppendKeys(above + row, last);
      assert KeysOf(last) == {last[0].key};
    }
  }

  lemma {:induction false} DivisionKeys(w: nat, full: bool, steps: nat)
    ensures DistinctKeys(DivisionFields(w, full, steps))
    ensures forall k :: k in KeysOf(DivisionFields(w, full, steps)) <==> IsStepKey(k, full, steps)
  {
    if steps > 0 {
      DivisionKeys(w, full, steps - 1);
      StepKeys(w, full, steps - 1);
      AppendKeys(DivisionFields(w, full, steps - 1), StepFields(w, full, steps - 1));
    }
  }

  /** Which keys the work of a question has. */
  ghost predicate IsWorkKey(q: Question, s: Settings, k: Key)
    requires Workable(q, s)
  {
    s.level.Columnar? &&
    match s.operation
    case Plus => k.Carry? && k.i < OperandWidth(q)
    case Minus => k.Carry? && k.i < OperandWidth(q)
    case Multiply => IsRowKey(k, PrintedWidth(q.left), RowCount(q.right))
    case Divide =>
      !s.divisionMode.ResultOnly? && IsStepKey(k, s.divisionMode.Full?, StepCount(q.left, q.right))
    case OtherOperation => false
  }

  /** No field is asked for twice, and the keys are exactly those of the method of work. */
  lemma {:induction false} FieldKeys(q: Question, s: Settings)
    requires Workable(q, s)
    ensures DistinctKeys(Fields(q, s))
    ensures forall k :: k in KeysOf(Fields(q, s)) <==> k == Answer || IsWorkKey(q, s, k)
    ensures Expected(q, s).Keys == KeysOf(Fields(q, s))
  {
    var work := WorkFields(q, s);
    assert DistinctKeys(work) && forall k :: k in KeysOf(work) <==> IsWorkKey(q, s, k) by {
      if s.level.Columnar? {
        match s.operation {
          case Plus => CarryKeys(OperandWidth(q));
          case Minus => CarryKeys(OperandWidth(q));
          case Multiply => ProductKeys(PrintedWidth(q.left), RowCount(q.right));
          case Divide => DivisionKeys(OperandWidth(q), s.divisionMode.Full?, StepCount(q.left, q.right));
          case OtherOperation =>
        }
      }
    }
    var last := Fields(q, s)[|work|];
    assert Fields(q, s) == work + [last];
    assert KeysOf(work + [last]) == KeysOf(work) + {Answer};
    forall i | 0 <= i < |work| ensures work[i].key != Answer {
      assert work[i].key in KeysOf(work);
    }
  }

  lemma {:induction false} CarryKeys(n: nat)
    ensures DistinctKeys(CarryFields(n))
    ensures forall k :: k in KeysOf(CarryFields(n)) <==> k.Carry? && k.i < n
  {
    forall i: nat | i < n ensures Carry(i) in KeysOf(CarryFields(n)) {
      assert CarryFields(n)[i].key == Carry(i);
    }
  }
}
