/**
 What a child sees on the notebook page, read off its cells: every digit and every carry stands in the
 column of its decimal place, every division step under the digit it brings down, and the visiting order
 works through rows and steps in turn, each number from its units on.
 */
module PageLaws {
  import opened Decimal
  import opened MathTypes
  import opened MathWork
  import opened ColumnLayout
  import opened PageTheorems

  /** The cells of the page. */
  function Cells(q: Question, s: Settings): seq<Cell>
    requires Columnable(q, s)
  {
    CellsOf(q, s, DrawnKeys(q, s))
  }

  /** How many digits stand after the one in this cell of a number of the given length. */
  function After(id: CellId, length: nat): int {
    length - 1 - id.digit
  }

  /**
   The decimal place a cell is about: a digit's own place, and for a carry the place it is carried into. In a
   division the places are those of the dividend.
   */
  function DecimalPlace(q: Question, s: Settings, id: CellId): int
    requires Columnable(q, s)
  {
    match id.key
    case Carry(j) => j + 1
    case SumCarry(j) => j + 1
    case MulCarry(i, j) => i + j + 1
    case Partial(i) => i + After(id, NumDigits(Times(q.left, DigitAt(q.right, i))))
    case Bring(k) => DigitsLeft(q, k)
    case Product(k) => DigitsLeft(q, k) + After(id, NumDigits(ProductOf(q, k)))
    case Remainder(k) => DigitsLeft(q, k) + After(id, NumDigits(RemainderAt(q, k)))
    case Answer =>
      After(id, PrintedWidth(if s.operation.Plus? then q.left + q.right
                             else if s.operation.Minus? then q.left - q.right else Times(q.left, q.right)))
  }

  /** How many digits of the dividend are left to bring down after step k. */
  function DigitsLeft(q: Question, k: nat): int
    requires q.left >= 0 && q.right >= 0
  {
    if q.right == 0 then 0 else NumDigits(q.left / q.right) - 1 - k
  }

  function ProductOf(q: Question, k: nat): nat
    requires q.left >= 0 && q.right >= 0
  {
    if DigitsLeft(q, k) < 0 || q.right == 0 then 0 else Times(DigitAt(q.left / q.right, DigitsLeft(q, k)), q.right)
  }

  function RemainderAt(q: Question, k: nat): nat
    requires q.left >= 0 && q.right >= 0
  {
    if DigitsLeft(q, k) < 0 || q.right == 0 then 0 else High(q.left, DigitsLeft(q, k)) % q.right
  }

  /** The column of the units. */
  function UnitsColumn(q: Question, s: Settings): int
    requires Columnable(q, s)
  {
    var l, r := NumDigits(q.left), NumDigits(q.right);
    match s.operation
    case Plus => Max(Max(l, r), NumDigits(q.left + q.right)) + 1
    case Minus => Max(Max(l, r), PrintedWidth(q.left - q.right)) + 1
    case Multiply => l + r + 1
    case _ => l
  }

  lemma {:induction false} ProductLength(q: Question, s: Settings)
    requires Columnable(q, s) && s.operation.Multiply?
    ensures Size(q, s) == NumDigits(q.left) + NumDigits(q.right) + 1
  {
    NumDigitsProduct(q.left, q.right);
    MulLe(0, q.left, q.right);
  }

  lemma {:induction false} UnitsAtSize(q: Question, s: Settings)
    requires Columnable(q, s)
    ensures UnitsColumn(q, s) == Size(q, s)
  {
    hide NumDigits;
    if s.operation.Multiply? {
      ProductLength(q, s);
    }
  }

  lemma {:induction false} CellIs(q: Question, s: Settings, c: Cell)
    requires Columnable(q, s) && c in Cells(q, s)
    ensures IsDrawn(q, s, c.id.key)
    ensures c == CellAt(c.id.key, PlaceOf(q, s, c.id.key), c.id.digit)
    ensures c.id.digit < PlaceOf(q, s, c.id.key).width
  {
    hide PlaceOf, IsDrawn;
    Drawn(q, s);
    CellsAre(q, s, DrawnKeys(q, s));
  }

  /** In a sum or difference every digit and every carry stands in the column of its decimal place. */
  lemma {:induction false} SumAligned(q: Question, s: Settings, c: Cell)
    requires Columnable(q, s) && Arithmetic(s) && c in Cells(q, s)
    ensures c.col + DecimalPlace(q, s, c.id) == UnitsColumn(q, s)
    ensures c.row == if c.id.key == Answer then 4 else 1
  {
    hide NumDigits, IsDrawn;
    CellIs(q, s, c);
    UnitsAtSize(q, s);
    hide UnitsColumn, Cells, Size;
    assert c.id.key.Carry? || c.id.key == Answer by { SumKeys(q, s, c.id.key); }
  }

  lemma {:induction false} SumKeys(q: Question, s: Settings, k: Key)
    requires Columnable(q, s) && Arithmetic(s) && IsDrawn(q, s, k)
    ensures k.Carry? || k == Answer
  {
  }

  /** The same in a product, whose rows are each shifted by one place against the one above. */
  lemma {:induction false} ProductAligned(q: Question, s: Settings, c: Cell)
    requires Columnable(q, s) && s.operation.Multiply? && c in Cells(q, s)
    ensures c.col + DecimalPlace(q, s, c.id) == UnitsColumn(q, s)
    ensures c.row == match c.id.key
                     case MulCarry(i, _) => 3 + 3 * i
                     case Partial(i) => 4 + 3 * i
                     case SumCarry(_) => 3 * NumDigits(q.right) + 2
                     case _ => 3 * NumDigits(q.right) + 3
  {
    hide NumDigits, IsDrawn, DigitAt;
    CellIs(q, s, c);
    UnitsAtSize(q, s);
    ProductKeysOnly(q, s, c.id.key);
    hide UnitsColumn, Cells, Size;
    assert Measured(q, s) == Times(q.left, q.right);
  }

  lemma {:induction false} ProductKeysOnly(q: Question, s: Settings, k: Key)
    requires Columnable(q, s) && s.operation.Multiply? && IsDrawn(q, s, k)
    ensures k.MulCarry? || k.Partial? || k.SumCarry? || k == Answer
  {
  }

  /**
   In a division the digit brought down, and the last digits of product and remainder, stand under the digit of
   the dividend that the step brings down; the quotient is written left to right beside the dividend.
   */
  lemma {:induction false} DivisionAligned(q: Question, s: Settings, c: Cell)
    requires Columnable(q, s) && s.operation.Divide? && c in Cells(q, s)
    ensures c.id.key != Answer ==> c.col + DecimalPlace(q, s, c.id) == UnitsColumn(q, s)
    ensures c.id.key == Answer ==> c.col == UnitsColumn(q, s) + 2 + c.id.digit
    ensures c.row == match c.id.key
                     case Bring(k) => 1 + 3 * k
                     case Product(k) => 2 + 3 * k
                     case Remainder(k) => 3 + 3 * k
                     case _ => 2
  {
    hide NumDigits, IsDrawn, DigitAt, TrueValue, High;
    CellIs(q, s, c);
    UnitsAtSize(q, s);
    if c.id.key != Answer {
      DivisionKeysOnly(q, s, c.id.key);
      StepPlace(q, s, c.id.key.step);
    }
  }

  lemma {:induction false} DivisionKeysOnly(q: Question, s: Settings, k: Key)
    requires Columnable(q, s) && s.operation.Divide? && IsDrawn(q, s, k) && k != Answer
    ensures (k.Bring? || k.Product? || k.Remainder?) && k.step < StepCount(q.left, q.right)
  {
  }

  lemma {:induction false} StepPlace(q: Question, s: Settings, k: nat)
    requires Columnable(q, s) && s.operation.Divide? && k < StepCount(q.left, q.right)
    ensures StepEnd(q, k) == NumDigits(q.left) - DigitsLeft(q, k) && DigitsLeft(q, k) >= 0
    ensures TrueValue(q, s, Product(k)) == ProductOf(q, k) >= 0
    ensures TrueValue(q, s, Remainder(k)) == RemainderAt(q, k) >= 0
  {
    hide NumDigits, DigitAt, High;
    MulLe(0, QuotientDigit(q.left, q.right, k), q.right);
  }

  /** Carries may be left blank, those of sums and the memo marks are dots, and no others are. */
  lemma {:induction false} CellKinds(q: Question, s: Settings, c: Cell)
    requires Columnable(q, s) && c in Cells(q, s)
    ensures c.carry <==> c.id.key.Carry? || c.id.key.MulCarry? || c.id.key.SumCarry?
    ensures c.dot <==> c.id.key.Carry? || c.id.key.SumCarry?
    ensures c.memo <==> c.id.key.SumCarry?
  {
    hide PlaceOf, IsDrawn;
    CellIs(q, s, c);
  }

  // ---------------------------------------------------------------- the visiting order

  /** When a cell's turn comes: the row or step, what is done in it, and the place of the digit. */
  datatype Moment = Moment(turn: int, phase: int, place: int)

  predicate Earlier(a: Moment, b: Moment) {
    || a.turn < b.turn
    || (a.turn == b.turn && (a.phase < b.phase || (a.phase == b.phase && a.place < b.place)))
  }

  /**
   Sums and differences are typed from the units on. In a product each row is, every digit before the carry
   that it hands on, then the answer. A division goes step by step: the digit brought down, the quotient's
   digit, product and remainder.
   */
  function When(q: Question, s: Settings, id: CellId): Moment
    requires Columnable(q, s)
  {
    match id.key
    case Answer =>
      if s.operation.Divide? then Moment(id.digit, 1, 0)
      else if s.operation.Multiply? then Moment(NumDigits(q.right), 2 * DecimalPlace(q, s, id), 0)
      else Moment(0, 0, DecimalPlace(q, s, id))
    case Partial(i) => Moment(i, 2 * (DecimalPlace(q, s, id) - i), 0)
    case MulCarry(i, j) => Moment(i, 2 * j + 1, 0)
    case Bring(k) => Moment(k, 0, 0)
    case Product(k) => Moment(k, 2, DecimalPlace(q, s, id))
    case Remainder(k) => Moment(k, 3, DecimalPlace(q, s, id))
    case _ => Moment(0, 0, 0)
  }

  ghost predicate InTurn(q: Question, s: Settings, order: seq<CellId>)
    requires Columnable(q, s)
  {
    forall a, b :: 0 <= a < b < |order| ==> Earlier(When(q, s, order[a]), When(q, s, order[b]))
  }

  lemma {:induction false} InTurnAppend(q: Question, s: Settings, x: seq<CellId>, y: seq<CellId>)
    requires Columnable(q, s) && InTurn(q, s, x) && InTurn(q, s, y)
    requires forall a, b :: 0 <= a < |x| && 0 <= b < |y| ==> Earlier(When(q, s, x[a]), When(q, s, y[b]))
    ensures InTurn(q, s, x + y)
  {
    hide When, Earlier;
  }

  lemma {:induction false} ReverseIds(key: Key, n: nat)
    ensures |Reverse(IdsOf(key, n))| == n
    ensures forall i :: 0 <= i < n ==> Reverse(IdsOf(key, n))[i] == CellId(key, n - 1 - i)
  {
    ReverseLength(IdsOf(key, n));
    forall i | 0 <= i < n ensures Reverse(IdsOf(key, n))[i] == CellId(key, n - 1 - i) {
      ReverseAt(IdsOf(key, n), i);
    }
  }

  /** The cells of a row up to column j, in the order typed. */
  lemma {:induction false} RowInTurn(q: Question, s: Settings, i: nat, n: nat, w: nat, j: nat)
    requires Columnable(q, s) && j <= w && n == NumDigits(Times(q.left, DigitAt(q.right, i)))
    ensures var row := RowOrder(i, Reverse(IdsOf(Partial(i), n)), w, j);
            && InTurn(q, s, row)
            && forall a :: 0 <= a < |row| ==> When(q, s, row[a]).turn == i && 0 <= When(q, s, row[a]).phase < 2 * j
  {
    hide NumDigits, Times, DigitAt;
    var digits := Reverse(IdsOf(Partial(i), n));
    ReverseIds(Partial(i), n);
    if j > 0 {
      RowInTurn(q, s, i, n, w, j - 1);
      var before := RowOrder(i, digits, w, j - 1);
      var d := if j - 1 < |digits| then [digits[j - 1]] else [];
      var c := if j < w then [CellId(MulCarry(i, j - 1), 0)] else [];
      InTurnAppend(q, s, before, d);
      InTurnAppend(q, s, before + d, c);
    }
  }

  lemma {:induction false} ProductRowInTurn(q: Question, s: Settings, i: nat)
    requires Columnable(q, s)
    ensures InTurn(q, s, ProductRowOrder(q, i))
    ensures forall a :: 0 <= a < |ProductRowOrder(q, i)| ==> When(q, s, ProductRowOrder(q, i)[a]).turn == i
  {
    hide NumDigits, Times, DigitAt, PrintedWidth;
    var w, n := PrintedWidth(q.left), NumDigits(Times(q.left, DigitAt(q.right, i)));
    var digits := PartialOrder(q, i);
    ReverseIds(Partial(i), n);
    RowInTurn(q, s, i, n, w, w);
    var rest := if |digits| > w then digits[w..] else [];
    InTurnAppend(q, s, RowOrder(i, digits, w, w), rest);
  }

  lemma {:induction false} RowsInTurn(q: Question, s: Settings, rows: nat)
    requires Columnable(q, s)
    ensures InTurn(q, s, ProductOrder(q, rows))
    ensures forall a :: 0 <= a < |ProductOrder(q, rows)| ==> 0 <= When(q, s, ProductOrder(q, rows)[a]).turn < rows
  {
    hide ProductRowOrder, When;
    if rows > 0 {
      RowsInTurn(q, s, rows - 1);
      ProductRowInTurn(q, s, rows - 1);
      InTurnAppend(q, s, ProductOrder(q, rows - 1), ProductRowOrder(q, rows - 1));
    }
  }

  lemma {:induction false} StepInTurn(q: Question, s: Settings, k: nat)
    requires Columnable(q, s) && s.operation.Divide? && k < StepCount(q.left, q.right)
    ensures InTurn(q, s, StepOrder(q, s, k))
    ensures forall a :: 0 <= a < |StepOrder(q, s, k)| ==> When(q, s, StepOrder(q, s, k)[a]).turn == k
  {
    hide NumDigits, TrueValue, DigitsLeft, ProductOf, RemainderAt, StepCount;
    StepPlace(q, s, k);
    var bring := if s.divisionMode.Full? && k > 0 then [CellId(Bring(k), 0)] else [];
    var answer := [CellId(Answer, k)];
    var product := Reverse(IdsOf(Product(k), PrintedWidth(TrueValue(q, s, Product(k)))));
    var remainder := Reverse(IdsOf(Remainder(k), PrintedWidth(TrueValue(q, s, Remainder(k)))));
    ReverseIds(Product(k), |product|);
    ReverseIds(Product(k), PrintedWidth(TrueValue(q, s, Product(k))));
    ReverseIds(Remainder(k), PrintedWidth(TrueValue(q, s, Remainder(k))));
    InTurnAppend(q, s, bring, answer);
    InTurnAppend(q, s, bring + answer, product);
    InTurnAppend(q, s, bring + answer + product, remainder);
  }

  lemma {:induction false} StepsInTurn(q: Question, s: Settings, steps: nat)
    requires Columnable(q, s) && s.operation.Divide? && steps <= StepCount(q.left, q.right)
    ensures InTurn(q, s, StepsOrder(q, s, steps))
    ensures forall a :: 0 <= a < |StepsOrder(q, s, steps)| ==> 0 <= When(q, s, StepsOrder(q, s, steps)[a]).turn < steps
  {
    hide StepOrder, When;
    if steps > 0 {
      StepsInTurn(q, s, steps - 1);
      StepInTurn(q, s, steps - 1);
      InTurnAppend(q, s, StepsOrder(q, s, steps - 1), StepOrder(q, s, steps - 1));
    }
  }

  /** The cells are visited in turn, which with VisitedExactlyOnce leaves no other order. */
  lemma {:induction false} VisitedInTurn(q: Question, s: Settings)
    requires Columnable(q, s)
    ensures InTurn(q, s, Order(q, s))
  {
    hide NumDigits, Times, ProductRowOrder, StepOrder, TrueValue;
    if s.operation.Divide? {
      if s.divisionMode.ResultOnly? || q.left < q.right {
      } else {
        StepsInTurn(q, s, StepCount(q.left, q.right));
      }
    } else {
      ReverseIds(Answer, PrintedWidth(Measured(q, s)));
      if s.operation.Multiply? {
        MultiplyInTurn(q, s);
      }
    }
  }

  lemma {:induction false} MultiplyInTurn(q: Question, s: Settings)
    requires Columnable(q, s) && s.operation.Multiply?
    ensures InTurn(q, s, Order(q, s))
  {
    hide NumDigits, Times, ProductRowOrder, PrintedWidth;
    var n := PrintedWidth(Measured(q, s));
    var answer := Reverse(IdsOf(Answer, n));
    ReverseIds(Answer, n);
    RowsInTurn(q, s, RowCount(q.right));
    RowsAtMost(q.right);
    MeasuredProduct(q, s);
    InTurnAppend(q, s, ProductOrder(q, RowCount(q.right)), answer);
    assert ProductOrder(q, RowCount(q.right)) + [] == ProductOrder(q, RowCount(q.right));
  }

  lemma {:induction false} RowsAtMost(r: nat)
    ensures RowCount(r) <= NumDigits(r)
  {
  }

  lemma {:induction false} MeasuredProduct(q: Question, s: Settings)
    requires Columnable(q, s) && s.operation.Multiply?
    ensures Measured(q, s) == Times(q.left, q.right)
  {
  }
}
