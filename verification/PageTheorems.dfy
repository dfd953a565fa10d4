/**
 The notebook page is usable for every columnar question: each cell lies inside the grid, no two
 cells share a square, and the visiting order passes each cell to be typed into exactly once.
 */
module PageTheorems {
  import opened Decimal
  import opened MathTypes
  import opened MathWork
  import opened WorkTheorems
  import opened ColumnLayout

  /** Which fields have cells on the page. */
  ghost predicate IsDrawn(q: Question, s: Settings, k: Key)
    requires Columnable(q, s)
  {
    if Arithmetic(s) then k == Answer || (k.Carry? && k.i < Size(q, s) - 2)
    else if s.operation.Multiply? then
      match k
      case MulCarry(i, j) => i < RowCount(q.right) && j < PrintedWidth(q.left) - 1
      case Partial(i) => i < RowCount(q.right)
      case SumCarry(j) => PrintedWidth(q.right) > 1 && j < PrintedWidth(Measured(q, s)) - 1
      case Answer => PrintedWidth(q.right) > 1
      case _ => false
    else
      k == Answer || (!s.divisionMode.ResultOnly? && IsStepKey(k, s.divisionMode.Full?, StepCount(q.left, q.right)))
  }

  ghost predicate NoDup<T>(s: seq<T>) {
    forall i, j :: 0 <= i < j < |s| ==> s[i] != s[j]
  }

  lemma {:induction false} NoDupAppend<T>(a: seq<T>, b: seq<T>)
    requires NoDup(a) && NoDup(b) && forall x :: x in a ==> x !in b
    ensures NoDup(a + b)
  {
    forall i, j | 0 <= i < j < |a + b| ensures (a + b)[i] != (a + b)[j] {
      if i < |a| <= j {
        assert a[i] in a && b[j - |a|] in b;
      }
    }
  }

  lemma {:induction false} DrawnRow(i: nat, n: nat)
    ensures NoDup(DrawnRowKeys(i, n))
    ensures forall k :: k in DrawnRowKeys(i, n) <==> k.MulCarry? && k.row == i && k.j < n
  {
    forall k: Key | k.MulCarry? && k.row == i && k.j < n ensures k in DrawnRowKeys(i, n) {
      assert DrawnRowKeys(i, n)[k.j] == k;
    }
  }

  lemma {:induction false} DrawnRows(w: nat, rows: nat)
    requires w > 0
    ensures NoDup(ProductRowKeys(w, rows))
    ensures forall k :: k in ProductRowKeys(w, rows) <==>
              (k.MulCarry? && k.row < rows && k.j < w - 1) || (k.Partial? && k.row < rows)
  {
    if rows > 0 {
      DrawnRows(w, rows - 1);
      DrawnRow(rows - 1, w - 1);
      NoDupAppend(ProductRowKeys(w, rows - 1), [Partial(rows - 1)]);
      NoDupAppend(ProductRowKeys(w, rows - 1) + [Partial(rows - 1)], DrawnRowKeys(rows - 1, w - 1));
    }
  }

  lemma {:induction false} DrawnSteps(full: bool, steps: nat)
    ensures NoDup(DrawnDivisionKeys(full, steps))
    ensures forall k :: k in DrawnDivisionKeys(full, steps) <==> IsStepKey(k, full, steps)
  {
    if steps > 0 {
      DrawnSteps(full, steps - 1);
      NoDupAppend(DrawnDivisionKeys(full, steps - 1), DrawnStepKeys(full, steps - 1));
    }
  }

  lemma {:induction false} DrawnCarries(n: nat)
    ensures NoDup(DrawnCarryKeys(n)) && NoDup(SumCarryKeys(n))
    ensures forall k :: k in DrawnCarryKeys(n) <==> k.Carry? && k.i < n
    ensures forall k :: k in SumCarryKeys(n) <==> k.SumCarry? && k.j < n
  {
    forall k: Key | k.Carry? && k.i < n ensures k in DrawnCarryKeys(n) {
      assert DrawnCarryKeys(n)[k.i] == k;
    }
    forall k: Key | k.SumCarry? && k.j < n ensures k in SumCarryKeys(n) {
      assert SumCarryKeys(n)[k.j] == k;
    }
  }

  /** Every field is drawn at most once, and exactly the fields of IsDrawn are. */
  lemma {:induction false} Drawn(q: Question, s: Settings)
    requires Columnable(q, s)
    ensures NoDup(DrawnKeys(q, s))
    ensures forall k :: k in DrawnKeys(q, s) <==> IsDrawn(q, s, k)
  {
    if Arithmetic(s) {
      DrawnCarries(Size(q, s) - 2);
      NoDupAppend(DrawnCarryKeys(Size(q, s) - 2), [Answer]);
    } else if s.operation.Multiply? {
      var rows := ProductRowKeys(PrintedWidth(q.left), RowCount(q.right));
      var n := PrintedWidth(Measured(q, s)) - 1;
      DrawnRows(PrintedWidth(q.left), RowCount(q.right));
      DrawnCarries(n);
      if PrintedWidth(q.right) > 1 {
        NoDupAppend(SumCarryKeys(n), [Answer]);
        NoDupAppend(rows, SumCarryKeys(n) + [Answer]);
      } else {
        assert rows + [] == rows;
      }
    } else {
      DrawnSteps(s.divisionMode.Full?, StepCount(q.left, q.right));
      NoDupAppend([Answer], DrawnDivisionKeys(s.divisionMode.Full?, StepCount(q.left, q.right)));
      assert [Answer] + [] == [Answer];
    }
  }

  /** The cells of the given fields are their digits at the fields' places. */
  lemma {:induction false} CellsAre(q: Question, s: Settings, keys: seq<Key>)
    requires Columnable(q, s)
    ensures forall c :: c in CellsOf(q, s, keys) <==>
              && c.id.key in keys
              && c.id.digit < PlaceOf(q, s, c.id.key).width
              && c == CellAt(c.id.key, PlaceOf(q, s, c.id.key), c.id.digit)
  {
    hide PlaceOf;
    if keys != [] {
      var rest, key := keys[..|keys| - 1], keys[|keys| - 1];
      CellsAre(q, s, rest);
      var own := CellsAt(key, PlaceOf(q, s, key));
      forall c: Cell | c.id.key == key && c.id.digit < PlaceOf(q, s, key).width
                       && c == CellAt(key, PlaceOf(q, s, key), c.id.digit)
        ensures c in own
      {
        assert own[c.id.digit] == c;
      }
      assert keys == rest + [key];
    }
  }

  // ---------------------------------------------------------------- the grid

  /** The columns of the page's grid; the column before the first digit is left for signs. */
  function Columns(q: Question, s: Settings): int
    requires Columnable(q, s)
  {
    if s.operation.Divide? then Size(q, s) + NumDigits(q.left / q.right) + 3 else Size(q, s) + 1
  }

  lemma {:induction false} PartialWidth(q: Question, i: nat)
    requires q.left >= 0 && q.right >= 0
    ensures NumDigits(Times(q.left, DigitAt(q.right, i))) <= PrintedWidth(q.left) + 1
  {
    LastMulCarry(q.left, DigitAt(q.right, i));
  }

  /** What a step writes is not longer than what stands above it. */
  lemma {:induction false} StepWidth(q: Question, s: Settings, k: nat)
    requires Columnable(q, s) && s.operation.Divide? && k < StepCount(q.left, q.right)
    ensures 1 <= StepEnd(q, k) <= PrintedWidth(q.left)
    ensures 1 <= PrintedWidth(TrueValue(q, s, Product(k))) <= StepEnd(q, k)
    ensures 1 <= PrintedWidth(TrueValue(q, s, Remainder(k))) <= StepEnd(q, k)
  {
    var l: nat, r: nat := q.left, q.right;
    var j := StepCount(l, r) - 1 - k;
    StepTrueValues(q, s, j, k);
    HighQuotient(l, r, j);
    HighOfQuotient(l, r, j);
    NumDigitsHigh(l, j);
    var p := Prefix(l, r, k);
    ProductBelow(p, r);
    StepFits(l, r, k);
    NumDigitsMonotone(QuotientDigit(l, r, k) * r, p);
    NumDigitsMonotone(p % r, p);
  }

  /** The part above the last step that still counts is not empty. */
  lemma {:induction false} HighOfQuotient(l: nat, r: nat, j: nat)
    requires r > 0 && j < StepCount(l, r)
    ensures High(l, j) > 0
  {
    RowsLeft(l / r, j);
    QuotientSign(l, r);
    HighQuotient(l, r, j);
    QuotientSign(High(l, j), r);
  }

  /** The field's cells lie between the given columns and rows. */
  ghost predicate Fits(p: Place, rows: int, columns: int) {
    1 <= p.row <= rows && 1 <= p.end - p.width + 1 && p.end < columns
  }

  lemma {:induction false} ArithmeticFits(q: Question, s: Settings, k: Key)
    requires Columnable(q, s) && Arithmetic(s) && IsDrawn(q, s, k)
    ensures Fits(PlaceOf(q, s, k), Rows(q, s), Columns(q, s))
  {
    hide NumDigits, TrueValue;
  }

  lemma {:induction false} ProductFits(q: Question, s: Settings, k: Key)
    requires Columnable(q, s) && s.operation.Multiply? && IsDrawn(q, s, k)
    ensures Fits(PlaceOf(q, s, k), Rows(q, s), Columns(q, s))
  {
    hide NumDigits, TrueValue, High, Times;
    if k.Partial? {
      PartialWidth(q, k.row);
    }
  }

  lemma {:induction false} DivisionFits(q: Question, s: Settings, k: Key)
    requires Columnable(q, s) && s.operation.Divide? && IsDrawn(q, s, k)
    ensures Fits(PlaceOf(q, s, k), Rows(q, s), Columns(q, s))
  {
    hide TrueValue, Measured;
    if k != Answer {
      StepWidth(q, s, k.step);
    }
  }

  /** Every cell of every page lies inside the grid. */
  lemma {:induction false} InsideGrid(q: Question, s: Settings, c: Cell)
    requires Columnable(q, s) && c in CellsOf(q, s, DrawnKeys(q, s))
    ensures 1 <= c.row <= Rows(q, s)
    ensures 1 <= c.col < Columns(q, s)
  {
    hide PlaceOf, Rows, Columns;
    Drawn(q, s);
    CellsAre(q, s, DrawnKeys(q, s));
    if Arithmetic(s) {
      ArithmeticFits(q, s, c.id.key);
    } else if s.operation.Multiply? {
      ProductFits(q, s, c.id.key);
    } else {
      DivisionFits(q, s, c.id.key);
    }
  }

  /** Two fields' cells keep apart: another row, or columns left or right of each other. */
  ghost predicate Apart(p: Place, r: Place) {
    p.row != r.row || p.end < r.end - r.width + 1 || r.end < p.end - p.width + 1
  }

  lemma {:induction false} ArithmeticApart(q: Question, s: Settings, k: Key, j: Key)
    requires Columnable(q, s) && Arithmetic(s) && IsDrawn(q, s, k) && IsDrawn(q, s, j) && k != j
    ensures Apart(PlaceOf(q, s, k), PlaceOf(q, s, j))
  {
    hide NumDigits, PrintedWidth;
  }

  lemma {:induction false} ProductApart(q: Question, s: Settings, k: Key, j: Key)
    requires Columnable(q, s) && s.operation.Multiply? && IsDrawn(q, s, k) && IsDrawn(q, s, j) && k != j
    ensures Apart(PlaceOf(q, s, k), PlaceOf(q, s, j))
  {
    hide NumDigits, Times, Size;
  }

  lemma {:induction false} DivisionApart(q: Question, s: Settings, k: Key, j: Key)
    requires Columnable(q, s) && s.operation.Divide? && IsDrawn(q, s, k) && IsDrawn(q, s, j) && k != j
    ensures Apart(PlaceOf(q, s, k), PlaceOf(q, s, j))
  {
    hide NumDigits, TrueValue, Measured;
    if k.Product? {
      StepWidth(q, s, k.step);
    }
    if j.Product? {
      StepWidth(q, s, j.step);
    }
  }

  /** No two cells of a page share a square. */
  lemma {:induction false} NoTwoCellsMeet(q: Question, s: Settings, a: Cell, b: Cell)
    requires Columnable(q, s)
    requires a in CellsOf(q, s, DrawnKeys(q, s)) && b in CellsOf(q, s, DrawnKeys(q, s))
    requires a.id != b.id
    ensures a.row != b.row || a.col != b.col
  {
    hide PlaceOf, IsDrawn;
    Drawn(q, s);
    CellsAre(q, s, DrawnKeys(q, s));
    var k, j := a.id.key, b.id.key;
    if k != j {
      if Arithmetic(s) {
        ArithmeticApart(q, s, k, j);
      } else if s.operation.Multiply? {
        ProductApart(q, s, k, j);
      } else {
        DivisionApart(q, s, k, j);
      }
    }
  }

  // ---------------------------------------------------------------- the visiting order

  /** How often a visiting order stops at a cell. */
  function Visits(order: seq<CellId>, id: CellId): nat {
    if order == [] then 0
    else Visits(order[..|order| - 1], id) + if order[|order| - 1] == id then 1 else 0
  }

  lemma {:induction false} VisitsAppend(a: seq<CellId>, b: seq<CellId>, id: CellId)
    ensures Visits(a + b, id) == Visits(a, id) + Visits(b, id)
  {
    if b == [] {
      assert a + b == a;
    } else {
      VisitsAppend(a, b[..|b| - 1], id);
      assert (a + b)[..|a + b| - 1] == a + b[..|b| - 1];
    }
  }

  lemma {:induction false} VisitsReverse(a: seq<CellId>, id: CellId)
    ensures Visits(Reverse(a), id) == Visits(a, id)
  {
    if a != [] {
      VisitsReverse(a[..|a| - 1], id);
      VisitsAppend([a[|a| - 1]], Reverse(a[..|a| - 1]), id);
      VisitsOne(a[|a| - 1], id);
    }
  }

  lemma {:induction false} VisitsOne(x: CellId, id: CellId)
    ensures Visits([x], id) == if x == id then 1 else 0
  {
    assert [x][..0] == [];
  }

  lemma {:induction false} VisitsIds(key: Key, n: nat, id: CellId)
    ensures Visits(IdsOf(key, n), id) == if id.key == key && id.digit < n then 1 else 0
  {
    if n > 0 {
      VisitsIds(key, n - 1, id);
      assert IdsOf(key, n)[..n - 1] == IdsOf(key, n - 1);
    }
  }

  /** Whether a product row's carries up to column j include this cell. */
  predicate RowCarry(id: CellId, i: nat, n: nat) {
    id.key.MulCarry? && id.key.row == i && id.key.j < n && id.digit == 0
  }

  lemma {:induction false} DigitVisits(digits: seq<CellId>, j: nat, id: CellId)
    requires j > 0
    ensures Visits(digits[..if j < |digits| then j else |digits|], id)
         == Visits(digits[..if j - 1 < |digits| then j - 1 else |digits|], id)
            + Visits(if j - 1 < |digits| then [digits[j - 1]] else [], id)
  {
    if j <= |digits| {
      assert digits[..j][..j - 1] == digits[..j - 1];
      VisitsOne(digits[j - 1], id);
    }
  }

  lemma {:induction false} RowOrderVisits(i: nat, digits: seq<CellId>, w: nat, j: nat, id: CellId)
    requires j <= w && w > 0
    ensures Visits(RowOrder(i, digits, w, j), id)
         == Visits(digits[..if j < |digits| then j else |digits|], id)
            + if RowCarry(id, i, if j < w then j else w - 1) then 1 else 0
  {
    if j > 0 {
      var before := RowOrder(i, digits, w, j - 1);
      var d := if j - 1 < |digits| then [digits[j - 1]] else [];
      var c := if j < w then [CellId(MulCarry(i, j - 1), 0)] else [];
      RowOrderVisits(i, digits, w, j - 1, id);
      VisitsAppend(before, d, id);
      VisitsAppend(before + d, c, id);
      VisitsOne(CellId(MulCarry(i, j - 1), 0), id);
      DigitVisits(digits, j, id);
    }
  }

  lemma {:induction false} ProductRowVisits(q: Question, i: nat, id: CellId)
    requires q.left >= 0 && q.right >= 0
    ensures Visits(ProductRowOrder(q, i), id)
         == (if id.key == Partial(i) && id.digit < NumDigits(Times(q.left, DigitAt(q.right, i))) then 1 else 0)
            + (if RowCarry(id, i, PrintedWidth(q.left) - 1) then 1 else 0)
  {
    hide NumDigits, Times;
    var w, digits := PrintedWidth(q.left), PartialOrder(q, i);
    VisitsReverse(IdsOf(Partial(i), NumDigits(Times(q.left, DigitAt(q.right, i)))), id);
    VisitsIds(Partial(i), NumDigits(Times(q.left, DigitAt(q.right, i))), id);
    RowOrderVisits(i, digits, w, w, id);
    if |digits| > w {
      assert digits == digits[..w] + digits[w..];
      VisitsAppend(digits[..w], digits[w..], id);
      VisitsAppend(RowOrder(i, digits, w, w), digits[w..], id);
    } else {
      assert digits[..|digits|] == digits;
      assert ProductRowOrder(q, i) == RowOrder(i, digits, w, w);
    }
  }

  lemma {:induction false} ProductVisits(q: Question, rows: nat, id: CellId)
    requires q.left >= 0 && q.right >= 0
    ensures Visits(ProductOrder(q, rows), id)
         == if id.key.Partial? && id.key.row < rows
               && id.digit < NumDigits(Times(q.left, DigitAt(q.right, id.key.row))) then 1
            else if id.key.MulCarry? && id.key.row < rows && RowCarry(id, id.key.row, PrintedWidth(q.left) - 1) then 1
            else 0
  {
    hide NumDigits, Times, ProductRowOrder, PrintedWidth;
    if rows > 0 {
      ProductVisits(q, rows - 1, id);
      ProductRowVisits(q, rows - 1, id);
      VisitsAppend(ProductOrder(q, rows - 1), ProductRowOrder(q, rows - 1), id);
    }
  }

  predicate StepCell(q: Question, s: Settings, id: CellId, steps: nat)
    requires Columnable(q, s)
  {
    match id.key
    case Bring(k) => s.divisionMode.Full? && 0 < k < steps && id.digit == 0
    case Product(k) => k < steps && id.digit < PrintedWidth(TrueValue(q, s, id.key))
    case Remainder(k) => k < steps && id.digit < PrintedWidth(TrueValue(q, s, id.key))
    case Answer => id.digit < steps
    case _ => false
  }

  lemma {:induction false} StepVisits(q: Question, s: Settings, k: nat, id: CellId)
    requires Columnable(q, s)
    ensures Visits(StepOrder(q, s, k), id)
         == (if StepCell(q, s, id, k + 1) then 1 else 0) - (if StepCell(q, s, id, k) then 1 else 0)
  {
    hide TrueValue, NumDigits, PrintedWidth;
    var bring := if s.divisionMode.Full? && k > 0 then [CellId(Bring(k), 0)] else [];
    var product := IdsOf(Product(k), PrintedWidth(TrueValue(q, s, Product(k))));
    var remainder := IdsOf(Remainder(k), PrintedWidth(TrueValue(q, s, Remainder(k))));
    VisitsAppend(bring, [CellId(Answer, k)], id);
    VisitsAppend(bring + [CellId(Answer, k)], Reverse(product), id);
    VisitsAppend(bring + [CellId(Answer, k)] + Reverse(product), Reverse(remainder), id);
    VisitsOne(CellId(Bring(k), 0), id);
    VisitsOne(CellId(Answer, k), id);
    VisitsReverse(product, id);
    VisitsReverse(remainder, id);
    VisitsIds(Product(k), |product|, id);
    VisitsIds(Remainder(k), |remainder|, id);
  }

  lemma {:induction false} StepsVisits(q: Question, s: Settings, steps: nat, id: CellId)
    requires Columnable(q, s)
    ensures Visits(StepsOrder(q, s, steps), id) == if StepCell(q, s, id, steps) then 1 else 0
  {
    hide TrueValue, PrintedWidth, StepOrder;
    if steps > 0 {
      StepsVisits(q, s, steps - 1, id);
      StepVisits(q, s, steps - 1, id);
      VisitsAppend(StepsOrder(q, s, steps - 1), StepOrder(q, s, steps - 1), id);
    }
  }

  /** Whether a cell of the page is to be typed into. */
  ghost predicate Typed(q: Question, s: Settings, id: CellId)
    requires Columnable(q, s)
  {
    IsDrawn(q, s, id.key) && !IsDot(id.key) && id.digit < PlaceOf(q, s, id.key).width
  }

  lemma {:induction false} ArithmeticOrderVisits(q: Question, s: Settings, id: CellId)
    requires Columnable(q, s) && Arithmetic(s)
    ensures Visits(Order(q, s), id) == if Typed(q, s, id) then 1 else 0
  {
    hide NumDigits, PrintedWidth;
    VisitsReverse(IdsOf(Answer, PrintedWidth(Measured(q, s))), id);
    VisitsIds(Answer, PrintedWidth(Measured(q, s)), id);
  }

  lemma {:induction false} ProductOrderVisits(q: Question, s: Settings, id: CellId)
    requires Columnable(q, s) && s.operation.Multiply?
    ensures Visits(Order(q, s), id) == if Typed(q, s, id) then 1 else 0
  {
    hide NumDigits, PrintedWidth, Times, RowCount;
    var rows := ProductOrder(q, RowCount(q.right));
    var answer := IdsOf(Answer, PrintedWidth(Measured(q, s)));
    ProductVisits(q, RowCount(q.right), id);
    if PrintedWidth(q.right) > 1 {
      VisitsReverse(answer, id);
      VisitsIds(Answer, PrintedWidth(Measured(q, s)), id);
      VisitsAppend(rows, Reverse(answer), id);
    } else {
      assert Order(q, s) == rows;
    }
  }

  lemma {:induction false} DivisionOrderVisits(q: Question, s: Settings, id: CellId)
    requires Columnable(q, s) && s.operation.Divide?
    ensures Visits(Order(q, s), id) == if Typed(q, s, id) then 1 else 0
  {
    hide TrueValue, PrintedWidth;
    if s.divisionMode.ResultOnly? {
      VisitsIds(Answer, NumDigits(q.left / q.right), id);
    } else if q.left < q.right {
      VisitsOne(CellId(Answer, 0), id);
      QuotientSign(q.left, q.right);
    } else {
      StepsVisits(q, s, StepCount(q.left, q.right), id);
    }
  }

  /** The order passes every cell to be typed into exactly once, and stops nowhere else. */
  lemma {:induction false} VisitedExactlyOnce(q: Question, s: Settings, id: CellId)
    requires Columnable(q, s)
    ensures Visits(Order(q, s), id)
         == if exists c :: c in CellsOf(q, s, DrawnKeys(q, s)) && c.id == id && !c.dot then 1 else 0
  {
    hide PlaceOf, Order, DrawnKeys;
    Drawn(q, s);
    CellsAre(q, s, DrawnKeys(q, s));
    if Typed(q, s, id) {
      assert CellAt(id.key, PlaceOf(q, s, id.key), id.digit) in CellsOf(q, s, DrawnKeys(q, s));
    }
    if Arithmetic(s) {
      ArithmeticOrderVisits(q, s, id);
    } else if s.operation.Multiply? {
      ProductOrderVisits(q, s, id);
    } else {
      DivisionOrderVisits(q, s, id);
    }
  }
}
