/**
 The notebook page of a columnar question: which digit cells are drawn, where they stand and in
 which order the child visits them. The page is built cell by cell; its closed form says where
 the cells of each field stand.
 */
module ColumnLayout {
  import opened Decimal
  import opened MathTypes
  import opened MathWork
  import opened WorkTheorems

  datatype CellId = CellId(key: Key, digit: nat)

  datatype Cell = Cell(id: CellId, row: int, col: int, carry: bool, dot: bool, memo: bool)

  /** Where a field stands: its row, its last column and its number of cells. */
  datatype Place = Place(row: int, end: int, width: nat)

  predicate Columnable(q: Question, s: Settings) {
    Workable(q, s) && s.Valid() && s.level.Columnar?
  }

  predicate Arithmetic(s: Settings) {
    s.operation.Plus? || s.operation.Minus?
  }

  /** The number the page takes for the result when it measures itself; division uses the product. */
  function Measured(q: Question, s: Settings): int {
    if s.operation.Plus? then q.left + q.right
    else if s.operation.Minus? then q.left - q.right
    else q.left * q.right
  }

  function Size(q: Question, s: Settings): nat {
    var l, r, m := PrintedWidth(q.left), PrintedWidth(q.right), PrintedWidth(Measured(q, s));
    if s.operation.Divide? then l
    else if Arithmetic(s) then Max(Max(l, r), m) + 1
    else Max(l + r, m) + 1
  }

  /** The last row of a product's partial products. */
  function PartialsEnd(q: Question): int {
    1 + 3 * PrintedWidth(q.right)
  }

  function PlaceOf(q: Question, s: Settings, key: Key): Place
    requires Columnable(q, s)
  {
    var size := Size(q, s);
    match key
    case Carry(j) => Place(1, size - j - 1, 1)
    case Partial(i) => Place(4 + 3 * i, size - i, NumDigits(Times(q.left, DigitAt(q.right, i))))
    case MulCarry(i, j) => Place(3 + 3 * i, size - i - j - 1, 1)
    case SumCarry(j) => Place(PartialsEnd(q) + 1, size - j - 1, 1)
    case Bring(k) => Place(1 + 3 * k, StepEnd(q, k), 1)
    case Product(k) => Place(2 + 3 * k, StepEnd(q, k), PrintedWidth(TrueValue(q, s, key)))
    case Remainder(k) => Place(3 + 3 * k, StepEnd(q, k), PrintedWidth(TrueValue(q, s, key)))
    case Answer =>
      if Arithmetic(s) then Place(4, size, PrintedWidth(Measured(q, s)))
      else if s.operation.Multiply? then Place(PartialsEnd(q) + 2, size, PrintedWidth(Measured(q, s)))
      else Place(2, size + 1 + NumDigits(q.left / q.right), NumDigits(q.left / q.right))
  }

  /** The dividend's column above step k. */
  function StepEnd(q: Question, k: nat): int
    requires q.left >= 0 && q.right >= 0
  {
    if q.right > 0 then PrintedWidth(q.left) - (StepCount(q.left, q.right) - 1 - k) else 0
  }

  /** The cells of a quotient, left to right. */
  function AnswerCells(q: Question): seq<CellId>
    requires q.left >= 0 && q.right > 0
  {
    QuotientSign(q.left, q.right);
    IdsOf(Answer, NumDigits(q.left / q.right))
  }

  /** Carries of a sum and memo marks are dots to press, not digits to type. */
  predicate IsDot(key: Key) {
    key.Carry? || key.SumCarry?
  }

  predicate IsCarry(key: Key) {
    key.Carry? || key.MulCarry? || key.SumCarry?
  }

  function CellAt(key: Key, p: Place, d: nat): Cell {
    Cell(CellId(key, d), p.row, p.end - p.width + 1 + d, IsCarry(key), IsDot(key), key.SumCarry?)
  }

  function CellsAt(key: Key, p: Place): seq<Cell> {
    seq(p.width, d requires 0 <= d => CellAt(key, p, d))
  }

  function IdsOf(key: Key, width: nat): seq<CellId> {
    seq(width, d requires 0 <= d => CellId(key, d))
  }

  function Reverse<T>(s: seq<T>): seq<T> {
    if s == [] then [] else [s[|s| - 1]] + Reverse(s[..|s| - 1])
  }

  // ---------------------------------------------------------------- closed form of the page

  function DrawnCarryKeys(n: nat): seq<Key> {
    seq(n, j requires 0 <= j => Carry(j))
  }

  function SumCarryKeys(n: nat): seq<Key> {
    seq(n, j requires 0 <= j => SumCarry(j))
  }

  function DrawnRowKeys(i: nat, n: nat): seq<Key> {
    seq(n, j requires 0 <= j => MulCarry(i, j))
  }

  function ProductRowKeys(w: nat, rows: nat): seq<Key>
    requires w > 0
  {
    if rows == 0 then [] else ProductRowKeys(w, rows - 1) + [Partial(rows - 1)] + DrawnRowKeys(rows - 1, w - 1)
  }

  function DrawnStepKeys(full: bool, k: nat): seq<Key> {
    (if full && k > 0 then [Bring(k)] else []) + [Product(k), Remainder(k)]
  }

  function DrawnDivisionKeys(full: bool, steps: nat): seq<Key> {
    if steps == 0 then [] else DrawnDivisionKeys(full, steps - 1) + DrawnStepKeys(full, steps - 1)
  }

  /** The fields drawn on the page, in the order their cells are added. */
  function DrawnKeys(q: Question, s: Settings): seq<Key>
    requires Columnable(q, s)
  {
    if Arithmetic(s) then DrawnCarryKeys(Size(q, s) - 2) + [Answer]
    else if s.operation.Multiply? then
      ProductRowKeys(PrintedWidth(q.left), RowCount(q.right))
      + (if PrintedWidth(q.right) > 1
         then SumCarryKeys(PrintedWidth(Measured(q, s)) - 1) + [Answer] else [])
    else
      [Answer]
      + (if s.divisionMode.ResultOnly? then []
         else DrawnDivisionKeys(s.divisionMode.Full?, StepCount(q.left, q.right)))
  }

  function CellsOf(q: Question, s: Settings, keys: seq<Key>): seq<Cell>
    requires Columnable(q, s)
  {
    if keys == [] then []
    else
      var key := keys[|keys| - 1];
      CellsOf(q, s, keys[..|keys| - 1]) + CellsAt(key, PlaceOf(q, s, key))
  }

  function WidthsOf(q: Question, s: Settings, keys: seq<Key>): map<Key, nat>
    requires Columnable(q, s)
  {
    map k | k in keys :: PlaceOf(q, s, k).width
  }

  function Rows(q: Question, s: Settings): int
    requires Columnable(q, s)
  {
    if Arithmetic(s) then 4
    else if s.operation.Multiply? then PartialsEnd(q) + if PrintedWidth(q.right) > 1 then 2 else 0
    else if s.divisionMode.ResultOnly? then 3
    else 3 * Max(1, StepCount(q.left, q.right))
  }

  /** One product row is visited right to left, each digit before the carry it hands on. */
  function RowOrder(i: nat, digits: seq<CellId>, w: nat, j: nat): seq<CellId>
    requires j <= w
  {
    if j == 0 then []
    else
      RowOrder(i, digits, w, j - 1)
      + (if j - 1 < |digits| then [digits[j - 1]] else [])
      + (if j < w then [CellId(MulCarry(i, j - 1), 0)] else [])
  }

  function PartialOrder(q: Question, i: nat): seq<CellId>
    requires q.left >= 0 && q.right >= 0
  {
    Reverse(IdsOf(Partial(i), NumDigits(Times(q.left, DigitAt(q.right, i)))))
  }

  function ProductRowOrder(q: Question, i: nat): seq<CellId>
    requires q.left >= 0 && q.right >= 0
  {
    var digits, w := PartialOrder(q, i), PrintedWidth(q.left);
    RowOrder(i, digits, w, w) + if |digits| > w then digits[w..] else []
  }

  function ProductOrder(q: Question, rows: nat): seq<CellId>
    requires q.left >= 0 && q.right >= 0
  {
    if rows == 0 then [] else ProductOrder(q, rows - 1) + ProductRowOrder(q, rows - 1)
  }

  /** One division step: the digit brought down, its quotient digit, then product and remainder. */
  function StepOrder(q: Question, s: Settings, k: nat): seq<CellId>
    requires Columnable(q, s)
  {
    (if s.divisionMode.Full? && k > 0 then [CellId(Bring(k), 0)] else [])
    + [CellId(Answer, k)]
    + Reverse(IdsOf(Product(k), PrintedWidth(TrueValue(q, s, Product(k)))))
    + Reverse(IdsOf(Remainder(k), PrintedWidth(TrueValue(q, s, Remainder(k)))))
  }

  function StepsOrder(q: Question, s: Settings, steps: nat): seq<CellId>
    requires Columnable(q, s)
  {
    if steps == 0 then [] else StepsOrder(q, s, steps - 1) + StepOrder(q, s, steps - 1)
  }

  /** The order in which the cells to type into are visited. */
  function Order(q: Question, s: Settings): seq<CellId>
    requires Columnable(q, s)
  {
    if Arithmetic(s) then Reverse(IdsOf(Answer, PrintedWidth(Measured(q, s))))
    else if s.operation.Multiply? then
      ProductOrder(q, RowCount(q.right))
      + (if PrintedWidth(q.right) > 1
         then Reverse(IdsOf(Answer, PrintedWidth(Measured(q, s)))) else [])
    else if s.divisionMode.ResultOnly? then IdsOf(Answer, NumDigits(q.left / q.right))
    else if q.left < q.right then [CellId(Answer, 0)]
    else StepsOrder(q, s, StepCount(q.left, q.right))
  }

  // ---------------------------------------------------------------- building the page

  /** The page under construction. */
  class Page {
    var cells: seq<Cell>
    var order: seq<CellId>
    var widths: map<Key, nat>
    var rows: int

    constructor ()
      ensures cells == [] && order == [] && widths == map[] && rows == 3
    {
      cells, order, widths, rows := [], [], map[], 3;
    }

    /** The drawn fields of this question so far are exactly `keys`. */
    ghost predicate Shows(q: Question, s: Settings, keys: seq<Key>)
      requires Columnable(q, s)
      reads this
    {
      cells == CellsOf(q, s, keys) && widths == WidthsOf(q, s, keys)
    }

    /** Adds the cells of a field, if the server asks for it; otherwise draws nothing. */
    method AddField(fields: seq<Field>, key: Key, p: Place, reversed: bool) returns (added: seq<CellId>)
      modifies this`cells, this`order, this`widths
      ensures key !in KeysOf(fields) ==>
                added == [] && cells == old(cells) && order == old(order) && widths == old(widths)
      ensures key in KeysOf(fields) ==>
                && added == IdsOf(key, p.width)
                && cells == old(cells) + CellsAt(key, p)
                && order == old(order) + (if reversed then Reverse(added) else added)
                && widths == old(widths)[key := p.width]
    {
      if key !in KeysOf(fields) {
        return [];
      }
      widths := widths[key := p.width];
      cells := cells + CellsAt(key, p);
      added := IdsOf(key, p.width);
      order := order + if reversed then Reverse(added) else added;
    }

    /** Adds the next drawn field of the question at its place. */
    method Draw(ghost q: Question, ghost s: Settings, ghost keys: seq<Key>,
                fields: seq<Field>, key: Key, p: Place, reversed: bool)
      returns (added: seq<CellId>)
      requires Columnable(q, s) && Shows(q, s, keys)
      requires key in KeysOf(fields) && p == PlaceOf(q, s, key)
      modifies this`cells, this`order, this`widths
      ensures Shows(q, s, keys + [key])
      ensures added == IdsOf(key, p.width)
      ensures order == old(order) + (if reversed then Reverse(added) else added)
    {
      ShowsNext(q, s, keys, key);
      added := AddField(fields, key, p, reversed);
    }

    method DrawCarries(q: Question, s: Settings, fields: seq<Field>)
      requires Columnable(q, s) && Arithmetic(s) && fields == Fields(q, s)
      requires Shows(q, s, [])
      modifies this`cells, this`order, this`widths
      ensures Shows(q, s, DrawnCarryKeys(Size(q, s) - 2))
    {
      var size := Size(q, s);
      for j := 0 to size - 2
        invariant Shows(q, s, DrawnCarryKeys(j))
      {
        DrawnCarry(q, s, j);
        var _ := Draw(q, s, DrawnCarryKeys(j), fields, Carry(j), Place(1, size - j - 1, 1), false);
        assert DrawnCarryKeys(j + 1) == DrawnCarryKeys(j) + [Carry(j)];
      }
    }

    method BuildArithmetic(q: Question, s: Settings, fields: seq<Field>)
      requires Columnable(q, s) && Arithmetic(s) && fields == Fields(q, s)
      requires Shows(q, s, [])
      modifies this
      ensures Shows(q, s, DrawnKeys(q, s)) && order == Order(q, s) && rows == Rows(q, s)
    {
      hide CellsOf, WidthsOf, Fields, NumDigits, Measured, Reverse, IdsOf, StepCount, StepsOrder, ProductOrder,
           StepEnd, TrueValue;
      DrawCarries(q, s, fields);
      order := [];
      AnswerField(q, s);
      var _ := Draw(q, s, DrawnCarryKeys(Size(q, s) - 2), fields, Answer, Place(4, Size(q, s), PrintedWidth(Measured(q, s))), true);
      rows := 4;
    }

    /** Draws the digits of a product row and takes them out of the visiting order again. */
    method DrawPartial(q: Question, s: Settings, fields: seq<Field>, digit: nat, i: nat) returns (digits: seq<CellId>)
      requires Columnable(q, s) && s.operation.Multiply? && fields == Fields(q, s)
      requires i < RowCount(q.right) && digit == DigitAt(q.right, i)
      requires Shows(q, s, ProductRowKeys(PrintedWidth(q.left), i))
      modifies this`cells, this`order, this`widths
      ensures Shows(q, s, ProductRowKeys(PrintedWidth(q.left), i) + [Partial(i)])
      ensures order == old(order) && digits == PartialOrder(q, i)
    {
      DrawnPartial(q, s, i);
      var p := Place(4 + 3 * i, Size(q, s) - i, NumDigits(Times(q.left, digit)));
      var partial := Draw(q, s, ProductRowKeys(PrintedWidth(q.left), i), fields, Partial(i), p, true);
      ReverseLength(partial);
      digits := order[|order| - |partial|..];
      order := order[..|order| - |partial|];
    }

    method DrawMulCarry(q: Question, s: Settings, fields: seq<Field>, i: nat, j: nat)
      requires Columnable(q, s) && s.operation.Multiply? && fields == Fields(q, s)
      requires i < RowCount(q.right) && j < PrintedWidth(q.left)
      requires Shows(q, s, ProductRowKeys(PrintedWidth(q.left), i) + [Partial(i)] + DrawnRowKeys(i, j))
      modifies this`cells, this`order, this`widths
      ensures Shows(q, s, ProductRowKeys(PrintedWidth(q.left), i) + [Partial(i)] + DrawnRowKeys(i, j + 1))
      ensures order == old(order) + [CellId(MulCarry(i, j), 0)]
    {
      DrawnMulCarry(q, s, i, j);
      ghost var above := ProductRowKeys(PrintedWidth(q.left), i) + [Partial(i)];
      var p := Place(3 + 3 * i, Size(q, s) - i - j - 1, 1);
      var added := Draw(q, s, above + DrawnRowKeys(i, j), fields, MulCarry(i, j), p, false);
      assert above + DrawnRowKeys(i, j) + [MulCarry(i, j)] == above + DrawnRowKeys(i, j + 1);
    }

    /** Draws one product row and interleaves its carries with its digits. */
    method DrawRow(q: Question, s: Settings, fields: seq<Field>, digit: nat, i: nat)
      requires Columnable(q, s) && s.operation.Multiply? && fields == Fields(q, s)
      requires i < RowCount(q.right) && digit == DigitAt(q.right, i)
      requires Shows(q, s, ProductRowKeys(PrintedWidth(q.left), i))
      modifies this`cells, this`order, this`widths
      ensures Shows(q, s, ProductRowKeys(PrintedWidth(q.left), i + 1))
      ensures order == old(order) + ProductRowOrder(q, i)
    {
      hide CellsOf, WidthsOf, Fields, PartialOrder, Times, Columnable;
      var w := PrintedWidth(q.left);
      ghost var above := ProductRowKeys(w, i) + [Partial(i)];
      var digits := DrawPartial(q, s, fields, digit, i);
      assert above + DrawnRowKeys(i, 0) == above;
      for j := 0 to w
        invariant Shows(q, s, above + DrawnRowKeys(i, if j < w then j else w - 1))
        invariant order == old(order) + RowOrder(i, digits, w, j)
      {
        if j < |digits| {
          order := order + [digits[j]];
        }
        if j < w - 1 {
          DrawMulCarry(q, s, fields, i, j);
        }
      }
      if |digits| > w {
        order := order + digits[w..];
      }
    }

    /** A zero multiplier: the server asks for no row, so the page stays as it is. */
    method DrawZeroRow(q: Question, s: Settings, fields: seq<Field>)
      requires Columnable(q, s) && s.operation.Multiply? && q.right == 0 && fields == Fields(q, s)
      requires Shows(q, s, []) && order == []
      modifies this`cells, this`order, this`widths
      ensures Shows(q, s, []) && order == []
    {
      var size, w := Size(q, s), PrintedWidth(q.left);
      NothingAsked(q, s);
      var _ := AddField(fields, Partial(0), Place(4, size, 1), true);
      for j := 0 to w - 1
        invariant Shows(q, s, []) && order == []
      {
        var _ := AddField(fields, MulCarry(0, j), Place(3, size - j - 1, 1), false);
      }
    }

    method DrawRows(q: Question, s: Settings, fields: seq<Field>)
      requires Columnable(q, s) && s.operation.Multiply? && fields == Fields(q, s)
      requires Shows(q, s, []) && order == []
      modifies this
      ensures Shows(q, s, ProductRowKeys(PrintedWidth(q.left), RowCount(q.right)))
      ensures order == ProductOrder(q, RowCount(q.right)) && rows == PartialsEnd(q)
    {
      hide CellsOf, WidthsOf, Fields, Text, ProductRowOrder;
      var multipliers := Reverse(Text(q.right));
      MultiplierDigits(q.right);
      for i := 0 to |multipliers|
        invariant Shows(q, s, ProductRowKeys(PrintedWidth(q.left), if q.right == 0 then 0 else i))
        invariant order == ProductOrder(q, if q.right == 0 then 0 else i)
        invariant i > 0 ==> rows == 1 + 3 * i
      {
        if q.right == 0 {
          DrawZeroRow(q, s, fields);
        } else {
          DrawRow(q, s, fields, multipliers[i], i);
        }
        rows := 4 + 3 * i;
      }
    }

    /** Draws the memo dots and the answer below several rows. */
    method DrawSum(q: Question, s: Settings, fields: seq<Field>)
      requires Columnable(q, s) && s.operation.Multiply? && PrintedWidth(q.right) > 1 && fields == Fields(q, s)
      requires Shows(q, s, ProductRowKeys(PrintedWidth(q.left), RowCount(q.right)))
      requires rows == PartialsEnd(q)
      modifies this
      ensures Shows(q, s, DrawnKeys(q, s))
      ensures order == old(order) + Reverse(IdsOf(Answer, PrintedWidth(Measured(q, s))))
      ensures rows == PartialsEnd(q) + 2
    {
      hide CellsOf, WidthsOf, Fields, NumDigits, Reverse, IdsOf, StepCount, StepEnd, TrueValue, ProductRowKeys,
           RowCount;
      ghost var above := ProductRowKeys(PrintedWidth(q.left), RowCount(q.right));
      var size, digits := Size(q, s), PrintedWidth(Measured(q, s));
      assert above + SumCarryKeys(0) == above;
      for j := 0 to digits - 1
        invariant Shows(q, s, above + SumCarryKeys(j))
        invariant order == old(order) && rows == old(rows)
      {
        var p := Place(rows + 1, size - j - 1, 1);
        widths := widths[SumCarry(j) := 1];
        cells := cells + [CellAt(SumCarry(j), p, 0)];
        ShowsNext(q, s, above + SumCarryKeys(j), SumCarry(j));
        assert above + SumCarryKeys(j) + [SumCarry(j)] == above + SumCarryKeys(j + 1);
        assert CellsAt(SumCarry(j), p) == [CellAt(SumCarry(j), p, 0)];
      }
      AnswerField(q, s);
      var _ := Draw(q, s, above + SumCarryKeys(digits - 1), fields, Answer, Place(rows + 2, size, digits), true);
      rows := rows + 2;
      assert above + SumCarryKeys(digits - 1) + [Answer] == above + (SumCarryKeys(digits - 1) + [Answer]);
    }

    method BuildProduct(q: Question, s: Settings, fields: seq<Field>)
      requires Columnable(q, s) && s.operation.Multiply? && fields == Fields(q, s)
      requires Shows(q, s, []) && order == []
      modifies this
      ensures Shows(q, s, DrawnKeys(q, s)) && order == Order(q, s) && rows == Rows(q, s)
    {
      DrawRows(q, s, fields);
      if PrintedWidth(q.right) > 1 {
        DrawSum(q, s, fields);
      } else {
        assert DrawnKeys(q, s) == ProductRowKeys(PrintedWidth(q.left), RowCount(q.right));
      }
    }

    /** Draws the digit brought down before a later step, where the server asks for it. */
    method DrawBring(q: Question, s: Settings, fields: seq<Field>, ghost keys: seq<Key>, step: nat, end: int)
      requires Columnable(q, s) && Shows(q, s, keys)
      requires Bring(step) in KeysOf(fields) <==> s.divisionMode.Full? && step > 0
      requires end == StepEnd(q, step)
      modifies this`cells, this`order, this`widths
      ensures Shows(q, s, keys + if s.divisionMode.Full? && step > 0 then [Bring(step)] else [])
      ensures order == old(order) + if s.divisionMode.Full? && step > 0 then [CellId(Bring(step), 0)] else []
    {
      hide CellsOf, WidthsOf, Size, StepCount;
      if step > 0 && Bring(step) in KeysOf(fields) {
        var added := Draw(q, s, keys, fields, Bring(step), Place(1 + 3 * step, end, 1), false);
        assert added == [CellId(Bring(step), 0)];
      } else {
        assert keys + [] == keys;
      }
    }

    /** Draws product and remainder of a step. */
    method DrawSubtraction(q: Question, s: Settings, fields: seq<Field>, ghost keys: seq<Key>,
                           step: nat, end: int, product: int, remainder: int)
      requires Columnable(q, s) && Shows(q, s, keys)
      requires Product(step) in KeysOf(fields) && Remainder(step) in KeysOf(fields)
      requires end == StepEnd(q, step)
      requires product == TrueValue(q, s, Product(step)) && remainder == TrueValue(q, s, Remainder(step))
      modifies this`cells, this`order, this`widths
      ensures Shows(q, s, keys + [Product(step), Remainder(step)])
      ensures order == old(order) + Reverse(IdsOf(Product(step), PrintedWidth(product)))
                       + Reverse(IdsOf(Remainder(step), PrintedWidth(remainder)))
    {
      hide CellsOf, WidthsOf, Size, StepCount, TrueValue, Reverse, IdsOf;
      var row := 1 + 3 * step;
      var _ := Draw(q, s, keys, fields, Product(step), Place(row + 1, end, PrintedWidth(product)), true);
      var _ := Draw(q, s, keys + [Product(step)], fields, Remainder(step), Place(row + 2, end, PrintedWidth(remainder)), true);
      assert keys + [Product(step)] + [Remainder(step)] == keys + [Product(step), Remainder(step)];
    }

    /** Draws one division step: the digit brought down, the quotient digit's turn, product and remainder. */
    method DrawStep(q: Question, s: Settings, fields: seq<Field>, answer: seq<CellId>,
                    step: nat, end: int, product: int, remainder: int)
      requires Columnable(q, s) && s.operation.Divide? && !s.divisionMode.ResultOnly? && fields == Fields(q, s)
      requires step < StepCount(q.left, q.right) && end == StepEnd(q, step)
      requires product == TrueValue(q, s, Product(step)) && remainder == TrueValue(q, s, Remainder(step))
      requires answer == AnswerCells(q)
      requires Shows(q, s, [Answer] + DrawnDivisionKeys(s.divisionMode.Full?, step))
      modifies this
      ensures Shows(q, s, [Answer] + DrawnDivisionKeys(s.divisionMode.Full?, step + 1))
      ensures order == old(order) + StepOrder(q, s, step)
      ensures rows == 3 * (step + 1)
    {
      hide CellsOf, WidthsOf, Fields, Size, TrueValue, CellsAt, Reverse, PlaceOf;
      ghost var full := s.divisionMode.Full?;
      ghost var above := [Answer] + DrawnDivisionKeys(full, step);
      ghost var bring := if full && step > 0 then [Bring(step)] else [];
      StepAsked(q, s, step);
      DrawBring(q, s, fields, above, step, end);
      if step < |answer| {
        order := order + [answer[step]];
      }
      DrawSubtraction(q, s, fields, above + bring, step, end, product, remainder);
      rows := 3 + 3 * step;
      assert above + bring + [Product(step), Remainder(step)] == [Answer] + DrawnDivisionKeys(full, step + 1);
    }

    /** A dividend below the divisor: the one step of its last digit has no fields, only its quotient digit. */
    method DrawZeroStep(fields: seq<Field>, answer: seq<CellId>, end: int, width: nat)
      requires Product(0) !in KeysOf(fields) && Remainder(0) !in KeysOf(fields) && |answer| > 0
      modifies this
      ensures cells == old(cells) && widths == old(widths)
      ensures order == old(order) + [answer[0]] && rows == 3
    {
      order := order + [answer[0]];
      var _ := AddField(fields, Product(0), Place(2, end, 1), true);
      var _ := AddField(fields, Remainder(0), Place(3, end, width), true);
      rows := 3;
    }

    /** What is drawn once all but the last k digits of the dividend are brought down. */
    ghost predicate StepsShown(q: Question, s: Settings, k: nat, partial: nat, step: nat, started: bool)
      requires Columnable(q, s) && s.operation.Divide?
      reads this
    {
      if k == 0 && q.left < q.right
      then Shows(q, s, [Answer]) && order == [CellId(Answer, 0)] && rows == 3
      else
        && partial == High(q.left, k) % q.right
        && step == StepsDone(High(q.left, k), q.right)
        && (started <==> step > 0)
        && Shows(q, s, [Answer] + DrawnDivisionKeys(s.divisionMode.Full?, step))
        && order == StepsOrder(q, s, step)
        && rows == 3 * Max(1, step)
    }

    /** A digit before the first step: nothing is drawn. */
    lemma {:induction false} DigitSkipped(q: Question, s: Settings, k: nat, below: nat, step: nat, started: bool,
          partial: nat)
      requires Columnable(q, s) && s.operation.Divide? && StepsShown(q, s, k + 1, below, step, started)
      requires k > 0 && High(q.left, k) < q.right && High(q.left, k + 1) < q.right
               && partial == High(q.left, k) % q.right
      ensures StepsShown(q, s, k, partial, step, started)
    {
      hide Shows, High, NumDigits, StepsOrder, DrawnDivisionKeys;
    }

    /** A digit with a step of its own. */
    method DrawNextStep(q: Question, s: Settings, fields: seq<Field>, answer: seq<CellId>,
                        k: nat, end: int, step: nat, product: int, remainder: nat, ghost below: nat, ghost started: bool)
      requires Columnable(q, s) && s.operation.Divide? && !s.divisionMode.ResultOnly? && fields == Fields(q, s)
      requires answer == AnswerCells(q) && end == NumDigits(q.left) - k && High(q.left, k) >= q.right
      requires product == TrueValue(q, s, Product(step)) && remainder == TrueValue(q, s, Remainder(step))
      requires StepsShown(q, s, k + 1, below, step, started) && remainder == High(q.left, k) % q.right
      modifies this
      ensures StepsShown(q, s, k, remainder, step + 1, true)
    {
      hide Shows, Fields, TrueValue, StepOrder, High, NumDigits, AnswerCells, StepEnd, StepCount, DrawnDivisionKeys,
           StepsDone;
      StepIndex(q.left, q.right, k);
      StepEnds(q, k, step, end);
      HighZero(q.left);
      DrawStep(q, s, fields, answer, step, end, product, remainder);
    }

    /** The last digit of a dividend below the divisor. */
    method DrawLastDigit(q: Question, s: Settings, fields: seq<Field>, answer: seq<CellId>,
                         end: int, ghost below: nat, step: nat, ghost started: bool)
      requires Columnable(q, s) && s.operation.Divide? && fields == Fields(q, s) && q.left < q.right
      requires answer == AnswerCells(q) && StepsShown(q, s, 1, below, step, started) && High(q.left, 1) < q.right
      modifies this
      ensures forall partial: nat, done: nat, begun :: StepsShown(q, s, 0, partial, done, begun)
    {
      hide CellsOf, WidthsOf, Fields, High, NumDigits;
      NoSteps(q, s);
      QuotientOfSmall(q);
      assert [Answer] + DrawnDivisionKeys(s.divisionMode.Full?, 0) == [Answer];
      DrawZeroStep(fields, answer, end, PrintedWidth(q.left));
    }

    /** Brings one digit down: skipped before the first step, otherwise a step of its own. */
    method DrawDigit(q: Question, s: Settings, fields: seq<Field>, answer: seq<CellId>,
                     k: nat, end: int, digit: nat, partial: nat, step: nat, started: bool)
      returns (partial': nat, step': nat, started': bool)
      requires Columnable(q, s) && s.operation.Divide? && !s.divisionMode.ResultOnly? && fields == Fields(q, s)
      requires answer == AnswerCells(q)
      requires digit == DigitAt(q.left, k) && end == NumDigits(q.left) - k
      requires StepsShown(q, s, k + 1, partial, step, started)
      modifies this
      ensures StepsShown(q, s, k, partial', step', started')
    {
      hide Shows, Fields, TrueValue, LargestMultiple, High, NumDigits, AnswerCells, StepsOrder, DrawnDivisionKeys;
      var l: nat, r: nat := q.left, q.right;
      partial', step', started' := partial * 10 + digit, step, started;
      DivisionTurn(q, s, k, partial', step);
      hide StepsShown;
      RemainderOf(partial', r);
      StartedAt(q, s, k, partial, step, started);
      if !started && partial' < r && k > 0 {
        DigitSkipped(q, s, k, partial, step, started, partial');
        return;
      }
      var product := LargestMultiple(partial', r);
      var remainder := partial' - product;
      if High(l, k) >= r {
        DrawNextStep(q, s, fields, answer, k, end, step, product, remainder, partial, started);
      } else {
        HighZero(l);
        DrawLastDigit(q, s, fields, answer, end, partial, step, started);
      }
      partial', step', started' := remainder, step + 1, true;
    }

    lemma {:induction false} StartedAt(q: Question, s: Settings, k: nat, partial: nat, step: nat, started: bool)
      requires Columnable(q, s) && s.operation.Divide? && StepsShown(q, s, k + 1, partial, step, started)
      ensures started <==> High(q.left, k + 1) >= q.right
    {
      hide Shows, High;
    }

    method DrawSteps(q: Question, s: Settings, fields: seq<Field>, answer: seq<CellId>)
      requires Columnable(q, s) && s.operation.Divide? && !s.divisionMode.ResultOnly? && fields == Fields(q, s)
      requires answer == AnswerCells(q)
      requires Shows(q, s, [Answer]) && order == [] && rows == 3
      modifies this
      ensures Shows(q, s, [Answer] + DrawnDivisionKeys(s.divisionMode.Full?, StepCount(q.left, q.right)))
      ensures q.left >= q.right ==> order == StepsOrder(q, s, StepCount(q.left, q.right))
      ensures q.left < q.right ==> order == [CellId(Answer, 0)]
      ensures rows == 3 * Max(1, StepCount(q.left, q.right))
    {
      hide Shows, StepsShown, Fields, Text, High, NumDigits;
      var text := Text(q.left);
      var partial: nat, step: nat, started := 0, 0, false;
      TextDigits(q.left);
      HighAll(q.left, |text|);
      assert [Answer] + DrawnDivisionKeys(s.divisionMode.Full?, 0) == [Answer];
      NothingDrawn(q, s, |text|);
      for index := 0 to |text|
        invariant StepsShown(q, s, |text| - index, partial, step, started)
      {
        partial, step, started :=
          DrawDigit(q, s, fields, answer, |text| - index - 1, index + 1, text[index], partial, step, started);
      }
      AllDrawn(q, s, partial, step, started);
    }

    lemma {:induction false} NothingDrawn(q: Question, s: Settings, k: nat)
      requires Columnable(q, s) && s.operation.Divide? && k > 0 && High(q.left, k) == 0
      requires Shows(q, s, [Answer] + DrawnDivisionKeys(s.divisionMode.Full?, 0)) && order == [] && rows == 3
      ensures StepsShown(q, s, k, 0, 0, false)
    {
      hide Shows;
    }

    lemma {:induction false} AllDrawn(q: Question, s: Settings, partial: nat, step: nat, started: bool)
      requires Columnable(q, s) && s.operation.Divide? && StepsShown(q, s, 0, partial, step, started)
      ensures Shows(q, s, [Answer] + DrawnDivisionKeys(s.divisionMode.Full?, StepCount(q.left, q.right)))
      ensures q.left >= q.right ==> order == StepsOrder(q, s, StepCount(q.left, q.right))
      ensures q.left < q.right ==> order == [CellId(Answer, 0)]
      ensures rows == 3 * Max(1, StepCount(q.left, q.right))
    {
      hide Shows, StepsOrder;
      assert [Answer] + DrawnDivisionKeys(s.divisionMode.Full?, 0) == [Answer];
    }

    method BuildDivision(q: Question, s: Settings, fields: seq<Field>)
      requires Columnable(q, s) && s.operation.Divide? && fields == Fields(q, s)
      requires Shows(q, s, []) && order == [] && rows == 3
      modifies this
      ensures Shows(q, s, DrawnKeys(q, s)) && order == Order(q, s) && rows == Rows(q, s)
    {
      hide CellsOf, WidthsOf, Fields, StepsOrder, DrawnDivisionKeys;
      AnswerField(q, s);
      QuotientSign(q.left, q.right);
      var width := NumDigits(q.left / q.right);
      var answer := Draw(q, s, [], fields, Answer, Place(2, Size(q, s) + 1 + width, width), false);
      assert [] + [Answer] == [Answer];
      order := [];
      if s.divisionMode.ResultOnly? {
        order := order + answer;
        assert [Answer] + [] == [Answer];
      } else {
        DrawSteps(q, s, fields, answer);
      }
    }

    /** The page of a question, built from the fields the server asks for. */
    method Build(q: Question, s: Settings, fields: seq<Field>)
      requires Columnable(q, s) && fields == Fields(q, s)
      requires cells == [] && order == [] && widths == map[] && rows == 3
      modifies this
      ensures cells == CellsOf(q, s, DrawnKeys(q, s))
      ensures widths == WidthsOf(q, s, DrawnKeys(q, s))
      ensures order == Order(q, s) && rows == Rows(q, s)
    {
      assert Shows(q, s, []);
      if Arithmetic(s) {
        BuildArithmetic(q, s, fields);
      } else if s.operation.Multiply? {
        BuildProduct(q, s, fields);
      } else {
        BuildDivision(q, s, fields);
      }
    }
  }

  /** The fields of a division step are asked for; the brought digit only in full mode. */
  lemma {:induction false} StepAsked(q: Question, s: Settings, k: nat)
    requires Columnable(q, s) && s.operation.Divide? && !s.divisionMode.ResultOnly?
    requires k < StepCount(q.left, q.right)
    ensures Product(k) in KeysOf(Fields(q, s)) && Remainder(k) in KeysOf(Fields(q, s))
    ensures Bring(k) in KeysOf(Fields(q, s)) <==> s.divisionMode.Full? && k > 0
  {
    FieldKeys(q, s);
  }

  /** The step that brings digit k down ends in that digit's column. */
  lemma {:induction false} StepEnds(q: Question, k: nat, step: nat, end: int)
    requires q.left >= 0 && q.right > 0 && High(q.left, k) >= q.right
    requires step == StepsDone(High(q.left, k + 1), q.right) && end == NumDigits(q.left) - k
    ensures step < StepCount(q.left, q.right) && end == StepEnd(q, step)
  {
    hide High, NumDigits, StepsDone;
    StepIndex(q.left, q.right, k);
  }

  lemma {:induction false} HighZero(n: nat)
    ensures High(n, 0) == n
  {
  }

  lemma {:induction false} QuotientOfSmall(q: Question)
    requires 0 <= q.left < q.right
    ensures NumDigits(q.left / q.right) == 1
  {
    QuotientSign(q.left, q.right);
  }

  lemma {:induction false} NoSteps(q: Question, s: Settings)
    requires Columnable(q, s) && s.operation.Divide? && q.left < q.right
    ensures Product(0) !in KeysOf(Fields(q, s)) && Remainder(0) !in KeysOf(Fields(q, s))
  {
    FieldKeys(q, s);
  }

  /** A zero multiplier asks for no rows, so nothing is drawn for it. */
  lemma {:induction false} NothingAsked(q: Question, s: Settings)
    requires Columnable(q, s) && s.operation.Multiply? && q.right == 0
    ensures forall key: Key :: key.Partial? || key.MulCarry? ==> key !in KeysOf(Fields(q, s))
  {
    FieldKeys(q, s);
  }

  lemma {:induction false} ReverseAt<T>(s: seq<T>, i: nat)
    requires i < |s|
    ensures |Reverse(s)| == |s| && Reverse(s)[i] == s[|s| - 1 - i]
  {
    ReverseLength(s[..|s| - 1]);
    if i > 0 {
      ReverseAt(s[..|s| - 1], i - 1);
    }
  }

  /** The multiplier's digits from right to left. */
  lemma {:induction false} MultiplierDigits(r: nat)
    ensures |Reverse(Text(r))| == NumDigits(r)
    ensures forall i :: 0 <= i < NumDigits(r) ==> Reverse(Text(r))[i] == DigitAt(r, i)
  {
    TextDigits(r);
    ReverseLength(Text(r));
    forall i | 0 <= i < NumDigits(r) ensures Reverse(Text(r))[i] == DigitAt(r, i) {
      ReverseAt(Text(r), i);
    }
  }

  lemma {:induction false} ReverseLength<T>(s: seq<T>)
    ensures |Reverse(s)| == |s|
  {
    if s != [] {
      ReverseLength(s[..|s| - 1]);
    }
  }

  lemma {:induction false} DrawnPartial(q: Question, s: Settings, i: nat)
    requires Columnable(q, s) && s.operation.Multiply? && i < RowCount(q.right)
    ensures Partial(i) in KeysOf(Fields(q, s))
  {
    FieldKeys(q, s);
  }

  lemma {:induction false} DrawnMulCarry(q: Question, s: Settings, i: nat, j: nat)
    requires Columnable(q, s) && s.operation.Multiply? && i < RowCount(q.right) && j < PrintedWidth(q.left)
    ensures MulCarry(i, j) in KeysOf(Fields(q, s))
  {
    FieldKeys(q, s);
  }

  lemma {:induction false} ShowsNext(q: Question, s: Settings, keys: seq<Key>, key: Key)
    requires Columnable(q, s)
    ensures CellsOf(q, s, keys + [key]) == CellsOf(q, s, keys) + CellsAt(key, PlaceOf(q, s, key))
    ensures WidthsOf(q, s, keys + [key]) == WidthsOf(q, s, keys)[key := PlaceOf(q, s, key).width]
  {
    assert (keys + [key])[..|keys|] == keys;
  }

  lemma {:induction false} AnswerField(q: Question, s: Settings)
    requires Workable(q, s)
    ensures Answer in KeysOf(Fields(q, s))
  {
    assert Fields(q, s)[|Fields(q, s)| - 1].key == Answer;
  }

  /** The page draws no more carries than the server asks for. */
  lemma {:induction false} DrawnCarry(q: Question, s: Settings, j: nat)
    requires Columnable(q, s) && Arithmetic(s) && j < Size(q, s) - 2
    ensures Carry(j) in KeysOf(Fields(q, s))
  {
    var n := OperandWidth(q);
    assert PrintedWidth(Measured(q, s)) <= n + 1 by {
      if s.operation.Plus? {
        LastCarry(q.left, q.right);
      } else if q.left < q.right {
        NumDigitsMonotone(q.right - q.left, q.right);
      } else {
        NumDigitsMonotone(q.left - q.right, q.left);
      }
    }
    assert Fields(q, s)[j] == CarryFields(n)[j];
  }
}
