/**
 What the notebook page sends to the server. The page leaves some fields out and rebuilds them
 from the digits it has; the main theorem says when the rebuilt work is exactly what the server
 expects.
 */
module ColumnWork {
  import opened Decimal
  import opened MathTypes
  import opened MathWork
  import opened WorkTheorems
  import opened ColumnLayout
  import opened PageTheorems

  /** What the child typed: one digit per cell; a cell left blank is absent. */
  type Entries = map<CellId, nat>

  predicate Digits(e: Entries) {
    forall id :: id in e ==> e[id] < 10
  }

  /** The digits typed into the first w cells of a field, blanks skipped. */
  function Read(e: Entries, key: Key, w: nat): seq<nat> {
    if w == 0 then []
    else Read(e, key, w - 1) + if CellId(key, w - 1) in e then [e[CellId(key, w - 1)]] else []
  }

  function DrawnWidth(q: Question, s: Settings, key: Key): nat
    requires Columnable(q, s)
  {
    if key in DrawnKeys(q, s) then PlaceOf(q, s, key).width else 0
  }

  /** The number typed into a field; an undrawn or blank field reads as zero. */
  function TypedNumber(q: Question, s: Settings, e: Entries, key: Key): nat
    requires Columnable(q, s)
  {
    Value(Read(e, key, DrawnWidth(q, s, key)))
  }

  /** The number sent for a field: the last carry of a row and a one-row answer come from the partial products. */
  function SentNumber(q: Question, s: Settings, e: Entries, key: Key): nat
    requires Columnable(q, s)
  {
    if !s.operation.Multiply? then TypedNumber(q, s, e, key)
    else if key.MulCarry? && key.j == PrintedWidth(q.left) - 1 then
      High(TypedNumber(q, s, e, Partial(key.row)), PrintedWidth(q.left))
    else if key.Answer? && PrintedWidth(q.right) == 1 then TypedNumber(q, s, e, Partial(0))
    else TypedNumber(q, s, e, key)
  }

  /** The keys sent: those asked for, but a zero multiplier has no partial product to answer with. */
  function SentKeys(q: Question, s: Settings): set<Key>
    requires Columnable(q, s)
  {
    KeysOf(Fields(q, s)) - if s.operation.Multiply? && q.right == 0 then {Answer} else {}
  }

  function Sent(q: Question, s: Settings, e: Entries): map<Key, int>
    requires Columnable(q, s)
  {
    map k | k in SentKeys(q, s) :: SentNumber(q, s, e, k)
  }

  /** Every cell to be typed into holds a digit; carries may stay blank. */
  predicate Filled(q: Question, s: Settings, e: Entries)
    requires Columnable(q, s)
  {
    forall id :: id in Order(q, s) ==> IsCarry(id.key) || id in e
  }

  datatype Submission = Missing(cell: CellId) | Submitted(values: map<Key, int>)

  /** The number of a product's field once the last carries of the first k rows are rebuilt. */
  function RebuiltNumber(q: Question, s: Settings, e: Entries, k: nat, key: Key): nat
    requires Columnable(q, s)
  {
    if key.MulCarry? && key.j == PrintedWidth(q.left) - 1 && key.row < k
    then High(TypedNumber(q, s, e, Partial(key.row)), PrintedWidth(q.left))
    else TypedNumber(q, s, e, key)
  }

  function Rebuilt(q: Question, s: Settings, e: Entries, k: nat): map<Key, int>
    requires Columnable(q, s)
  {
    map key | key in KeysOf(Fields(q, s)) :: RebuiltNumber(q, s, e, k, key)
  }

  /** The rows rebuild their last carry one after the other. */
  lemma {:induction false} RebuiltStep(q: Question, s: Settings, e: Entries, i: nat)
    requires Columnable(q, s) && s.operation.Multiply?
    ensures var key, m := MulCarry(i, PrintedWidth(q.left) - 1), Rebuilt(q, s, e, i);
            if key in m then
              && Partial(i) in m
              && Rebuilt(q, s, e, i + 1) == m[key := m[Partial(i)] / Pow10(PrintedWidth(q.left))]
            else Rebuilt(q, s, e, i + 1) == m
  {
    hide Fields, TypedNumber;
    FieldKeys(q, s);
    QuotientRemainder(TypedNumber(q, s, e, Partial(i)), PrintedWidth(q.left));
    hide High, Pow10, PrintedWidth, IsWorkKey, KeysOf;
    var key, m, m' := MulCarry(i, PrintedWidth(q.left) - 1), Rebuilt(q, s, e, i), Rebuilt(q, s, e, i + 1);
    assert m.Keys == m'.Keys == KeysOf(Fields(q, s));
    if key in m {
      PartialBeside(q, s, i);
    }
    forall k | k in m && k != key ensures m'[k] == m[k] {
    }
  }

  lemma {:induction false} PartialBeside(q: Question, s: Settings, i: nat)
    requires Columnable(q, s) && s.operation.Multiply?
    requires MulCarry(i, PrintedWidth(q.left) - 1) in KeysOf(Fields(q, s))
    ensures Partial(i) in KeysOf(Fields(q, s))
  {
    hide Fields;
    FieldKeys(q, s);
  }

  /** The last part of the rebuilding: a one-row product answers with its partial product. */
  function Answered(q: Question, payload: map<Key, int>): map<Key, int>
    requires q.right >= 0
  {
    if |Text(q.right)| != 1 then payload
    else if Partial(0) in payload then payload[Answer := payload[Partial(0)]]
    else payload - {Answer}
  }

  lemma {:induction false} SentProduct(q: Question, s: Settings, e: Entries)
    requires Columnable(q, s) && s.operation.Multiply?
    ensures Answered(q, Rebuilt(q, s, e, PrintedWidth(q.right))) == Sent(q, s, e)
  {
    hide Fields, SentNumber, RebuiltNumber, IsRowKey;
    FieldKeys(q, s);
    TextDigits(q.right);
    hide Text;
    var m := Rebuilt(q, s, e, PrintedWidth(q.right));
    assert Answered(q, m).Keys == SentKeys(q, s) by {
      ZeroRows(q, s);
    }
    forall k | k in SentKeys(q, s) ensures Answered(q, m)[k] == SentNumber(q, s, e, k) {
      RebuiltIsSent(q, s, e, k);
    }
  }

  lemma {:induction false} ZeroRows(q: Question, s: Settings)
    requires Columnable(q, s) && s.operation.Multiply?
    ensures Partial(0) in KeysOf(Fields(q, s)) <==> q.right > 0
  {
    hide Fields;
    FieldKeys(q, s);
  }

  lemma {:induction false} RebuiltIsSent(q: Question, s: Settings, e: Entries, k: Key)
    requires Columnable(q, s) && s.operation.Multiply? && k in KeysOf(Fields(q, s))
    ensures SentNumber(q, s, e, k)
         == RebuiltNumber(q, s, e, PrintedWidth(q.right), if k.Answer? && PrintedWidth(q.right) == 1 then Partial(0) else k)
  {
    hide Fields, TypedNumber, High;
    FieldKeys(q, s);
  }

  lemma {:induction false} SentOther(q: Question, s: Settings, e: Entries)
    requires Columnable(q, s) && !s.operation.Multiply?
    ensures Rebuilt(q, s, e, 0) == Sent(q, s, e)
  {
    hide Fields, TypedNumber;
    assert SentKeys(q, s) == KeysOf(Fields(q, s));
  }

  /** Reads the page and rebuilds the work, unless a cell is still empty. */
  method Submit(q: Question, s: Settings, fields: seq<Field>, order: seq<CellId>, widths: map<Key, nat>, e: Entries)
    returns (r: Submission)
    requires Columnable(q, s) && fields == Fields(q, s)
    requires order == Order(q, s) && widths == WidthsOf(q, s, DrawnKeys(q, s))
    ensures r.Submitted? <==> Filled(q, s, e)
    ensures r.Submitted? ==> r.values == Sent(q, s, e)
    ensures r.Missing? ==>
              exists i :: 0 <= i < |order| && order[i] == r.cell && !IsCarry(order[i].key) && order[i] !in e
                          && forall j :: 0 <= j < i ==> IsCarry(order[j].key) || order[j] in e
  {
    hide Fields, Order, DrawnKeys, PlaceOf, Value, Read, Sent, Pow10, IsCarry;
    for i := 0 to |order|
      invariant forall j :: 0 <= j < i ==> IsCarry(order[j].key) || order[j] in e
    {
      if !IsCarry(order[i].key) && order[i] !in e {
        return Missing(order[i]);
      }
    }
    var payload: map<Key, int> :=
      map k | k in KeysOf(fields) :: Value(Read(e, k, if k in widths then widths[k] else 0));
    assert payload == Rebuilt(q, s, e, 0);
    if s.operation.Multiply? {
      var digits := PrintedWidth(q.left);
      for i := 0 to PrintedWidth(q.right)
        invariant payload == Rebuilt(q, s, e, i)
      {
        var key := MulCarry(i, digits - 1);
        RebuiltStep(q, s, e, i);
        if key in payload {
          payload := payload[key := payload[Partial(i)] / Pow10(digits)];
        }
      }
      SentProduct(q, s, e);
      payload := Answered(q, payload);
    } else {
      SentOther(q, s, e);
    }
    r := Submitted(payload);
  }

  // ---------------------------------------------------------------- the page and the server agree

  /** The questions a page can answer at all. */
  predicate Solvable(q: Question, s: Settings) {
    (s.operation.Minus? ==> q.left >= q.right) && (s.operation.Multiply? ==> q.right > 0)
  }

  /** The digits a drawn field must hold. */
  function TrueDigits(q: Question, s: Settings, key: Key): seq<nat>
    requires Columnable(q, s) && TrueValue(q, s, key) >= 0
  {
    Text(TrueValue(q, s, key))
  }

  /** The child's digits of a drawn field are the true ones; a blank carry stands for zero. */
  ghost predicate RightDigits(q: Question, s: Settings, e: Entries, key: Key)
    requires Columnable(q, s)
  {
    var w := PlaceOf(q, s, key).width;
    && TrueValue(q, s, key) >= 0
    && |TrueDigits(q, s, key)| == w
    && forall d: nat :: d < w ==>
         (if CellId(key, d) in e then e[CellId(key, d)] else 0) == TrueDigits(q, s, key)[d]
  }

  ghost predicate AllRight(q: Question, s: Settings, e: Entries)
    requires Columnable(q, s)
  {
    forall key :: key in DrawnKeys(q, s) && !key.SumCarry? ==> RightDigits(q, s, e, key)
  }

  lemma {:induction false} ReadFull(e: Entries, key: Key, w: nat)
    requires forall d: nat :: d < w ==> CellId(key, d) in e
    ensures |Read(e, key, w)| == w
    ensures forall d: nat :: d < w ==> Read(e, key, w)[d] == e[CellId(key, d)]
  {
    if w > 0 {
      ReadFull(e, key, w - 1);
    }
  }

  /** Every drawn field has exactly as many cells as its true value has digits. */
  lemma {:induction false} WidthIsTrue(q: Question, s: Settings, key: Key)
    requires Columnable(q, s) && Solvable(q, s)
    requires key in DrawnKeys(q, s) && !key.SumCarry?
    ensures TrueValue(q, s, key) >= 0
    ensures PlaceOf(q, s, key).width == NumDigits(TrueValue(q, s, key)) == |TrueDigits(q, s, key)|
  {
    hide Fields, NumDigits;
    Drawn(q, s);
    TrueIsNatural(q, s, key);
    TextDigits(TrueValue(q, s, key));
    var v := TrueValue(q, s, key);
    if key.Carry? || key.MulCarry? || key.Bring? {
      assert v < 10;
      OneDigit(v);
    }
  }

  lemma {:induction false} OneDigit(v: nat)
    requires v < 10
    ensures NumDigits(v) == 1
  {
  }

  lemma {:induction false} TrueIsNatural(q: Question, s: Settings, key: Key)
    requires Columnable(q, s) && Solvable(q, s) && IsDrawn(q, s, key) && !key.SumCarry?
    ensures TrueValue(q, s, key) >= 0
    ensures key.Carry? || key.MulCarry? || key.Bring? ==> TrueValue(q, s, key) < 10
    ensures key.Partial? ==> TrueValue(q, s, key) == Times(q.left, DigitAt(q.right, key.row))
    ensures key.Answer? ==> TrueValue(q, s, key) == if s.operation.Divide? then q.left / q.right else Measured(q, s)
  {
    hide NumDigits, High, Low;
    match key {
      case Carry(i) => CarryAtMostOne(q.left, q.right, i + 1);
      case MulCarry(i, j) => MulCarryColumn(q.left, DigitAt(q.right, i), j + 1);
      case Product(k) => DivisionValuesFit(q, s, k);
      case Remainder(k) => DivisionValuesFit(q, s, k);
      case _ =>
    }
  }

  lemma {:induction false} ReadIsTrue(e: Entries, key: Key, w: nat, v: nat)
    requires Digits(e) && |Text(v)| == w
    requires forall d: nat :: d < w ==> CellId(key, d) in e
    ensures Value(Read(e, key, w)) == v <==> forall d: nat :: d < w ==> e[CellId(key, d)] == Text(v)[d]
  {
    var r, t := Read(e, key, w), Text(v);
    TextDigits(v);
    ValueOfText(v);
    ReadFull(e, key, w);
    hide Text, Read, Value;
    if Value(r) == Value(t) {
      ValueInjective(r, t);
    }
    if forall d: nat :: d < w ==> e[CellId(key, d)] == t[d] {
      assert r == t;
    }
  }

  /** A filled field reads as its true value exactly when its digits are the true ones. */
  lemma {:induction false} TypedIsTrue(q: Question, s: Settings, e: Entries, key: Key)
    requires Columnable(q, s) && Solvable(q, s) && Digits(e) && Filled(q, s, e)
    requires key in DrawnKeys(q, s) && !key.SumCarry?
    ensures TypedNumber(q, s, e, key) == TrueValue(q, s, key) <==> RightDigits(q, s, e, key)
  {
    hide Fields, PlaceOf, DrawnKeys, TrueValue, Order, NumDigits, Text, Read, Value;
    WidthIsTrue(q, s, key);
    if IsCarry(key) {
      CarryRead(q, s, e, key);
    } else {
      DrawnIsTyped(q, s, e, key);
      ReadIsTrue(e, key, PlaceOf(q, s, key).width, TrueValue(q, s, key));
    }
  }

  lemma {:induction false} DrawnIsTyped(q: Question, s: Settings, e: Entries, key: Key)
    requires Columnable(q, s) && Filled(q, s, e)
    requires key in DrawnKeys(q, s) && !IsCarry(key)
    ensures forall d: nat :: d < PlaceOf(q, s, key).width ==> CellId(key, d) in e
  {
    hide PlaceOf, DrawnKeys, Order;
    CellsAre(q, s, DrawnKeys(q, s));
    forall d: nat | d < PlaceOf(q, s, key).width ensures CellId(key, d) in e {
      var c := CellAt(key, PlaceOf(q, s, key), d);
      assert c in CellsOf(q, s, DrawnKeys(q, s));
      VisitedExactlyOnce(q, s, c.id);
      VisitedIsIn(Order(q, s), c.id);
    }
  }

  lemma {:induction false} VisitedIsIn(order: seq<CellId>, id: CellId)
    requires Visits(order, id) > 0
    ensures id in order
  {
    if order[|order| - 1] != id {
      VisitedIsIn(order[..|order| - 1], id);
    }
  }

  /** A carry cell: one digit or blank, blank reading as zero. */
  lemma {:induction false} CarryRead(q: Question, s: Settings, e: Entries, key: Key)
    requires Columnable(q, s) && Solvable(q, s)
    requires key in DrawnKeys(q, s) && IsCarry(key) && !key.SumCarry?
    ensures TypedNumber(q, s, e, key) == TrueValue(q, s, key) <==> RightDigits(q, s, e, key)
  {
    hide Fields, DrawnKeys, TrueValue, NumDigits;
    WidthIsTrue(q, s, key);
    Drawn(q, s);
    TrueIsNatural(q, s, key);
    var v := TrueValue(q, s, key);
    assert PlaceOf(q, s, key).width == 1;
    assert TrueDigits(q, s, key) == [v];
    var typed := if CellId(key, 0) in e then e[CellId(key, 0)] else 0;
    BlankIsZero(e, key);
    assert TypedNumber(q, s, e, key) == typed;
  }

  lemma {:induction false} BlankIsZero(e: Entries, key: Key)
    ensures Value(Read(e, key, 1)) == if CellId(key, 0) in e then e[CellId(key, 0)] else 0
  {
    var tail := if CellId(key, 0) in e then [e[CellId(key, 0)]] else [];
    assert Read(e, key, 0) == [];
    assert Read(e, key, 1) == [] + tail == tail;
    assert tail != [] ==> tail[..0] == [];
  }

  /** A drawn field is asked for, and what is typed into it is sent unchanged. */
  lemma {:induction false} DrawnIsSent(q: Question, s: Settings, e: Entries, key: Key)
    requires Columnable(q, s) && Solvable(q, s)
    requires key in DrawnKeys(q, s) && !key.SumCarry?
    ensures key in SentKeys(q, s)
    ensures SentNumber(q, s, e, key) == TypedNumber(q, s, e, key)
  {
    hide Fields, DrawnKeys, TypedNumber, NumDigits;
    Drawn(q, s);
    FieldKeys(q, s);
    if key.Carry? {
      LastCarryDrawn(q, s, key.i);
    }
  }

  /** The carries that are drawn are asked for; the one left out, if any, is zero. */
  lemma {:induction false} LastCarryDrawn(q: Question, s: Settings, j: nat)
    requires Columnable(q, s) && Solvable(q, s) && Arithmetic(s)
    ensures j < Size(q, s) - 2 ==> j < OperandWidth(q)
    ensures j < OperandWidth(q) && j >= Size(q, s) - 2 ==> TrueValue(q, s, Carry(j)) == 0
  {
    hide NumDigits, CarryOut, BorrowOut;
    if s.operation.Plus? {
      LastCarry(q.left, q.right);
    } else {
      LastBorrow(q.left, q.right);
      NumDigitsMonotone(q.left - q.right, q.left);
      if j == OperandWidth(q) - 1 {
        BorrowIsBit(q.left, q.right, j + 1);
      }
    }
  }

  lemma {:induction false} BorrowIsBit(l: nat, r: nat, k: nat)
    ensures BorrowOut(l, r, k) == 0 || BorrowOut(l, r, k) == 1
  {
  }

  /** A field that is asked for but not drawn is rebuilt right as soon as the drawn ones are right. */
  lemma {:induction false} UndrawnIsSent(q: Question, s: Settings, e: Entries, key: Key)
    requires Columnable(q, s) && Solvable(q, s)
    requires key in SentKeys(q, s) && key !in DrawnKeys(q, s)
    requires forall k :: k in DrawnKeys(q, s) && !k.SumCarry? ==> TypedNumber(q, s, e, k) == TrueValue(q, s, k)
    ensures SentNumber(q, s, e, key) == TrueValue(q, s, key)
  {
    hide Fields, DrawnKeys, NumDigits;
    Drawn(q, s);
    FieldKeys(q, s);
    if Arithmetic(s) {
      LastCarryDrawn(q, s, key.i);
    } else {
      assert s.operation.Multiply?;
      if key.MulCarry? {
        LastMulCarry(q.left, DigitAt(q.right, key.row));
        assert IsDrawn(q, s, Partial(key.row));
      } else {
        OneRow(q.right);
        assert IsDrawn(q, s, Partial(0));
      }
    }
  }

  lemma {:induction false} OneRow(r: nat)
    requires NumDigits(r) == 1
    ensures DigitAt(r, 0) == r
  {
  }

  /**
   The page refines the server. For every columnar question the filled page sends exactly the work
   the server expects if and only if the question is solvable on the page and every drawn digit is
   the true one, with blank carries standing for zero.
   */
  lemma {:induction false} PageRefinesServer(q: Question, s: Settings, e: Entries)
    requires Columnable(q, s) && Digits(e) && Filled(q, s, e)
    ensures Sent(q, s, e) == Expected(q, s) <==> Solvable(q, s) && AllRight(q, s, e)
  {
    hide Fields, DrawnKeys, Order, TrueValue, SentNumber, RightDigits, TypedNumber, Filled, PlaceOf;
    FieldKeys(q, s);
    if Sent(q, s, e) == Expected(q, s) {
      ExpectedIsSolvable(q, s, e);
      forall k | k in DrawnKeys(q, s) && !k.SumCarry? ensures RightDigits(q, s, e, k) {
        DrawnIsSent(q, s, e, k);
        TypedIsTrue(q, s, e, k);
        assert Sent(q, s, e)[k] == Expected(q, s)[k];
      }
    }
    if Solvable(q, s) && AllRight(q, s, e) {
      forall k | k in DrawnKeys(q, s) && !k.SumCarry? ensures TypedNumber(q, s, e, k) == TrueValue(q, s, k) {
        TypedIsTrue(q, s, e, k);
      }
      assert SentKeys(q, s) == KeysOf(Fields(q, s));
      forall k | k in SentKeys(q, s) ensures SentNumber(q, s, e, k) == TrueValue(q, s, k) {
        if k in DrawnKeys(q, s) {
          AskedIsNoMemo(q, s, k);
          DrawnIsSent(q, s, e, k);
        } else {
          UndrawnIsSent(q, s, e, k);
        }
      }
    }
  }

  lemma {:induction false} AskedIsNoMemo(q: Question, s: Settings, k: Key)
    requires Columnable(q, s) && k in KeysOf(Fields(q, s))
    ensures !k.SumCarry?
  {
    hide Fields;
    FieldKeys(q, s);
  }

  /** A negative difference needs a sign and a zero multiplier an answer; the page can type neither. */
  lemma {:induction false} ExpectedIsSolvable(q: Question, s: Settings, e: Entries)
    requires Columnable(q, s) && Sent(q, s, e) == Expected(q, s)
    ensures Solvable(q, s)
  {
    hide Fields, SentNumber;
    FieldKeys(q, s);
    assert Answer in Expected(q, s);
    assert Sent(q, s, e)[Answer] == Expected(q, s)[Answer] == q.Result(s.operation);
  }

  function CellIds(q: Question, s: Settings): set<CellId>
    requires Columnable(q, s)
  {
    set c | c in CellsOf(q, s, DrawnKeys(q, s)) :: c.id
  }

  /** The page filled in by someone who knows: true digits, zero carries and memo dots left blank. */
  function TrueEntries(q: Question, s: Settings): Entries
    requires Columnable(q, s)
  {
    map id | id in CellIds(q, s) && !id.key.SumCarry?
             && TrueValue(q, s, id.key) >= 0 && id.digit < |TrueDigits(q, s, id.key)|
             && !(IsCarry(id.key) && TrueValue(q, s, id.key) == 0)
      :: TrueDigits(q, s, id.key)[id.digit]
  }

  lemma {:induction false} TrueEntry(q: Question, s: Settings, id: CellId)
    requires Columnable(q, s) && Solvable(q, s)
    ensures id in TrueEntries(q, s) <==>
              && id.key in DrawnKeys(q, s) && !id.key.SumCarry?
              && id.digit < PlaceOf(q, s, id.key).width
              && !(IsCarry(id.key) && TrueValue(q, s, id.key) == 0)
    ensures id in TrueEntries(q, s) ==> TrueEntries(q, s)[id] < 10
  {
    hide DrawnKeys, TrueValue, PlaceOf;
    CellsAre(q, s, DrawnKeys(q, s));
    if id.key in DrawnKeys(q, s) && !id.key.SumCarry? {
      WidthIsTrue(q, s, id.key);
      TextDigits(TrueValue(q, s, id.key));
      if id.digit < PlaceOf(q, s, id.key).width {
        assert CellAt(id.key, PlaceOf(q, s, id.key), id.digit) in CellsOf(q, s, DrawnKeys(q, s));
        assert id in CellIds(q, s);
      }
    }
  }

  lemma {:induction false} TrueEntriesFill(q: Question, s: Settings)
    requires Columnable(q, s) && Solvable(q, s)
    ensures Digits(TrueEntries(q, s)) && Filled(q, s, TrueEntries(q, s))
  {
    hide DrawnKeys, TrueValue, PlaceOf, Order, TrueEntries;
    forall id | id in TrueEntries(q, s) ensures TrueEntries(q, s)[id] < 10 {
      TrueEntry(q, s, id);
    }
    forall id | id in Order(q, s) && !IsCarry(id.key) ensures id in TrueEntries(q, s) {
      InOrderIsVisited(Order(q, s), id);
      VisitedExactlyOnce(q, s, id);
      CellsAre(q, s, DrawnKeys(q, s));
      TrueEntry(q, s, id);
    }
  }

  lemma {:induction false} InOrderIsVisited(order: seq<CellId>, id: CellId)
    requires id in order
    ensures Visits(order, id) > 0
  {
    if order[|order| - 1] != id {
      InOrderIsVisited(order[..|order| - 1], id);
    }
  }

  lemma {:induction false} TrueEntriesRight(q: Question, s: Settings)
    requires Columnable(q, s) && Solvable(q, s)
    ensures AllRight(q, s, TrueEntries(q, s))
  {
    hide DrawnKeys, TrueValue, PlaceOf, NumDigits;
    forall key | key in DrawnKeys(q, s) && !key.SumCarry? ensures RightDigits(q, s, TrueEntries(q, s), key) {
      WidthIsTrue(q, s, key);
      forall d: nat | d < PlaceOf(q, s, key).width
        ensures (if CellId(key, d) in TrueEntries(q, s) then TrueEntries(q, s)[CellId(key, d)] else 0)
             == TrueDigits(q, s, key)[d]
      {
        TrueEntry(q, s, CellId(key, d));
        if IsCarry(key) && TrueValue(q, s, key) == 0 {
          assert Text(0) == [0];
        }
      }
    }
  }

  /** Every solvable question can be answered: the true digits, with zero carries left blank, are sent as expected. */
  lemma {:induction false} TrueEntriesAccepted(q: Question, s: Settings)
    requires Columnable(q, s) && Solvable(q, s)
    ensures Digits(TrueEntries(q, s)) && Filled(q, s, TrueEntries(q, s))
    ensures Sent(q, s, TrueEntries(q, s)) == Expected(q, s)
  {
    hide Sent, Expected, AllRight, TrueEntries, Filled;
    TrueEntriesFill(q, s);
    TrueEntriesRight(q, s);
    PageRefinesServer(q, s, TrueEntries(q, s));
  }

  /** A zero multiplier, by contrast, can be answered by no page: the answer itself is never sent. */
  lemma {:induction false} ZeroMultiplierUnanswerable(q: Question, s: Settings, e: Entries)
    requires Columnable(q, s) && s.operation.Multiply? && q.right == 0
    ensures Answer !in Sent(q, s, e) && Answer in Expected(q, s)
  {
    hide Fields;
    FieldKeys(q, s);
  }
}
