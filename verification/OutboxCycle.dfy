/** The endless loop that visits the families page by page, and the batch it dispatches for each. */
module OutboxCycle {
  const PAGE := 50
  const LARGEST_BATCH := 20

  datatype Trouble = None | Starting | CatalogUnavailable | DispatchInterrupted

  /** Where the loop stands: the last family visited, and the error it reports. */
  datatype Cursor = Cursor(after: int, lastError: Trouble, cycleError: Trouble)

  predicate Ascending(ids: seq<int>) {
    forall i, j :: 0 <= i < j < |ids| ==> ids[i] < ids[j]
  }

  /** The families beyond the cursor, in order. */
  function Beyond(ids: seq<int>, after: int): seq<int> {
    if ids == [] then []
    else if ids[0] > after then ids
    else Beyond(ids[1..], after)
  }

  /** What the catalog answers: the first page beyond the cursor. */
  function Page(ids: seq<int>, after: int): seq<int> {
    var rest := Beyond(ids, after);
    if |rest| <= PAGE then rest else rest[..PAGE]
  }

  predicate AnyFails(ids: seq<int>, failing: set<int>) {
    exists i :: 0 <= i < |ids| && ids[i] in failing
  }

  /** One pass over a page; `failing` are the families whose batch breaks off. */
  function Passed(ids: seq<int>, failing: set<int>, c: Cursor): Cursor {
    var page := Page(ids, c.after);
    var trouble := AnyFails(page, failing);
    var last := if trouble then DispatchInterrupted else c.lastError;
    var cycle := if trouble then DispatchInterrupted else c.cycleError;
    if |page| < PAGE then Cursor(0, cycle, None) else Cursor(page[|page| - 1], last, cycle)
  }

  /** One turn of the loop, with the page's families dispatched in order. */
  method Turn(ids: seq<int>, reachable: bool, failing: set<int>, c: Cursor) returns (next: Cursor, visited: seq<int>)
    ensures reachable ==> visited == Page(ids, c.after) && next == Passed(ids, failing, c)
    ensures !reachable ==> visited == [] && next == Cursor(c.after, CatalogUnavailable, CatalogUnavailable)
  {
    next, visited := c, [];
    if !reachable {
      next := next.(lastError := CatalogUnavailable, cycleError := CatalogUnavailable);
      return;
    }
    var page := Page(ids, c.after);
    for i := 0 to |page|
      invariant visited == page[..i]
      invariant next.after == if i == 0 then c.after else page[i - 1]
      invariant AnyFails(page[..i], failing) ==>
                  next.lastError.DispatchInterrupted? && next.cycleError.DispatchInterrupted?
      invariant !AnyFails(page[..i], failing) ==> next.lastError == c.lastError && next.cycleError == c.cycleError
    {
      if page[i] in failing {
        next := next.(lastError := DispatchInterrupted, cycleError := DispatchInterrupted);
        assert page[..i + 1][i] in failing;
      }
      assert AnyFails(page[..i], failing) ==> AnyFails(page[..i + 1], failing) by {
        if AnyFails(page[..i], failing) {
          var j :| 0 <= j < i && page[..i][j] in failing;
          assert page[..i + 1][j] in failing;
        }
      }
      visited := visited + [page[i]];
      next := next.(after := page[i]);
    }
    assert page[..|page|] == page;
    if |page| < PAGE {
      next := Cursor(0, next.cycleError, None);
    }
  }

  lemma {:induction false} BeyondLast(ids: seq<int>, after: int, n: nat)
    requires Ascending(ids) && 0 < n <= |Beyond(ids, after)|
    ensures Beyond(ids, Beyond(ids, after)[n - 1]) == Beyond(ids, after)[n..]
    decreases |ids|, n
  {
    if ids[0] > after {
      CutAt(ids, n);
    } else {
      var rest := Beyond(ids[1..], after);
      BeyondLast(ids[1..], after, n);
      BeyondIn(ids[1..], after);
      assert rest[n - 1] > after;
    }
  }

  lemma {:induction false} BeyondIn(ids: seq<int>, after: int)
    requires Ascending(ids)
    ensures forall i :: 0 <= i < |Beyond(ids, after)| ==> Beyond(ids, after)[i] > after
  {
    if ids != [] && ids[0] <= after {
      BeyondIn(ids[1..], after);
    }
  }

  lemma {:induction false} CutAt(ids: seq<int>, n: nat)
    requires Ascending(ids) && 0 < n <= |ids|
    ensures Beyond(ids, ids[n - 1]) == ids[n..]
  {
    if n == 1 {
      assert |ids| > 1 ==> ids[1] > ids[0];
    } else {
      CutAt(ids[1..], n - 1);
      assert ids[1..][n - 2] == ids[n - 1];
      assert ids[1..][n - 1..] == ids[n..];
    }
  }

  /** The turns of one cycle, until the catalog has no full page left: the families visited, and the cursor after. */
  function Cycle(ids: seq<int>, failing: set<int>, c: Cursor): (seq<int>, Cursor)
    requires Ascending(ids)
    decreases |Beyond(ids, c.after)|
  {
    var page := Page(ids, c.after);
    var next := Passed(ids, failing, c);
    if |page| < PAGE then (page, next)
    else
      BeyondLast(ids, c.after, |page|);
      var (more, last) := Cycle(ids, failing, next);
      (page + more, last)
  }

  /**
   A cycle visits every family beyond its start exactly once and in order, ends at the start of the list,
   and then reports an error exactly when one happened since the previous cycle ended.
   */
  lemma {:induction false} CycleVisitsAll(ids: seq<int>, failing: set<int>, c: Cursor)
    requires Ascending(ids)
    ensures var (visited, last) := Cycle(ids, failing, c);
            && visited == Beyond(ids, c.after)
            && last.after == 0 && last.cycleError.None?
            && last.lastError == if AnyFails(Beyond(ids, c.after), failing) then DispatchInterrupted else c.cycleError
    decreases |Beyond(ids, c.after)|
  {
    var page, rest := Page(ids, c.after), Beyond(ids, c.after);
    if |page| == PAGE {
      BeyondLast(ids, c.after, |page|);
      var next := Passed(ids, failing, c);
      assert next.after == rest[|page| - 1];
      CycleVisitsAll(ids, failing, next);
      assert rest == page + rest[PAGE..];
      FailsInParts(page, rest[PAGE..], failing);
    }
  }

  lemma {:induction false} FailsInParts(a: seq<int>, b: seq<int>, failing: set<int>)
    ensures AnyFails(a + b, failing) <==> AnyFails(a, failing) || AnyFails(b, failing)
  {
    if AnyFails(a, failing) {
      var i :| 0 <= i < |a| && a[i] in failing;
      assert (a + b)[i] in failing;
    }
    if AnyFails(b, failing) {
      var i :| 0 <= i < |b| && b[i] in failing;
      assert (a + b)[|a| + i] in failing;
    }
  }

  /** From the start of the list, with positive family ids, nobody is left out. */
  lemma {:induction false} WholeCatalog(ids: seq<int>, failing: set<int>, c: Cursor)
    requires Ascending(ids) && c.after == 0 && forall i :: 0 <= i < |ids| ==> ids[i] > 0
    ensures Cycle(ids, failing, c).0 == ids
  {
    CycleVisitsAll(ids, failing, c);
  }

  // ---------------------------------------------------------------- a catalog that changes

  /** What one turn meets: the active families of then, whether the catalog answered, and whose batch breaks off. */
  datatype Round = Round(ids: seq<int>, reachable: bool, failing: set<int>)

  function Turned(r: Round, c: Cursor): Cursor {
    if r.reachable then Passed(r.ids, r.failing, c) else Cursor(c.after, CatalogUnavailable, CatalogUnavailable)
  }

  function Visited(r: Round, c: Cursor): seq<int> {
    if r.reachable then Page(r.ids, c.after) else []
  }

  /** A turn that has something to report. */
  predicate Troubled(r: Round, c: Cursor) {
    !r.reachable || AnyFails(Page(r.ids, c.after), r.failing)
  }

  predicate EndsCycle(r: Round, c: Cursor) {
    r.reachable && |Page(r.ids, c.after)| < PAGE
  }

  /** The turns from the start of the list on, none of which ends the cycle before turn n. */
  predicate Turns(rounds: seq<Round>, cs: seq<Cursor>, n: nat) {
    && n <= |rounds| && |cs| == |rounds| + 1 && cs[0].after == 0
    && (forall i :: 0 <= i < |rounds| ==> cs[i + 1] == Turned(rounds[i], cs[i]) && Ascending(rounds[i].ids))
    && forall i :: 0 <= i < n ==> !EndsCycle(rounds[i], cs[i])
  }

  lemma {:induction false} BeyondHas(ids: seq<int>, after: int, family: int)
    requires Ascending(ids)
    ensures family in Beyond(ids, after) <==> family in ids && family > after
  {
    if ids != [] {
      if ids[0] <= after {
        BeyondHas(ids[1..], after, family);
        assert ids == [ids[0]] + ids[1..];
      }
    }
  }

  lemma {:induction false} BeyondAscending(ids: seq<int>, after: int)
    requires Ascending(ids)
    ensures Ascending(Beyond(ids, after))
  {
    if ids != [] && ids[0] <= after {
      BeyondAscending(ids[1..], after);
    }
  }

  /** A page takes a family that is due, or stops short of it. */
  lemma {:induction false} PageTakes(ids: seq<int>, after: int, family: int)
    requires Ascending(ids) && family in ids
    ensures var page := Page(ids, after);
            && Ascending(page)
            && (family <= after ==> family !in page)
            && (family > after && |page| < PAGE ==> family in page)
            && (family > after && |page| == PAGE ==> (family in page <==> page[PAGE - 1] >= family))
            && (|page| == PAGE ==> page[PAGE - 1] > after)
  {
    var rest, page := Beyond(ids, after), Page(ids, after);
    BeyondHas(ids, after, family);
    BeyondAscending(ids, after);
    BeyondIn(ids, after);
    if family > after {
      var k :| 0 <= k < |rest| && rest[k] == family;
      if k < |page| {
        assert page[k] == family;
      }
    }
  }

  function VisitCount(rounds: seq<Round>, cs: seq<Cursor>, family: int, n: nat): nat
    requires n <= |rounds| && |cs| == |rounds| + 1
  {
    if n == 0 then 0
    else VisitCount(rounds, cs, family, n - 1) + if family in Visited(rounds[n - 1], cs[n - 1]) then 1 else 0
  }

  /** A turn that does not end the cycle visits a family exactly if it takes the cursor past it. */
  lemma {:induction false} TurnVisits(r: Round, c: Cursor, family: int)
    requires Ascending(r.ids) && !EndsCycle(r, c) && (r.reachable ==> family in r.ids)
    ensures c.after <= Turned(r, c).after
    ensures family in Visited(r, c) <==> c.after < family <= Turned(r, c).after
    ensures Turned(r, c).cycleError.None? <==> c.cycleError.None? && !Troubled(r, c)
  {
    if r.reachable {
      PageTakes(r.ids, c.after, family);
    }
  }

  lemma {:induction false} VisitedSoFar(rounds: seq<Round>, cs: seq<Cursor>, family: int, n: nat)
    requires Turns(rounds, cs, n) && family > 0
    requires forall i :: 0 <= i < |rounds| && rounds[i].reachable ==> family in rounds[i].ids
    ensures VisitCount(rounds, cs, family, n) == if cs[n].after < family then 0 else 1
    ensures cs[0].cycleError.None? ==>
              (cs[n].cycleError.None? <==> forall i :: 0 <= i < n ==> !Troubled(rounds[i], cs[i]))
  {
    hide Turned, Visited, Troubled, EndsCycle, Ascending;
    if n > 0 {
      VisitedSoFar(rounds, cs, family, n - 1);
      assert cs[n] == Turned(rounds[n - 1], cs[n - 1]);
      TurnVisits(rounds[n - 1], cs[n - 1], family);
    }
  }

  /**
   While other families come and go and some turns fail, a family that is active throughout a cycle is
   visited in exactly one of its turns, and once in that turn. When the cycle ends, an error is reported if
   and only if one of its turns had one.
   */
  lemma {:induction false} ActiveIsVisited(rounds: seq<Round>, cs: seq<Cursor>, family: int)
    requires |rounds| > 0 && Turns(rounds, cs, |rounds| - 1) && EndsCycle(rounds[|rounds| - 1], cs[|rounds| - 1])
    requires family > 0 && forall i :: 0 <= i < |rounds| && rounds[i].reachable ==> family in rounds[i].ids
    ensures VisitCount(rounds, cs, family, |rounds|) == 1
    ensures forall i :: 0 <= i < |rounds| ==> Ascending(Visited(rounds[i], cs[i]))
    ensures cs[0].cycleError.None? ==>
              (cs[|rounds|].lastError.None? <==> forall i :: 0 <= i < |rounds| ==> !Troubled(rounds[i], cs[i]))
  {
    var n := |rounds| - 1;
    VisitedSoFar(rounds, cs, family, n);
    forall i | 0 <= i < |rounds| ensures Ascending(Visited(rounds[i], cs[i])) {
      if rounds[i].reachable {
        PageTakes(rounds[i].ids, cs[i].after, family);
      }
    }
    PageTakes(rounds[n].ids, cs[n].after, family);
  }

  // ---------------------------------------------------------------- one batch

  datatype Claim = NoneLeft | ClaimFails | Dispatched | DispatchFails

  /** Dispatches until nothing is left, something fails, or the batch is full; `claims` is what each claim comes to. */
  method DispatchBatch(claims: seq<Claim>, limit: int) returns (done: int, ok: bool)
    requires |claims| >= limit
    ensures limit < 1 || limit > LARGEST_BATCH ==> done == 0 && !ok
    ensures 1 <= limit <= LARGEST_BATCH ==>
              && 0 <= done <= limit && (forall i :: 0 <= i < done ==> claims[i].Dispatched?)
              && (done < limit ==> !claims[done].Dispatched? && (ok <==> claims[done].NoneLeft?))
              && (done == limit ==> ok)
  {
    if limit < 1 || limit > LARGEST_BATCH {
      return 0, false;
    }
    done := 0;
    while done < limit
      invariant 0 <= done <= limit && forall i :: 0 <= i < done ==> claims[i].Dispatched?
    {
      match claims[done] {
        case NoneLeft => return done, true;
        case ClaimFails => return done, false;
        case DispatchFails => return done, false;
        case Dispatched => done := done + 1;
      }
    }
    ok := true;
  }
}
