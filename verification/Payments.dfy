/**
 Manual payments and the access projection each family reads. A transaction's `began` is the database's
 `now()`, fixed when it starts; `clock` is the later moment at which it holds the family's lock.
 */
module Payments {
  import opened Days

  datatype Payment = Payment(family: int, amount: int, currency: string, starts: int, ends: int, limit: int,
                             created: int, refunded: Option<int>)

  /** No `until` means access without an end, as families claimed from the old system have. */
  datatype Policy = Policy(until: Option<int>, limit: int)

  datatype Books = Books(payments: map<string, Payment>, policies: map<int, Policy>)

  /** A payment as an operator enters it. */
  datatype Entry = Entry(reference: string, family: int, amount: int, currency: string, starts: int, ends: int,
                         limit: int, operator: string)

  const NEW_FAMILY_LIMIT := 3

  predicate UpperCase(s: string) {
    forall i :: 0 <= i < |s| ==> 'A' <= s[i] <= 'Z'
  }

  predicate EntryValid(v: Entry, checked: int) {
    && v.family > 0 && 0 < |v.reference| <= 200 && v.amount > 0 && |v.currency| == 3 && UpperCase(v.currency)
    && 1 <= v.limit <= 100 && v.ends > v.starts && v.starts <= checked && v.operator != ""
  }

  predicate SameEntry(p: Payment, v: Entry) {
    && p.family == v.family && p.amount == v.amount && p.currency == v.currency
    && p.starts == v.starts && p.ends == v.ends && p.limit == v.limit
  }

  predicate Covers(p: Payment, family: int, t: int) {
    p.family == family && p.refunded.None? && p.starts <= t && p.ends > t
  }

  predicate NotLater(p: Payment, q: Payment) {
    p.ends < q.ends || (p.ends == q.ends && p.created <= q.created)
  }

  function Recorded(b: Books, v: Entry, checked: int, began: int, children: int): (Error, Books) {
    if !EntryValid(v, checked) then (InvalidInput, b)
    else if v.family !in b.policies then (Failed, b)
    else if v.reference in b.payments then
      (if SameEntry(b.payments[v.reference], v) then Accepted else Conflict, b)
    else
      var policy := b.policies[v.family];
      if children > v.limit || (policy.until.Some? && v.ends < policy.until.value) then (Conflict, b)
      else
        (Accepted, Books(
           b.payments[v.reference := Payment(v.family, v.amount, v.currency, v.starts, v.ends, v.limit, began, None)],
           b.policies[v.family := Policy(Some(v.ends), v.limit)]))
  }

  predicate CoversAny(payments: map<string, Payment>, family: int, t: int) {
    exists r :: r in payments && Covers(payments[r], family, t)
  }

  /** The payment a refund falls back to. */
  ghost predicate IsLatest(payments: map<string, Payment>, family: int, t: int, reference: string) {
    && reference in payments && Covers(payments[reference], family, t)
    && forall r :: r in payments && Covers(payments[r], family, t) ==> NotLater(payments[r], payments[reference])
  }

  predicate HasPolicies(b: Books) {
    forall r :: r in b.payments ==> b.payments[r].family in b.policies
  }

  function MarkedRefunded(b: Books, reference: string, began: int): map<string, Payment>
    requires reference in b.payments
  {
    b.payments[reference := b.payments[reference].(refunded := Some(began))]
  }

  /** What a refund may answer and leave; only the choice among equally late payments is open. */
  ghost predicate RefundedTo(b: Books, reference: string, operator: string, began: int, clock: int,
      error: Error, after: Books)
    requires HasPolicies(b)
  {
    if reference == "" || operator == "" then error == InvalidInput && after == b
    else if reference !in b.payments then error == Failed && after == b
    else if b.payments[reference].refunded.Some? then error == Accepted && after == b
    else
      var family := b.payments[reference].family;
      var payments := MarkedRefunded(b, reference, began);
      && error == Accepted && after.payments == payments
      && if CoversAny(payments, family, began)
         then exists latest :: IsLatest(payments, family, began, latest)
                && after.policies == b.policies[family := Policy(Some(payments[latest].ends), payments[latest].limit)]
         else after.policies == b.policies[family := Policy(Some(clock), 0)]
  }

  class Ledger {
    var payments: map<string, Payment>
    var policies: map<int, Policy>

    function Data(): Books
      reads this
    {
      Books(payments, policies)
    }

    constructor ()
      ensures Data() == Books(map[], map[])
    {
      payments, policies := map[], map[];
    }

    /** A new family starts without access; a claimed one keeps its own, with room for the children it has. */
    method Provision(family: int, legacy: bool, children: int, clock: int)
      requires family !in policies
      modifies this`policies
      ensures policies == old(policies)[family := if legacy
                then Policy(None, if children > NEW_FAMILY_LIMIT then children else NEW_FAMILY_LIMIT)
                else Policy(Some(clock), NEW_FAMILY_LIMIT)]
    {
      var until := Some(clock);
      var limit := NEW_FAMILY_LIMIT;
      if legacy {
        until := None;
        if children > limit {
          limit := children;
        }
      }
      policies := policies[family := Policy(until, limit)];
    }

    method RecordPayment(v: Entry, checked: int, began: int, children: int) returns (e: Error)
      modifies this
      ensures (e, Data()) == Recorded(old(Data()), v, checked, began, children)
    {
      if !EntryValid(v, checked) {
        return InvalidInput;
      }
      if v.family !in policies {
        return Failed;
      }
      if v.reference in payments {
        if SameEntry(payments[v.reference], v) {
          return Accepted;
        }
        return Conflict;
      }
      var end := policies[v.family].until;
      if children > v.limit || (end.Some? && v.ends < end.value) {
        return Conflict;
      }
      payments := payments[v.reference := Payment(v.family, v.amount, v.currency, v.starts, v.ends, v.limit, began, None)];
      policies := policies[v.family := Policy(Some(v.ends), v.limit)];
      e := Accepted;
    }

    method RefundPayment(reference: string, operator: string, began: int, clock: int) returns (e: Error)
      requires HasPolicies(Data())
      modifies this
      ensures RefundedTo(old(Data()), reference, operator, began, clock, e, Data())
    {
      if reference == "" || operator == "" {
        return InvalidInput;
      }
      if reference !in payments {
        return Failed;
      }
      if payments[reference].refunded.Some? {
        return Accepted;
      }
      var family := payments[reference].family;
      payments := payments[reference := payments[reference].(refunded := Some(began))];
      var latest := FindLatest(payments, family, began);
      var until, limit := clock, 0;
      if latest.Some? {
        until, limit := payments[latest.value].ends, payments[latest.value].limit;
      }
      policies := policies[family := Policy(Some(until), limit)];
      e := Accepted;
    }
  }

  /** The latest payment that covers a moment among those already looked at. */
  ghost predicate LatestOf(payments: map<string, Payment>, seen: set<string>, family: int, t: int,
        latest: Option<string>)
    requires seen <= payments.Keys
  {
    if latest.None? then forall r :: r in seen ==> !Covers(payments[r], family, t)
    else
      && latest.value in seen && Covers(payments[latest.value], family, t)
      && forall r :: r in seen && Covers(payments[r], family, t) ==> NotLater(payments[r], payments[latest.value])
  }

  lemma {:induction false} LatestWith(payments: map<string, Payment>, seen: set<string>, family: int, t: int,
      latest: Option<string>, r: string)
    requires seen <= payments.Keys && r in payments && LatestOf(payments, seen, family, t, latest)
    ensures var takes := Covers(payments[r], family, t) && (latest.None? || NotLater(payments[latest.value], payments[r]));
            LatestOf(payments, seen + {r}, family, t, if takes then Some(r) else latest)
  {
    hide Covers;
  }

  method FindLatest(payments: map<string, Payment>, family: int, t: int) returns (latest: Option<string>)
    ensures latest.None? <==> !CoversAny(payments, family, t)
    ensures latest.Some? ==> IsLatest(payments, family, t, latest.value)
  {
    hide Covers, NotLater;
    latest := None;
    var todo := payments.Keys;
    ghost var seen: set<string> := {};
    while exists r :: r in todo
      invariant seen + todo == payments.Keys && LatestOf(payments, seen, family, t, latest)
      decreases |todo|
    {
      var r :| r in todo;
      LatestWith(payments, seen, family, t, latest, r);
      todo, seen := todo - {r}, seen + {r};
      if Covers(payments[r], family, t) && (latest.None? || NotLater(payments[latest.value], payments[r])) {
        latest := Some(r);
      }
    }
    assert seen == payments.Keys;
  }

  // ---------------------------------------------------------------- what callers read

  predicate Access(b: Books, family: int, active: bool, t: int)
    requires family in b.policies
  {
    active && (b.policies[family].until.None? || t < b.policies[family].until.value)
  }

  predicate Paid(b: Books, family: int, t: int) {
    CoversAny(b.payments, family, t)
  }
}
