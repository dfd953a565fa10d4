/** What the payments table promises, said of its rows alone: which entries it takes and what a refund leaves. */
module PaymentLaws {
  import opened Days
  import opened Payments
  import opened AccessTheorems

  /** The rules an operator's entry has to meet. */
  predicate Sound(reference: string, p: Payment) {
    && 1 <= |reference| <= 200 && p.family > 0 && p.amount > 0 && p.starts < p.ends && 1 <= p.limit <= 100
    && |p.currency| == 3 && forall i :: 0 <= i < 3 ==> 'A' <= p.currency[i] <= 'Z'
  }

  function Entered(v: Entry, began: int): Payment {
    Payment(v.family, v.amount, v.currency, v.starts, v.ends, v.limit, began, None)
  }

  /**
   A new entry is taken exactly when it is sound and already running, has room for the children there are, and does
   not shorten the access there is; it is recorded as entered and the family then has exactly what it bought.
   */
  lemma {:induction false} TakenIff(b: Books, v: Entry, checked: int, began: int, children: int)
    ensures var (e, after) := Recorded(b, v, checked, began, children);
            var sound := Sound(v.reference, Entered(v, began)) && v.starts <= checked && v.operator != "";
            && (e == InvalidInput <==> !sound)
            && (e == Failed <==> sound && v.family !in b.policies)
            && (after != b ==> e == Accepted && v.reference !in b.payments)
            && (v.reference in b.payments && sound && v.family in b.policies ==>
                  (e == Accepted <==>
                     var p := b.payments[v.reference];
                     p == Payment(v.family, v.amount, v.currency, v.starts, v.ends, v.limit, p.created, p.refunded)))
            && (v.reference !in b.payments ==>
                  (e == Accepted <==>
                     && sound && v.family in b.policies && children <= v.limit
                     && (b.policies[v.family].until.None? || b.policies[v.family].until.value <= v.ends)))
            && (v.reference !in b.payments && e == Accepted ==>
                  && after.payments == b.payments[v.reference := Entered(v, began)]
                  && after.policies == b.policies[v.family := Policy(Some(v.ends), v.limit)])
  {
    assert UpperCase(v.currency) && |v.currency| == 3 <==>
      |v.currency| == 3 && forall i :: 0 <= i < 3 ==> 'A' <= v.currency[i] <= 'Z';
  }

  lemma {:induction false} StepSound(b: Books, s: Timed, after: Books)
    requires HasPolicies(b) && Step(b, s, after) && forall r :: r in b.payments ==> Sound(r, b.payments[r])
    ensures forall r :: r in after.payments ==> Sound(r, after.payments[r])
    ensures forall r :: r in after.payments && r !in b.payments ==>
              && s.op.Record? && r == s.op.v.reference && after.payments[r] == Entered(s.op.v, s.began)
              && after.payments[r].starts <= after.payments[r].created && s.op.children <= after.payments[r].limit
  {
    match s.op {
      case Record(v, checked, children) =>
        TakenIff(b, v, checked, s.began, children);
      case Refund(reference, operator) =>
        PoliciesStay(b, s, after);
        var error :| RefundedTo(b, reference, operator, s.began, s.clock, error, after);
    }
  }

  /**
   After any run, whatever overlaps, every payment is sound and, if the run recorded it, running when it was recorded;
   from then on nothing of it changes but its refund, and that once.
   */
  lemma {:induction false} PaymentsStaySound(bs: seq<Books>, steps: seq<Timed>, i: nat, j: nat)
    requires Trace(bs, steps) && i <= j < |bs| && HasPolicies(bs[0])
    requires forall r :: r in bs[0].payments ==> Sound(r, bs[0].payments[r])
    ensures forall r :: r in bs[j].payments ==> Sound(r, bs[j].payments[r])
    ensures forall r :: r in bs[j].payments && r !in bs[0].payments ==> bs[j].payments[r].starts <= bs[j].payments[r].created
    ensures forall r :: r in bs[i].payments ==>
              && r in bs[j].payments
              && var (p, q) := (bs[i].payments[r], bs[j].payments[r]);
              && q == Payment(p.family, p.amount, p.currency, p.starts, p.ends, p.limit, p.created, q.refunded)
              && (p.refunded.Some? ==> q.refunded == p.refunded)
    decreases j
  {
    hide Step, Sound, HasPolicies;
    forall r | r in bs[i].payments ensures r in bs[j].payments && SameButRefund(bs[i].payments[r], bs[j].payments[r]) {
      EntryKept(bs, steps, i, j, r);
    }
    if j > 0 {
      PaymentsStaySound(bs, steps, 0, j - 1);
      PoliciesAlong(bs, steps, j - 1);
      StepSound(bs[j - 1], steps[j - 1], bs[j]);
      PoliciesStay(bs[j - 1], steps[j - 1], bs[j]);
    }
  }

  /** A payment that counts for a family at a moment. */
  predicate Running(payments: map<string, Payment>, r: string, family: int, t: int) {
    r in payments && payments[r].family == family && payments[r].refunded.None? && payments[r].starts <= t < payments[r].ends
  }

  /**
   A refund marks the one payment, and the family falls back to a running payment that ends last and, among those, was
   recorded last, or to no access and no children when none runs.
   */
  lemma {:induction false} FallsBack(b: Books, reference: string, operator: string, began: int, clock: int, e: Error,
        after: Books)
    requires HasPolicies(b) && RefundedTo(b, reference, operator, began, clock, e, after)
    ensures e == InvalidInput <==> reference == "" || operator == ""
    ensures e == Failed <==> reference != "" && operator != "" && reference !in b.payments
    ensures after != b ==> e == Accepted
    ensures e == Accepted && b.payments[reference].refunded.Some? ==> after == b
    ensures e == Accepted && b.payments[reference].refunded.None? ==>
              var p := b.payments[reference];
              && after.payments == b.payments[reference :=
                   Payment(p.family, p.amount, p.currency, p.starts, p.ends, p.limit, p.created, Some(began))]
              && after.policies.Keys == b.policies.Keys
              && (forall family :: family in b.policies && family != p.family ==>
                    after.policies[family] == b.policies[family])
              && if exists r :: Running(after.payments, r, p.family, began)
                 then exists last :: Running(after.payments, last, p.family, began)
                        && after.policies[p.family] == Policy(Some(after.payments[last].ends), after.payments[last].limit)
                        && forall r :: Running(after.payments, r, p.family, began) ==>
                             || after.payments[r].ends < after.payments[last].ends
                             || (after.payments[r].ends == after.payments[last].ends
                                 && after.payments[r].created <= after.payments[last].created)
                 else after.policies[p.family] == Policy(Some(clock), 0)
  {
    if e == Accepted && b.payments[reference].refunded.None? {
      var family := b.payments[reference].family;
      if CoversAny(after.payments, family, began) {
        var latest :| IsLatest(after.payments, family, began, latest)
               && after.policies == b.policies[family := Policy(Some(after.payments[latest].ends), after.payments[latest].limit)];
        assert Running(after.payments, latest, family, began);
      }
      assert (exists r :: Running(after.payments, r, family, began)) ==> CoversAny(after.payments, family, began);
    }
  }
}
