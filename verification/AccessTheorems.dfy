/**
 The projection against the payments table: for transactions of one family that run one after another, access
 is open exactly while a payment covers it. When a transaction started before the one it waited for, that can
 fail; the exact conditions are given, for one transaction in any state and for whole runs.
 */
module AccessTheorems {
  import opened Days
  import opened Payments

  predicate Counts(p: Payment, family: int) {
    p.family == family && p.refunded.None?
  }

  function Until(b: Books, family: int): int
    requires family in b.policies && b.policies[family].until.Some?
  {
    b.policies[family].until.value
  }

  predicate Ends(b: Books, family: int) {
    family in b.policies && b.policies[family].until.Some?
  }

  /** From a moment on, the projection is open exactly while a payment covers. */
  ghost predicate AgreesFrom(b: Books, family: int, from: int)
    requires Ends(b, family)
  {
    forall t :: t >= from ==> (Until(b, family) > t <==> CoversAny(b.payments, family, t))
  }

  /** The projection is that of the latest payment not refunded. */
  ghost predicate Projects(b: Books, family: int, reference: string)
    requires Ends(b, family)
  {
    && reference in b.payments && Counts(b.payments[reference], family)
    && b.payments[reference].ends == Until(b, family) && b.payments[reference].limit == b.policies[family].limit
    && forall r :: r in b.payments && Counts(b.payments[r], family) ==> NotLater(b.payments[r], b.payments[reference])
  }

  /** What transactions that do not overlap keep. */
  ghost predicate Projected(b: Books, family: int, now: int) {
    && Ends(b, family)
    && (forall r :: r in b.payments && b.payments[r].family == family ==>
          b.payments[r].starts <= now && b.payments[r].created <= now)
    && (forall r :: r in b.payments && Counts(b.payments[r], family) ==>
          b.payments[r].ends <= Until(b, family) || b.payments[r].ends <= now)
    && (Until(b, family) > now ==> exists reference :: Projects(b, family, reference))
  }

  /** A projected ledger answers both questions alike at every later moment, with the right child limit. */
  lemma {:induction false} ProjectedAgrees(b: Books, family: int, now: int, t: int)
    requires Projected(b, family, now) && t >= now
    ensures AgreesFrom(b, family, now)
    ensures Access(b, family, true, t) == Paid(b, family, t)
    ensures Access(b, family, true, t) ==> exists reference :: Projects(b, family, reference)
  {
    forall u | u >= now ensures Until(b, family) > u <==> CoversAny(b.payments, family, u) {
      if Until(b, family) > u {
        var reference :| Projects(b, family, reference);
        assert Covers(b.payments[reference], family, u);
      }
    }
    assert Until(b, family) > t <==> CoversAny(b.payments, family, t);
  }

  lemma {:induction false} Later(b: Books, family: int, now: int, t: int)
    requires Projected(b, family, now) && t >= now
    ensures Projected(b, family, t)
  {
  }

  // ---------------------------------------------------------------- one transaction after another

  lemma {:induction false} RecordProjects(b: Books, v: Entry, checked: int, began: int, clock: int, children: int)
    requires Projected(b, v.family, began) && checked <= began <= clock
    requires Recorded(b, v, checked, began, children).1 != b
    ensures Projected(Recorded(b, v, checked, began, children).1, v.family, clock)
  {
    hide UpperCase, SameEntry;
    if v.ends > clock {
      assert Projects(Recorded(b, v, checked, began, children).1, v.family, v.reference);
    }
  }

  lemma {:induction false} ProjectedEnds(b: Books, family: int, now: int)
    requires Projected(b, family, now)
    ensures Ends(b, family)
  {
  }

  lemma {:induction false} RefundProjects(b: Books, reference: string, operator: string, began: int, clock: int,
      after: Books, family: int)
    requires Projected(b, family, began) && began <= clock && HasPolicies(b) && reference != "" && operator != ""
    requires reference in b.payments && b.payments[reference].family == family && b.payments[reference].refunded.None?
    requires RefundedTo(b, reference, operator, began, clock, Accepted, after)
    ensures Projected(after, family, clock)
  {
    var payments := MarkedRefunded(b, reference, began);
    forall r | r in payments && Counts(payments[r], family) && payments[r].ends > began
      ensures Covers(payments[r], family, began)
    {
      assert r in b.payments && b.payments[r].starts <= began;
    }
    if CoversAny(payments, family, began) {
      var latest :| IsLatest(payments, family, began, latest)
                    && after.policies == b.policies[family := Policy(Some(payments[latest].ends), payments[latest].limit)];
      assert Projects(after, family, latest);
    } else {
      forall r | r in payments && Counts(payments[r], family) ensures payments[r].ends <= began {
        assert !Covers(payments[r], family, began);
      }
    }
  }

  // ---------------------------------------------------------------- runs

  datatype Op =
    | Record(v: Entry, checked: int, children: int)
    | Refund(reference: string, operator: string)

  datatype Timed = Timed(op: Op, began: int, clock: int)

  ghost predicate Step(b: Books, s: Timed, after: Books) {
    s.began <= s.clock && match s.op
      case Record(v, checked, children) =>
        checked <= s.began && after == Recorded(b, v, checked, s.began, children).1
      case Refund(reference, operator) =>
        HasPolicies(b) ==> exists error :: RefundedTo(b, reference, operator, s.began, s.clock, error, after)
  }

  ghost predicate Trace(bs: seq<Books>, steps: seq<Timed>) {
    |bs| == |steps| + 1 && forall i :: 0 <= i < |steps| ==> Step(bs[i], steps[i], bs[i + 1])
  }

  /** A transaction that changes something of this family: a payment of its own, or the refund of one. */
  predicate Moves(b: Books, s: Timed, after: Books, family: int) {
    after != b && match s.op
      case Record(v, _, _) => v.family == family
      case Refund(reference, _) => reference in b.payments && b.payments[reference].family == family
  }

  /** When the family's last change before step i held its lock; other families have locks of their own. */
  function Clock(bs: seq<Books>, steps: seq<Timed>, family: int, start: int, i: nat): int
    requires i <= |steps| && |bs| == |steps| + 1
  {
    if i == 0 then start
    else if Moves(bs[i - 1], steps[i - 1], bs[i], family) then steps[i - 1].clock
    else Clock(bs, steps, family, start, i - 1)
  }

  /** No change of this family starts before the one ahead of it held the lock. */
  predicate InTurn(bs: seq<Books>, steps: seq<Timed>, family: int, start: int)
    requires |bs| == |steps| + 1
  {
    forall i :: 0 <= i < |steps| && Moves(bs[i], steps[i], bs[i + 1], family) ==>
      Clock(bs, steps, family, start, i) <= steps[i].began
  }

  lemma {:induction false} PoliciesStay(b: Books, s: Timed, after: Books)
    requires HasPolicies(b) && Step(b, s, after)
    ensures HasPolicies(after) && b.policies.Keys == after.policies.Keys
    ensures forall r :: r in b.payments ==> r in after.payments && SameButRefund(b.payments[r], after.payments[r])
  {
    hide EntryValid, SameEntry, NotLater, Covers;
    if s.op.Refund? {
      var error :| RefundedTo(b, s.op.reference, s.op.operator, s.began, s.clock, error, after);
    }
  }

  predicate SameButRefund(p: Payment, q: Payment) {
    q == p.(refunded := q.refunded) && (p.refunded.Some? ==> q.refunded == p.refunded)
  }

  lemma {:induction false} StepProjects(b: Books, s: Timed, after: Books, family: int)
    requires HasPolicies(b) && Step(b, s, after) && Moves(b, s, after, family) && Projected(b, family, s.began)
    ensures Projected(after, family, s.clock)
  {
    hide Projected, RefundedTo, Recorded;
    match s.op {
      case Record(v, checked, children) => RecordProjects(b, v, checked, s.began, s.clock, children);
      case Refund(reference, operator) =>
        var error :| RefundedTo(b, reference, operator, s.began, s.clock, error, after);
        RefundMoves(b, reference, operator, s.began, s.clock, error, after);
        RefundProjects(b, reference, operator, s.began, s.clock, after, family);
    }
  }

  lemma {:induction false} RefundMoves(b: Books, reference: string, operator: string, began: int, clock: int,
      error: Error, after: Books)
    requires HasPolicies(b) && RefundedTo(b, reference, operator, began, clock, error, after) && after != b
    ensures reference in b.payments && b.payments[reference].refunded.None? && reference != "" && operator != ""
    ensures error == Accepted
  {
  }

  /** What the books say about one family is the same. */
  ghost predicate SameBooks(b: Books, after: Books, family: int) {
    && family in b.policies && family in after.policies && after.policies[family] == b.policies[family]
    && forall r ::
         || (r in b.payments && b.payments[r].family == family)
         || (r in after.payments && after.payments[r].family == family) ==>
           r in b.payments && r in after.payments && after.payments[r] == b.payments[r]
  }

  lemma {:induction false} OthersAlone(b: Books, s: Timed, after: Books, family: int)
    requires HasPolicies(b) && Step(b, s, after) && !Moves(b, s, after, family) && family in b.policies
    ensures SameBooks(b, after, family)
  {
    hide EntryValid, SameEntry, Covers, NotLater;
    if after != b && s.op.Refund? {
      var error :| RefundedTo(b, s.op.reference, s.op.operator, s.began, s.clock, error, after);
    }
  }

  /** A transaction that changes nothing of a family leaves its projection as it was. */
  lemma {:induction false} ElsewhereProjects(b: Books, s: Timed, after: Books, family: int, now: int)
    requires HasPolicies(b) && Step(b, s, after) && !Moves(b, s, after, family) && Projected(b, family, now)
    ensures Projected(after, family, now)
  {
    hide Step, Moves, NotLater;
    OthersAlone(b, s, after, family);
    if Until(b, family) > now {
      var latest :| Projects(b, family, latest);
      assert Projects(after, family, latest);
    }
  }

  lemma {:induction false} RunProjects(bs: seq<Books>, steps: seq<Timed>, start: int, family: int, i: nat)
    requires Trace(bs, steps) && InTurn(bs, steps, family, start) && i < |bs|
    requires HasPolicies(bs[0]) && Projected(bs[0], family, start)
    ensures HasPolicies(bs[i]) && Projected(bs[i], family, Clock(bs, steps, family, start, i))
  {
    hide Projected, HasPolicies, Step, Moves;
    if i > 0 {
      RunProjects(bs, steps, start, family, i - 1);
      var now := Clock(bs, steps, family, start, i - 1);
      PoliciesStay(bs[i - 1], steps[i - 1], bs[i]);
      if Moves(bs[i - 1], steps[i - 1], bs[i], family) {
        Later(bs[i - 1], family, now, steps[i - 1].began);
        StepProjects(bs[i - 1], steps[i - 1], bs[i], family);
      } else {
        ElsewhereProjects(bs[i - 1], steps[i - 1], bs[i], family, now);
      }
    }
  }

  /** A family as it is provisioned anew. */
  predicate NewFamily(b: Books, family: int, start: int) {
    && family in b.policies && b.policies[family] == Policy(Some(start), NEW_FAMILY_LIMIT)
    && forall r :: r in b.payments ==> b.payments[r].family != family
  }

  /**
   For a family provisioned as new, after any payments, repeats and refunds of its own in turn, whatever other
   families do meanwhile, and at every later moment: the family has access exactly when a payment covers the
   moment, and while it has, its child limit is that of the latest payment not refunded.
   */
  lemma {:induction false} AccessIsPaid(bs: seq<Books>, steps: seq<Timed>, start: int, family: int, i: nat, t: int)
    requires Trace(bs, steps) && InTurn(bs, steps, family, start) && i < |bs|
    requires HasPolicies(bs[0]) && NewFamily(bs[0], family, start) && t >= Clock(bs, steps, family, start, i)
    ensures Ends(bs[i], family)
    ensures Access(bs[i], family, true, t) == Paid(bs[i], family, t)
    ensures Access(bs[i], family, true, t) ==> exists reference :: Projects(bs[i], family, reference)
  {
    hide Step, Access, Paid, Projects;
    assert Projected(bs[0], family, start);
    hide Projected;
    RunProjects(bs, steps, start, family, i);
    ProjectedEnds(bs[i], family, Clock(bs, steps, family, start, i));
    ProjectedAgrees(bs[i], family, Clock(bs, steps, family, start, i), t);
  }

  // ---------------------------------------------------------------- repeats

  lemma {:induction false} EntryKept(bs: seq<Books>, steps: seq<Timed>, i: nat, j: nat, reference: string)
    requires Trace(bs, steps) && i <= j < |bs| && HasPolicies(bs[0]) && reference in bs[i].payments
    ensures HasPolicies(bs[j])
    ensures reference in bs[j].payments && SameButRefund(bs[i].payments[reference], bs[j].payments[reference])
    decreases j
  {
    hide Step, HasPolicies;
    if i < j {
      EntryKept(bs, steps, i, j - 1, reference);
      PoliciesStay(bs[j - 1], steps[j - 1], bs[j]);
    } else if i > 0 {
      PoliciesAlong(bs, steps, i);
    }
  }

  lemma {:induction false} PoliciesAlong(bs: seq<Books>, steps: seq<Timed>, i: nat)
    requires Trace(bs, steps) && i < |bs| && HasPolicies(bs[0])
    ensures HasPolicies(bs[i])
  {
    hide Step, HasPolicies;
    if i > 0 {
      PoliciesAlong(bs, steps, i - 1);
      PoliciesStay(bs[i - 1], steps[i - 1], bs[i]);
    }
  }

  /**
   A payment once recorded answers any repeat of itself with success and any other entry under its
   reference with a conflict, at any later time and even after its refund, and neither changes anything.
   A second refund changes nothing.
   */
  lemma {:induction false} RepeatsChangeNothing(bs: seq<Books>, steps: seq<Timed>, i: nat, j: nat, v: Entry,
      checked: int, began: int, children: int)
    requires Trace(bs, steps) && i <= j < |bs| && HasPolicies(bs[0]) && v.reference in bs[i].payments
    requires EntryValid(v, checked) && v.family in bs[j].policies
    ensures Recorded(bs[j], v, checked, began, children)
         == (if SameEntry(bs[i].payments[v.reference], v) then Accepted else Conflict, bs[j])
    ensures HasPolicies(bs[j])
    ensures bs[i].payments[v.reference].refunded.Some? ==> forall after, error, clock ::
              RefundedTo(bs[j], v.reference, v.operator, began, clock, error, after) ==> after == bs[j] && error == Accepted
  {
    hide Step, HasPolicies;
    EntryKept(bs, steps, i, j, v.reference);
  }

  // ---------------------------------------------------------------- transactions that overlap

  predicate Started(b: Books, family: int, now: int) {
    forall r :: r in b.payments && b.payments[r].family == family ==> b.payments[r].starts <= now
  }

  /** Seen before a payment: nothing that counts and still runs outlasts it. */
  predicate NoneOutlasts(b: Books, family: int, ends: int, clock: int) {
    forall r :: r in b.payments && Counts(b.payments[r], family) ==>
      b.payments[r].ends <= ends || b.payments[r].ends <= clock
  }

  /**
   A payment leaves access and payments in agreement, in whatever state its transaction found them, if and
   only if no running payment outlasts it.
   */
  lemma {:induction false} RecordAgreesIff(b: Books, v: Entry, checked: int, began: int, clock: int, children: int)
    requires Started(b, v.family, clock) && checked <= clock
    requires Recorded(b, v, checked, began, children).1 != b
    ensures Ends(Recorded(b, v, checked, began, children).1, v.family)
    ensures AgreesFrom(Recorded(b, v, checked, began, children).1, v.family, clock) <==>
              NoneOutlasts(b, v.family, v.ends, clock)
  {
    hide SameEntry, UpperCase;
    var after := Recorded(b, v, checked, began, children).1;
    var added := after.payments[v.reference];
    assert forall r :: r in b.payments ==> after.payments[r] == b.payments[r];
    if AgreesFrom(after, v.family, clock) {
      forall r | r in b.payments && Counts(b.payments[r], v.family)
        ensures b.payments[r].ends <= v.ends || b.payments[r].ends <= clock
      {
        var t := if v.ends > clock then v.ends else clock;
        assert Until(after, v.family) > t <==> CoversAny(after.payments, v.family, t);
        assert !Covers(after.payments[r], v.family, t);
      }
    }
    if NoneOutlasts(b, v.family, v.ends, clock) {
      forall t | t >= clock ensures Until(after, v.family) > t <==> CoversAny(after.payments, v.family, t) {
        assert Covers(added, v.family, t) <==> v.ends > t;
        if CoversAny(after.payments, v.family, t) {
          var r :| r in after.payments && Covers(after.payments[r], v.family, t);
          assert r != v.reference ==> Counts(b.payments[r], v.family);
        }
      }
    }
  }

  /** So a payment never breaks an agreement it finds, however long its transaction waited. */
  lemma {:induction false} RecordAgrees(b: Books, v: Entry, checked: int, began: int, clock: int, children: int)
    requires Ends(b, v.family) && AgreesFrom(b, v.family, clock) && checked <= clock
    requires Recorded(b, v, checked, began, children).1 != b
    ensures Ends(Recorded(b, v, checked, began, children).1, v.family)
    ensures AgreesFrom(Recorded(b, v, checked, began, children).1, v.family, clock)
  {
    hide SameEntry;
    var after := Recorded(b, v, checked, began, children).1;
    var added := after.payments[v.reference];
    forall t | t >= clock ensures Until(after, v.family) > t <==> CoversAny(after.payments, v.family, t) {
      assert Until(b, v.family) > t <==> CoversAny(b.payments, v.family, t);
      assert Covers(added, v.family, t) <==> v.ends > t;
      if CoversAny(after.payments, v.family, t) {
        var r :| r in after.payments && Covers(after.payments[r], v.family, t);
        assert r != v.reference ==> Covers(b.payments[r], v.family, t);
      }
    }
  }

  /**
   Seen before the refund: a payment that starts after the refund's transaction began and is still running
   does not outlast every other payment that covered that beginning.
   */
  predicate NoneMissed(b: Books, reference: string, family: int, began: int, clock: int) {
    forall r :: r in b.payments && r != reference && Counts(b.payments[r], family) && b.payments[r].starts > began ==>
      || b.payments[r].ends <= clock
      || exists q :: q in b.payments && q != reference && Covers(b.payments[q], family, began)
                     && b.payments[q].ends >= b.payments[r].ends
  }

  /**
   A refund leaves access and payments in agreement if and only if no running payment that starts after the
   refund's transaction began outlasts all those that it can fall back to.
   */
  lemma {:induction false} RefundAgreesIff(b: Books, reference: string, operator: string, began: int,
      clock: int, after: Books)
    requires HasPolicies(b) && reference in b.payments && began <= clock
    requires b.payments[reference].refunded.None? && reference != "" && operator != ""
    requires RefundedTo(b, reference, operator, began, clock, Accepted, after)
    requires Started(b, b.payments[reference].family, clock)
    ensures Ends(after, b.payments[reference].family)
    ensures var family := b.payments[reference].family;
            AgreesFrom(after, family, clock) <==> NoneMissed(b, reference, family, began, clock)
  {
    hide NotLater;
    var family := b.payments[reference].family;
    var payments := MarkedRefunded(b, reference, began);
    assert forall r :: r in payments && Counts(payments[r], family) ==> payments[r].starts <= clock;
    FallsBack(b, reference, operator, began, clock, after);
    var until := Until(after, family);
    if AgreesFrom(after, family, clock) {
      forall r | r in b.payments && r != reference && Counts(b.payments[r], family) && b.payments[r].starts > began
        ensures b.payments[r].ends <= until || b.payments[r].ends <= clock
      {
        var t := if until > clock then until else clock;
        assert payments[r] == b.payments[r];
        assert until > t <==> CoversAny(payments, family, t);
        assert !Covers(payments[r], family, t);
      }
      FallbackMatters(b, reference, operator, began, clock, after);
    } else {
      var t :| t >= clock && !(until > t <==> CoversAny(payments, family, t));
      var r :| r in payments && Covers(payments[r], family, t);
      assert Covers(payments[r], family, began) <==> payments[r].starts <= began;
      assert r != reference && b.payments[r] == payments[r] && payments[r].starts > began && payments[r].ends > until;
      FallbackMatters(b, reference, operator, began, clock, after);
    }
  }

  /** The fallback is the latest of the others that covered the beginning, seen from before the refund. */
  lemma {:induction false} FallbackMatters(b: Books, reference: string, operator: string, began: int,
      clock: int, after: Books)
    requires HasPolicies(b) && reference in b.payments && began <= clock
    requires b.payments[reference].refunded.None? && reference != "" && operator != ""
    requires RefundedTo(b, reference, operator, began, clock, Accepted, after)
    ensures var family := b.payments[reference].family;
            && Ends(after, family)
            && (forall q :: q in b.payments && q != reference && Covers(b.payments[q], family, began) ==>
                  b.payments[q].ends <= Until(after, family))
            && (Until(after, family) > clock ==>
                  exists q :: q in b.payments && q != reference && Covers(b.payments[q], family, began)
                              && b.payments[q].ends == Until(after, family))
  {
    var family := b.payments[reference].family;
    var payments := MarkedRefunded(b, reference, began);
    if CoversAny(payments, family, began) {
      var latest :| IsLatest(payments, family, began, latest)
                    && after.policies == b.policies[family := Policy(Some(payments[latest].ends), payments[latest].limit)];
      assert latest != reference && b.payments[latest] == payments[latest];
      forall q | q in b.payments && q != reference && Covers(b.payments[q], family, began)
        ensures b.payments[q].ends <= Until(after, family)
      {
        assert Covers(payments[q], family, began);
      }
    } else {
      forall q | q in b.payments && q != reference ensures !Covers(b.payments[q], family, began) {
        assert !Covers(payments[q], family, began);
      }
    }
  }

  /** What a refund leaves as the end of access: nothing that had begun outlasts it, and something covers up to it. */
  lemma {:induction false} FallsBack(b: Books, reference: string, operator: string, began: int, clock: int,
        after: Books)
    requires HasPolicies(b) && reference in b.payments && began <= clock
    requires b.payments[reference].refunded.None? && reference != "" && operator != ""
    requires RefundedTo(b, reference, operator, began, clock, Accepted, after)
    ensures var family := b.payments[reference].family;
            && Ends(after, family) && after.payments == MarkedRefunded(b, reference, began)
            && (forall r :: r in after.payments && Covers(after.payments[r], family, began) && after.payments[r].ends > clock ==>
                  after.payments[r].ends <= Until(after, family))
            && (Until(after, family) > clock ==>
                  forall t :: clock <= t < Until(after, family) ==> CoversAny(after.payments, family, t))
  {
    var family := b.payments[reference].family;
    var payments := MarkedRefunded(b, reference, began);
    if CoversAny(payments, family, began) {
      var latest :| IsLatest(payments, family, began, latest)
                    && after.policies == b.policies[family := Policy(Some(payments[latest].ends), payments[latest].limit)];
      forall t | clock <= t < payments[latest].ends ensures CoversAny(payments, family, t) {
        assert Covers(payments[latest], family, t);
      }
    }
  }

  /** Seen before a payment: none that counts outlasts it, or shares its end and was created later. */
  predicate WillBeLatest(b: Books, family: int, ends: int, began: int) {
    forall r :: r in b.payments && Counts(b.payments[r], family) ==>
      b.payments[r].ends < ends || (b.payments[r].ends == ends && b.payments[r].created <= began)
  }

  /** A latest payment of this very end and limit that is there already and came no earlier. */
  predicate SameInPlace(b: Books, v: Entry, began: int, p: string) {
    && p in b.payments && Counts(b.payments[p], v.family)
    && b.payments[p].ends == v.ends && b.payments[p].limit == v.limit && b.payments[p].created >= began
    && forall r :: r in b.payments && Counts(b.payments[r], v.family) ==> NotLater(b.payments[r], b.payments[p])
  }

  /**
   A payment leaves the child limit of the latest payment, in whatever state its transaction found the books,
   if and only if it will be the latest itself, or the latest of all is there already with its end and limit.
   */
  lemma {:induction false} RecordLimitIff(b: Books, v: Entry, checked: int, began: int, children: int)
    requires Recorded(b, v, checked, began, children).1 != b
    ensures Ends(Recorded(b, v, checked, began, children).1, v.family)
    ensures Projects(Recorded(b, v, checked, began, children).1, v.family, v.reference) <==>
              WillBeLatest(b, v.family, v.ends, began)
    ensures (exists p :: Projects(Recorded(b, v, checked, began, children).1, v.family, p)) <==>
              WillBeLatest(b, v.family, v.ends, began) || exists p :: SameInPlace(b, v, began, p)
  {
    hide EntryValid, SameEntry;
    var after := Recorded(b, v, checked, began, children).1;
    assert forall r :: r in b.payments ==> after.payments[r] == b.payments[r];
    if Projects(after, v.family, v.reference) {
      forall r | r in b.payments && Counts(b.payments[r], v.family)
        ensures b.payments[r].ends < v.ends || (b.payments[r].ends == v.ends && b.payments[r].created <= began)
      {
        assert NotLater(after.payments[r], after.payments[v.reference]);
      }
    }
    forall p | p != v.reference ensures Projects(after, v.family, p) <==> SameInPlace(b, v, began, p) {
      InPlaceProjects(b, v, checked, began, children, p);
    }
  }

  lemma {:induction false} InPlaceProjects(b: Books, v: Entry, checked: int, began: int, children: int, p: string)
    requires Recorded(b, v, checked, began, children).1 != b && p != v.reference
    ensures Ends(Recorded(b, v, checked, began, children).1, v.family)
    ensures Projects(Recorded(b, v, checked, began, children).1, v.family, p) <==> SameInPlace(b, v, began, p)
  {
    hide EntryValid, SameEntry;
    var after := Recorded(b, v, checked, began, children).1;
    assert forall r :: r in b.payments ==> after.payments[r] == b.payments[r];
    if Projects(after, v.family, p) {
      assert NotLater(after.payments[v.reference], after.payments[p]);
      forall r | r in b.payments && Counts(b.payments[r], v.family) ensures NotLater(b.payments[r], b.payments[p]) {
        assert NotLater(after.payments[r], after.payments[p]);
      }
    }
  }

  /** A payment that a refund may fall back to, seen before the refund. */
  predicate CanFallBack(b: Books, reference: string, family: int, began: int, q: string) {
    q in b.payments && q != reference && Covers(b.payments[q], family, began)
  }

  /** A payment the refund does not see although it is later than all it can fall back to. */
  ghost predicate Overlooked(b: Books, reference: string, family: int, began: int, r: string) {
    && r in b.payments && r != reference && Counts(b.payments[r], family) && b.payments[r].starts > began
    && forall q :: CanFallBack(b, reference, family, began, q) ==> !NotLater(b.payments[r], b.payments[q])
  }

  /** The latest payment that the refund leaves. */
  predicate LatestLeft(b: Books, reference: string, family: int, p: string) {
    && p in b.payments && p != reference && Counts(b.payments[p], family)
    && forall r :: r in b.payments && r != reference && Counts(b.payments[r], family) ==>
         NotLater(b.payments[r], b.payments[p])
  }

  /** The fallback of a refund that leaves access open. */
  lemma {:induction false} FallbackOf(b: Books, reference: string, operator: string, began: int, clock: int,
        after: Books)
    returns (q: string)
    requires HasPolicies(b) && reference in b.payments && began <= clock
    requires b.payments[reference].refunded.None? && reference != "" && operator != ""
    requires RefundedTo(b, reference, operator, began, clock, Accepted, after)
    requires Ends(after, b.payments[reference].family) && Until(after, b.payments[reference].family) > clock
    ensures var family := b.payments[reference].family;
            && CanFallBack(b, reference, family, began, q)
            && (forall r :: CanFallBack(b, reference, family, began, r) ==> NotLater(b.payments[r], b.payments[q]))
            && after.policies[family] == Policy(Some(b.payments[q].ends), b.payments[q].limit)
  {
    hide NotLater;
    var family := b.payments[reference].family;
    var payments := MarkedRefunded(b, reference, began);
    assert CoversAny(payments, family, began);
    q :| IsLatest(payments, family, began, q)
         && after.policies == b.policies[family := Policy(Some(payments[q].ends), payments[q].limit)];
    assert q != reference && b.payments[q] == payments[q];
    forall r | CanFallBack(b, reference, family, began, r) ensures NotLater(b.payments[r], b.payments[q]) {
      assert payments[r] == b.payments[r];
    }
  }

  lemma {:induction false} LeftAfter(b: Books, reference: string, began: int, after: Books, p: string)
    requires reference in b.payments && after.payments == MarkedRefunded(b, reference, began)
    requires Ends(after, b.payments[reference].family)
    ensures var family := b.payments[reference].family;
            Projects(after, family, p) <==>
              && LatestLeft(b, reference, family, p)
              && b.payments[p].ends == Until(after, family) && b.payments[p].limit == after.policies[family].limit
  {
    hide NotLater;
    var family := b.payments[reference].family;
    assert !Counts(after.payments[reference], family);
    assert forall r :: r in b.payments && r != reference ==> after.payments[r] == b.payments[r];
    if Projects(after, family, p) {
      forall r | r in b.payments && r != reference && Counts(b.payments[r], family) ensures NotLater(b.payments[r], b.payments[p]) {
        assert NotLater(after.payments[r], after.payments[p]);
      }
    }
  }

  /**
   A refund that leaves access open leaves the right child limit if and only if it overlooks no payment later
   than all it can fall back to, or the latest overlooked one happens to have the same end and limit.
   */
  lemma {:induction false} RefundLimitIff(b: Books, reference: string, operator: string, began: int, clock: int,
        after: Books)
    returns (q: string)
    requires HasPolicies(b) && reference in b.payments && began <= clock
    requires b.payments[reference].refunded.None? && reference != "" && operator != ""
    requires RefundedTo(b, reference, operator, began, clock, Accepted, after)
    requires Ends(after, b.payments[reference].family) && Until(after, b.payments[reference].family) > clock
    ensures var family := b.payments[reference].family;
            && CanFallBack(b, reference, family, began, q)
            && (forall r :: CanFallBack(b, reference, family, began, r) ==> NotLater(b.payments[r], b.payments[q]))
            && after.policies[family] == Policy(Some(b.payments[q].ends), b.payments[q].limit)
            && ((exists p :: Projects(after, family, p)) <==>
                  || (forall r :: !Overlooked(b, reference, family, began, r))
                  || (exists r :: Overlooked(b, reference, family, began, r) && LatestLeft(b, reference, family, r)
                                  && b.payments[r].ends == b.payments[q].ends && b.payments[r].limit == b.payments[q].limit))
  {
    hide Projects;
    var family := b.payments[reference].family;
    q := FallbackOf(b, reference, operator, began, clock, after);
    if forall r :: !Overlooked(b, reference, family, began, r) {
      NothingOverlooked(b, reference, family, began, q);
      LeftAfter(b, reference, began, after, q);
    } else if p :| Projects(after, family, p) {
      LeftAfter(b, reference, began, after, p);
      LatestOverlooked(b, reference, family, began, q, p);
    } else {
      forall r | Overlooked(b, reference, family, began, r) && LatestLeft(b, reference, family, r)
                 && b.payments[r].ends == b.payments[q].ends && b.payments[r].limit == b.payments[q].limit
        ensures Projects(after, family, r)
      {
        LeftAfter(b, reference, began, after, r);
      }
    }
  }

  lemma {:induction false} NothingOverlooked(b: Books, reference: string, family: int, began: int, q: string)
    requires CanFallBack(b, reference, family, began, q)
    requires forall r :: CanFallBack(b, reference, family, began, r) ==> NotLater(b.payments[r], b.payments[q])
    requires forall r :: !Overlooked(b, reference, family, began, r)
    ensures LatestLeft(b, reference, family, q)
  {
    forall r | r in b.payments && r != reference && Counts(b.payments[r], family)
      ensures NotLater(b.payments[r], b.payments[q])
    {
      if b.payments[r].starts <= began {
        assert b.payments[r].ends > began ==> CanFallBack(b, reference, family, began, r);
      } else {
        assert !Overlooked(b, reference, family, began, r);
        var other :| CanFallBack(b, reference, family, began, other) && NotLater(b.payments[r], b.payments[other]);
        assert NotLater(b.payments[other], b.payments[q]);
      }
    }
  }

  /** If something was overlooked, the latest payment left was. */
  lemma {:induction false} LatestOverlooked(b: Books, reference: string, family: int, began: int, q: string, p: string)
    requires CanFallBack(b, reference, family, began, q) && LatestLeft(b, reference, family, p)
    requires b.payments[p].ends == b.payments[q].ends
    requires exists r :: Overlooked(b, reference, family, began, r)
    ensures Overlooked(b, reference, family, began, p)
  {
    var r :| Overlooked(b, reference, family, began, r);
    assert NotLater(b.payments[r], b.payments[p]);
    assert b.payments[p].starts <= began ==> CanFallBack(b, reference, family, began, p);
  }

  /**
   Overlap can shrink a family: a refund that did not see the latest payment falls back to an earlier one of
   the same end, and leaves its smaller child limit.
   */
  lemma {:induction false} OverlapShrinksLimit(first: Payment, kept: Payment, bought: Payment) returns (b: Books,
        after: Books)
    requires first == Payment(1, 500, "EUR", 0, 50, 3, 0, None)
    requires kept == Payment(1, 500, "EUR", 0, 100, 3, 1, None)
    requires bought == Payment(1, 500, "EUR", 11, 100, 5, 11, None)
    ensures b == Books(map["first" := first, "kept" := kept, "bought" := bought], map[1 := Policy(Some(100), 5)])
    ensures Projected(b, 1, 12) && HasPolicies(b) && NoneMissed(b, "first", 1, 10, 13)
    ensures RefundedTo(b, "first", "operator", 10, 13, Accepted, after)
    ensures after.policies[1] == Policy(Some(100), 3) && forall p :: !Projects(after, 1, p)
  {
    b := Books(map["first" := first, "kept" := kept, "bought" := bought], map[1 := Policy(Some(100), 5)]);
    assert Projects(b, 1, "bought");
    var payments := MarkedRefunded(b, "first", 10);
    after := Books(payments, map[1 := Policy(Some(100), 3)]);
    assert Covers(b.payments["kept"], 1, 10) && Covers(payments["kept"], 1, 10);
    assert IsLatest(payments, 1, 10, "kept");
    assert b.policies[1 := Policy(Some(100), 3)] == after.policies;
    assert Counts(payments["bought"], 1);
    forall p ensures !Projects(after, 1, p) {
      if p in payments && p != "bought" && Counts(payments[p], 1) {
        assert !NotLater(payments["bought"], payments[p]);
      }
    }
  }

  /** Overlap can record an older limit: a payment that waited for a later one of the same end overwrites its limit. */
  lemma {:induction false} OverlapRecordsOlderLimit(bought: Payment, v: Entry) returns (b: Books, after: Books)
    requires bought == Payment(1, 500, "EUR", 5, 100, 5, 12, None)
    requires v == Entry("waiting", 1, 300, "EUR", 5, 100, 3, "operator")
    ensures b == Books(map["bought" := bought], map[1 := Policy(Some(100), 5)]) && Projected(b, 1, 12)
    ensures Recorded(b, v, 9, 10, 0) == (Accepted, after)
    ensures after.policies[1] == Policy(Some(100), 3) && forall p :: !Projects(after, 1, p)
  {
    b := Books(map["bought" := bought], map[1 := Policy(Some(100), 5)]);
    assert Projects(b, 1, "bought");
    assert "waiting" != "bought";
    after := Recorded(b, v, 9, 10, 0).1;
    forall p ensures !Projects(after, 1, p) {
      if p == "waiting" {
        assert after.payments["bought"] == bought;
        assert !NotLater(bought, after.payments["waiting"]);
      }
    }
  }

  /**
   Overlap does break the agreement: a refund whose transaction began before a new payment, but waited for
   it, does not see that payment and closes the access it has just bought.
   */
  lemma {:induction false} OverlapClosesPaidAccess(first: Payment, bought: Payment) returns (b: Books, after: Books)
    requires first == Payment(1, 500, "EUR", 0, 50, 3, 0, None)
    requires bought == Payment(1, 500, "EUR", 11, 100, 3, 11, None)
    ensures b == Books(map["first" := first, "bought" := bought], map[1 := Policy(Some(100), 3)])
    ensures Projected(b, 1, 12) && HasPolicies(b)
    ensures RefundedTo(b, "first", "operator", 10, 13, Accepted, after)
    ensures Paid(after, 1, 13) && !Access(after, 1, true, 13)
  {
    b := Books(map["first" := first, "bought" := bought], map[1 := Policy(Some(100), 3)]);
    assert Projects(b, 1, "bought");
    var payments := MarkedRefunded(b, "first", 10);
    assert !CoversAny(payments, 1, 10);
    after := Books(payments, map[1 := Policy(Some(13), 0)]);
    assert b.policies[1 := Policy(Some(13), 0)] == after.policies;
    assert Covers(after.payments["bought"], 1, 13);
  }

  /**
   The damage outlives the overlap: after such a refund a payment recorded in turn, which ends before the one
   that was not seen, opens access for less than is paid.
   */
  lemma {:induction false} ClosedAccessRecorded(first: Payment, bought: Payment, v: Entry)
    returns (b: Books, after: Books)
    requires first == Payment(1, 500, "EUR", 0, 50, 3, 0, Some(10))
    requires bought == Payment(1, 500, "EUR", 11, 100, 3, 11, None)
    requires v == Entry("third", 1, 300, "EUR", 14, 60, 5, "operator")
    ensures b == Books(map["first" := first, "bought" := bought], map[1 := Policy(Some(13), 0)])
    ensures Recorded(b, v, 14, 14, 0) == (Accepted, after) && after.policies[1] == Policy(Some(60), 5)
    ensures Paid(after, 1, 70) && !Access(after, 1, true, 70) && forall p :: !Projects(after, 1, p)
  {
    b := Books(map["first" := first, "bought" := bought], map[1 := Policy(Some(13), 0)]);
    assert "third" != "first" && "third" != "bought";
    after := Recorded(b, v, 14, 14, 0).1;
    assert after.payments["bought"] == bought && Covers(bought, 1, 70);
    forall p ensures !Projects(after, 1, p) {
      if p in after.payments && Counts(after.payments[p], 1) && after.payments[p].ends == 60 {
        assert !NotLater(bought, after.payments[p]);
      }
    }
  }

  // ---------------------------------------------------------------- runs that overlap

  /** What a family is promised from a moment on: access exactly while paid, with the latest payment's limit. */
  ghost predicate Promised(b: Books, family: int, now: int) {
    Ends(b, family) && forall t :: t >= now ==>
      && Access(b, family, true, t) == Paid(b, family, t)
      && (Access(b, family, true, t) ==> exists p :: Projects(b, family, p))
  }

  lemma {:induction false} PromisedParts(b: Books, family: int, now: int)
    requires Ends(b, family)
    ensures Promised(b, family, now) <==>
              AgreesFrom(b, family, now) && (Until(b, family) > now ==> exists p :: Projects(b, family, p))
  {
    hide Projects, CoversAny;
    if Promised(b, family, now) {
      forall t | t >= now ensures Until(b, family) > t <==> CoversAny(b.payments, family, t) {
        assert Access(b, family, true, t) == Paid(b, family, t);
      }
      assert Access(b, family, true, now) ==> exists p :: Projects(b, family, p);
    }
    if AgreesFrom(b, family, now) && (Until(b, family) > now ==> exists p :: Projects(b, family, p)) {
      forall t | t >= now ensures Access(b, family, true, t) == Paid(b, family, t) {
        assert Until(b, family) > t <==> CoversAny(b.payments, family, t);
      }
    }
  }

  /** Seen before a refund: the limit it will leave is right, if it leaves access open. */
  ghost predicate LimitLeft(b: Books, reference: string, family: int, began: int, left: Policy) {
    || (forall r :: !Overlooked(b, reference, family, began, r))
    || exists r :: Overlooked(b, reference, family, began, r) && LatestLeft(b, reference, family, r)
                   && left == Policy(Some(b.payments[r].ends), b.payments[r].limit)
  }

  /**
   Whether a change saw what it had to see: nothing outlasts what it leaves, and the limit it leaves is the
   latest payment's. The books after it only say which of equally late payments a refund fell back to.
   */
  ghost predicate Sees(b: Books, s: Timed, after: Books, family: int) {
    family in after.policies && match s.op
    case Record(v, _, _) =>
      && NoneOutlasts(b, family, v.ends, s.clock)
      && (v.ends > s.clock ==>
            WillBeLatest(b, family, v.ends, s.began) || exists p :: SameInPlace(b, v, s.began, p))
    case Refund(reference, _) =>
      && NoneMissed(b, reference, family, s.began, s.clock)
      && ((exists q :: CanFallBack(b, reference, family, s.began, q) && b.payments[q].ends > s.clock) ==>
            LimitLeft(b, reference, family, s.began, after.policies[family]))
  }

  lemma {:induction false} RecordSees(b: Books, s: Timed, after: Books, family: int)
    requires Step(b, s, after) && Moves(b, s, after, family) && s.op.Record? && Started(b, family, s.clock)
    ensures Ends(after, family) && (Promised(after, family, s.clock) <==> Sees(b, s, after, family))
  {
    hide AgreesFrom, Projects, Promised, NoneOutlasts, WillBeLatest, SameInPlace, EntryValid, SameEntry, Started;
    var v := s.op.v;
    RecordAgreesIff(b, v, s.op.checked, s.began, s.clock, s.op.children);
    RecordLimitIff(b, v, s.op.checked, s.began, s.op.children);
    PromisedParts(after, family, s.clock);
  }

  lemma {:induction false} RefundSees(b: Books, s: Timed, after: Books, family: int)
    requires HasPolicies(b) && Step(b, s, after) && Moves(b, s, after, family) && s.op.Refund?
    requires Started(b, family, s.clock)
    ensures Ends(after, family) && (Promised(after, family, s.clock) <==> Sees(b, s, after, family))
  {
    hide AgreesFrom, Projects, Promised, NoneMissed, Started, HasPolicies, CanFallBack, Overlooked, LatestLeft;
    hide RefundedTo;
    var reference, operator := s.op.reference, s.op.operator;
    var error :| RefundedTo(b, reference, operator, s.began, s.clock, error, after);
    RefundMoves(b, reference, operator, s.began, s.clock, error, after);
    RefundAgreesIff(b, reference, operator, s.began, s.clock, after);
    PromisedParts(after, family, s.clock);
    OpenIff(b, reference, operator, s.began, s.clock, after);
    if Until(after, family) > s.clock {
      var q := RefundLimitIff(b, reference, operator, s.began, s.clock, after);
    }
  }

  /** A refund leaves access open if and only if something it can fall back to is still running. */
  lemma {:induction false} OpenIff(b: Books, reference: string, operator: string, began: int, clock: int, after: Books)
    requires HasPolicies(b) && reference in b.payments && began <= clock
    requires b.payments[reference].refunded.None? && reference != "" && operator != ""
    requires RefundedTo(b, reference, operator, began, clock, Accepted, after)
    ensures var family := b.payments[reference].family;
            && Ends(after, family)
            && (Until(after, family) > clock <==>
                  exists q :: CanFallBack(b, reference, family, began, q) && b.payments[q].ends > clock)
  {
    hide RefundedTo, NotLater;
    var family := b.payments[reference].family;
    FallbackMatters(b, reference, operator, began, clock, after);
    if q :| CanFallBack(b, reference, family, began, q) && b.payments[q].ends > clock {
      assert b.payments[q].ends <= Until(after, family);
    }
    if Until(after, family) > clock {
      var q := FallbackOf(b, reference, operator, began, clock, after);
    }
  }

  /** Locks of one family are held one after another, whenever the transactions began. */
  predicate InOrder(bs: seq<Books>, steps: seq<Timed>, family: int, start: int)
    requires |bs| == |steps| + 1
  {
    forall i :: 0 <= i < |steps| && Moves(bs[i], steps[i], bs[i + 1], family) ==>
      Clock(bs, steps, family, start, i) <= steps[i].clock
  }

  lemma {:induction false} StartedStep(b: Books, s: Timed, after: Books, family: int, now: int)
    requires HasPolicies(b) && Step(b, s, after) && Started(b, family, now)
    requires Moves(b, s, after, family) ==> now <= s.clock
    ensures Started(after, family, if Moves(b, s, after, family) then s.clock else now)
  {
    hide SameEntry, UpperCase, Covers, NotLater;
    if s.op.Refund? {
      var error :| RefundedTo(b, s.op.reference, s.op.operator, s.began, s.clock, error, after);
    }
  }

  lemma {:induction false} StartedAlong(bs: seq<Books>, steps: seq<Timed>, start: int, family: int, i: nat)
    requires Trace(bs, steps) && InOrder(bs, steps, family, start) && i < |bs|
    requires HasPolicies(bs[0]) && Started(bs[0], family, start)
    ensures HasPolicies(bs[i]) && Started(bs[i], family, Clock(bs, steps, family, start, i))
  {
    hide Step, HasPolicies, Started, Moves;
    if i > 0 {
      StartedAlong(bs, steps, start, family, i - 1);
      PoliciesStay(bs[i - 1], steps[i - 1], bs[i]);
      StartedStep(bs[i - 1], steps[i - 1], bs[i], family, Clock(bs, steps, family, start, i - 1));
    }
  }

  /** A transaction of others leaves the promise as it was, kept or broken. */
  lemma {:induction false} ElsewherePromised(b: Books, s: Timed, after: Books, family: int, now: int)
    requires HasPolicies(b) && Step(b, s, after) && !Moves(b, s, after, family) && Ends(b, family)
    ensures Ends(after, family) && (Promised(after, family, now) <==> Promised(b, family, now))
  {
    hide Promised;
    OthersAlone(b, s, after, family);
    SamePromise(b, after, family, now);
  }

  lemma {:induction false} SamePromise(b: Books, after: Books, family: int, now: int)
    requires Ends(b, family) && SameBooks(b, after, family)
    ensures Ends(after, family) && (Promised(after, family, now) <==> Promised(b, family, now))
  {
    hide NotLater;
    forall t ensures Paid(after, family, t) == Paid(b, family, t) {
      if Paid(b, family, t) {
        var r :| r in b.payments && Covers(b.payments[r], family, t);
        assert Covers(after.payments[r], family, t);
      }
      if Paid(after, family, t) {
        var r :| r in after.payments && Covers(after.payments[r], family, t);
        assert Covers(b.payments[r], family, t);
      }
    }
    forall p ensures Projects(after, family, p) <==> Projects(b, family, p) {
    }
    hide Projects, Paid, SameBooks;
    assert forall t :: Access(after, family, true, t) == Access(b, family, true, t);
    if p :| Projects(b, family, p) {
      assert Projects(after, family, p);
    }
    if p :| Projects(after, family, p) {
      assert Projects(b, family, p);
    }
  }

  /** Such runs may start from a family as it is provisioned. */
  lemma {:induction false} NewIsPromised(b: Books, family: int, start: int)
    requires NewFamily(b, family, start)
    ensures Started(b, family, start) && Promised(b, family, start)
  {
    forall t | t >= start ensures !Paid(b, family, t) {
      assert !CoversAny(b.payments, family, t);
    }
  }

  /** Whether the family's last change before step i saw what it had to see. */
  ghost predicate LastSees(bs: seq<Books>, steps: seq<Timed>, family: int, i: nat)
    requires i <= |steps| && |bs| == |steps| + 1
  {
    if i == 0 then true
    else if Moves(bs[i - 1], steps[i - 1], bs[i], family) then Sees(bs[i - 1], steps[i - 1], bs[i], family)
    else LastSees(bs, steps, family, i - 1)
  }

  /**
   Over any run, overlapping or not, the promise of access holds in a state if and only if the family's last
   change before it saw what it had to see, whatever the earlier ones missed.
   */
  lemma {:induction false} PromisedIff(bs: seq<Books>, steps: seq<Timed>, start: int, family: int, i: nat)
    requires Trace(bs, steps) && InOrder(bs, steps, family, start) && i < |bs|
    requires HasPolicies(bs[0]) && Started(bs[0], family, start) && Promised(bs[0], family, start)
    ensures Ends(bs[i], family)
    ensures Promised(bs[i], family, Clock(bs, steps, family, start, i)) <==> LastSees(bs, steps, family, i)
  {
    hide Step, HasPolicies, Started, Moves, Sees, Promised;
    StartIsEnded(bs[0], family, start);
    if i > 0 {
      PromisedIff(bs, steps, start, family, i - 1);
      StartedAlong(bs, steps, start, family, i - 1);
      var (b, s, now) := (bs[i - 1], steps[i - 1], Clock(bs, steps, family, start, i - 1));
      if Moves(b, s, bs[i], family) {
        LaterStarted(b, family, now, s.clock);
        if s.op.Record? {
          RecordSees(b, s, bs[i], family);
        } else {
          RefundSees(b, s, bs[i], family);
        }
      } else {
        ElsewherePromised(b, s, bs[i], family, now);
      }
    }
  }

  lemma {:induction false} StartIsEnded(b: Books, family: int, now: int)
    requires Promised(b, family, now)
    ensures Ends(b, family)
  {
  }

  lemma {:induction false} LaterStarted(b: Books, family: int, now: int, later: int)
    requires Started(b, family, now) && now <= later
    ensures Started(b, family, later)
  {
  }

  /** So the promise holds in every state if and only if every change of the family saw what it had to see. */
  lemma {:induction false} AlwaysPromisedIff(bs: seq<Books>, steps: seq<Timed>, start: int, family: int)
    requires Trace(bs, steps) && InOrder(bs, steps, family, start)
    requires HasPolicies(bs[0]) && Started(bs[0], family, start) && Promised(bs[0], family, start)
    ensures (forall i :: 0 <= i < |bs| ==> Promised(bs[i], family, Clock(bs, steps, family, start, i))) <==>
              (forall j :: 0 <= j < |steps| && Moves(bs[j], steps[j], bs[j + 1], family) ==>
                 Sees(bs[j], steps[j], bs[j + 1], family))
  {
    hide Step, HasPolicies, Started, Moves, Sees, Promised;
    forall i: nat | i < |bs|
      ensures Promised(bs[i], family, Clock(bs, steps, family, start, i)) <==> LastSees(bs, steps, family, i)
    {
      PromisedIff(bs, steps, start, family, i);
    }
    forall j | 0 <= j < |steps| && Moves(bs[j], steps[j], bs[j + 1], family)
      ensures LastSees(bs, steps, family, j + 1) <==> Sees(bs[j], steps[j], bs[j + 1], family)
    {
    }
    if forall j :: 0 <= j < |steps| && Moves(bs[j], steps[j], bs[j + 1], family) ==>
         Sees(bs[j], steps[j], bs[j + 1], family)
    {
      forall i: nat | i < |bs| ensures LastSees(bs, steps, family, i) {
        AllSee(bs, steps, family, i);
      }
    } else {
      var j :| 0 <= j < |steps| && Moves(bs[j], steps[j], bs[j + 1], family)
               && !Sees(bs[j], steps[j], bs[j + 1], family);
      assert !LastSees(bs, steps, family, j + 1);
    }
  }

  lemma {:induction false} AllSee(bs: seq<Books>, steps: seq<Timed>, family: int, i: nat)
    requires i <= |steps| && |bs| == |steps| + 1
    requires forall j :: 0 <= j < |steps| && Moves(bs[j], steps[j], bs[j + 1], family) ==>
               Sees(bs[j], steps[j], bs[j + 1], family)
    ensures LastSees(bs, steps, family, i)
  {
    hide Moves, Sees;
    if i > 0 {
      AllSee(bs, steps, family, i - 1);
    }
  }
}
