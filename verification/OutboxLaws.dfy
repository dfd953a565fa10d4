/**
 What the outbox promises, said of its rows and recipients alone: when a row may be taken and by whom, what a
 settlement leaves, and what every change of consent does to the rows of the same and of other people.
 */
module OutboxLaws {
  import opened Days
  import opened Rewards
  import opened Outbox
  import opened OutboxTheorems

  /** The seconds from one try to the next: five, doubled once for every try after the first, an hour at most. */
  function Wait(tries: int): int {
    var doubled := 5 * PowerOfTwo(if tries < 1 then 0 else tries - 1);
    if doubled < 3600 then doubled else 3600
  }

  lemma {:induction false} DelayIsWait(tries: int)
    ensures RetryDelay(tries) == Wait(tries)
  {
    if tries >= 1 {
      DelayDoubles(tries);
    }
  }

  // ---------------------------------------------------------------- one row over a run

  /** Neither taken nor settled by the one who holds it. */
  ghost predicate LeavesAlone(w: World, op: Op, id: int, now: int) {
    && !(op.Claim? && op.id == id)
    && !(op.Settle? && op.id == id && Holds(w.queue, id, op.token, now))
  }

  /** Any other step leaves a row as it is or ends it. */
  lemma {:induction false} KeptOrEnded(w: World, op: Op, now: int, id: int)
    requires Possible(w, op, now) && id in w.queue.rows && LeavesAlone(w, op, id, now)
    ensures var after := Next(w, op, now).queue.rows;
            id in after && (after[id] == w.queue.rows[id] || !after[id].state.Pending?)
  {
    hide ActiveParent, Listed, Bound, SameConsent, Current, EndsConsent, RetryDelay, OptedIn, Claimable, Due;
    assert op.CompleteTask? ==> op.ids.Keys !! w.queue.rows.Keys;
  }

  /** Ended rows stay ended, so one still pending has not changed since. */
  lemma {:induction false} StillTheSame(ws: seq<World>, ops: seq<Op>, times: seq<int>, i: nat, j: nat, id: int)
    requires Trace(ws, ops, times) && i <= j < |ws| && id in ws[i].queue.rows
    requires forall k :: i <= k < j ==> LeavesAlone(ws[k], ops[k], id, times[k])
    ensures id in ws[j].queue.rows
    ensures ws[j].queue.rows[id].state.Pending? ==> ws[j].queue.rows[id] == ws[i].queue.rows[id]
    decreases j
  {
    hide Possible, Next, LeavesAlone;
    if i < j {
      StillTheSame(ws, ops, times, i, j - 1, id);
      assert LeavesAlone(ws[j - 1], ops[j - 1], id, times[j - 1]);
      KeptOrEnded(ws[j - 1], ops[j - 1], times[j - 1], id);
      EndedStays(ws[j - 1], ops[j - 1], times[j - 1], id);
    }
  }

  lemma {:induction false} EndedStays(w: World, op: Op, now: int, id: int)
    requires Possible(w, op, now) && id in w.queue.rows
    ensures id in Next(w, op, now).queue.rows
    ensures !w.queue.rows[id].state.Pending? ==> Next(w, op, now).queue.rows[id] == w.queue.rows[id]
  {
    hide ActiveParent, Listed, Bound, SameConsent, Current, EndsConsent, RetryDelay, OptedIn, Due;
    assert op.CompleteTask? ==> op.ids.Keys !! w.queue.rows.Keys;
  }

  // ---------------------------------------------------------------- when a row is taken

  lemma {:induction false} StepCounts(w: World, op: Op, now: int, id: int)
    requires Possible(w, op, now) && id in w.queue.rows
    ensures id in Next(w, op, now).queue.rows
    ensures Next(w, op, now).queue.rows[id].attempts ==
              if op.Claim? && op.id == id
              then if w.queue.rows[id].attempts < 2147483646 then w.queue.rows[id].attempts + 1 else 2147483646
              else w.queue.rows[id].attempts
  {
    hide ActiveParent, Listed, Bound, SameConsent, Current, EndsConsent, RetryDelay, OptedIn, Due, Claimable;
    assert op.CompleteTask? ==> op.ids.Keys !! w.queue.rows.Keys;
  }

  /** Waiting for `due` as long as it is pending, unless that has passed. */
  predicate WaitsFor(w: World, id: int, due: int) {
    && id in w.queue.rows
    && (w.now < due && w.queue.rows[id].state.Pending? ==>
          w.queue.rows[id].lease.None? && w.queue.rows[id].available == due)
  }

  lemma {:induction false} StepWaits(w: World, op: Op, now: int, id: int, due: int)
    requires Possible(w, op, now) && WaitsFor(w, id, due)
    ensures WaitsFor(Next(w, op, now), id, due)
    ensures op.Claim? && op.id == id ==> now >= due
  {
    hide SetRecipient, Settled, Generated, TaskCompleted, Revoked, Restored;
    StepCounts(w, op, now, id);
    if LeavesAlone(w, op, id, now) {
      EndedStays(w, op, now, id);
      KeptOrEnded(w, op, now, id);
    }
    assert Next(w, op, now).now == now;
  }

  lemma {:induction false} WaitsAlways(ws: seq<World>, ops: seq<Op>, times: seq<int>, i: nat, j: nat, id: int, due: int)
    requires Trace(ws, ops, times) && i <= j < |ws| && WaitsFor(ws[i], id, due)
    ensures WaitsFor(ws[j], id, due)
    decreases j
  {
    hide Possible, Next, WaitsFor;
    if i < j {
      WaitsAlways(ws, ops, times, i, j - 1, id, due);
      StepWaits(ws[j - 1], ops[j - 1], times[j - 1], id, due);
    }
  }

  /** After a retry nobody takes the row before its wait is over. */
  lemma {:induction false} RetryWaits(ws: seq<World>, ops: seq<Op>, times: seq<int>, i: nat, j: nat, id: int)
    requires Trace(ws, ops, times) && i < j < |ops|
    requires ops[i].Settle? && ops[i].id == id && ops[i].result.Retry? && Holds(ws[i].queue, id, ops[i].token, times[i])
    requires ops[j].Claim? && ops[j].id == id
    ensures times[j] >= times[i] + Wait(ws[i].queue.rows[id].attempts)
  {
    hide RetryDelay, Wait;
    var due := times[i] + Wait(ws[i].queue.rows[id].attempts);
    DelayIsWait(ws[i].queue.rows[id].attempts);
    assert WaitsFor(ws[i + 1], id, due);
    hide Possible, Next, WaitsFor;
    WaitsAlways(ws, ops, times, i + 1, j, id, due);
    StepWaits(ws[j], ops[j], times[j], id, due);
  }

  lemma {:induction false} TimesGrow(ws: seq<World>, ops: seq<Op>, times: seq<int>, i: nat, j: nat)
    requires Trace(ws, ops, times) && i <= j < |ops|
    ensures times[i] <= times[j] && times[i] == ws[i + 1].now
    decreases j
  {
    assert Possible(ws[j], ops[j], times[j]) && Possible(ws[i], ops[i], times[i]);
    if i < j {
      TimesGrow(ws, ops, times, i, j - 1);
    }
  }

  /** A row that was taken is taken again after a minute at the earliest, unless its holder settled it before. */
  lemma {:induction false} LeaseLastsAMinute(ws: seq<World>, ops: seq<Op>, times: seq<int>, i: nat, j: nat, id: int)
    requires Trace(ws, ops, times) && i < j < |ops|
    requires ops[i].Claim? && ops[i].id == id && ops[j].Claim? && ops[j].id == id
    requires forall k :: i < k < j && ops[k].Settle? && ops[k].id == id ==> !Holds(ws[k].queue, id, ops[k].token, times[k])
    ensures times[j] >= times[i] + 60
    decreases j
  {
    if k :| i < k < j && ops[k].Claim? && ops[k].id == id {
      LeaseLastsAMinute(ws, ops, times, i, k, id);
      TimesGrow(ws, ops, times, k, j);
    } else {
      StillTheSame(ws, ops, times, i + 1, j, id);
    }
  }

  /** How often a row was taken in a run. */
  function Taken(ops: seq<Op>, id: int): nat {
    if ops == [] then 0
    else Taken(ops[..|ops| - 1], id) + if ops[|ops| - 1].Claim? && ops[|ops| - 1].id == id then 1 else 0
  }

  /** The tries of a row are the times it was taken, counted up to the largest number the column holds. */
  lemma {:induction false} TriesCounted(ws: seq<World>, ops: seq<Op>, times: seq<int>, i: nat, j: nat, id: int)
    requires Trace(ws, ops, times) && i <= j < |ws| && id in ws[i].queue.rows
    requires ws[i].queue.rows[id].attempts <= 2147483646
    ensures id in ws[j].queue.rows
    ensures var all := ws[i].queue.rows[id].attempts + Taken(ops[i..j], id);
            ws[j].queue.rows[id].attempts == if all < 2147483646 then all else 2147483646
    decreases j
  {
    hide Possible, Next;
    if i < j {
      TriesCounted(ws, ops, times, i, j - 1, id);
      StepCounts(ws[j - 1], ops[j - 1], times[j - 1], id);
      assert ops[i..j][..j - i - 1] == ops[i..j - 1];
    } else {
      assert ops[i..j] == [];
    }
  }

  // ---------------------------------------------------------------- one transaction

  /** A row that was cancelled: only its state, its reason, its lease and its settlement changed. */
  predicate CancelledFor(before: Row, after: Row, code: Code, now: int) {
    after == Row(before.task, before.ref, before.subscription, before.issuer, before.subject, before.parent,
                 before.binding, Cancelled, before.attempts, before.available, before.created, None, code,
                 before.portalId, Some(now))
  }

  /**
   Only the holder of a living lease settles; the row then shows the answer, and only a retry leaves it pending,
   for the wait its tries call for.
   */
  lemma {:induction false} SettlesIff(q: Queue, id: int, token: int, result: Result, code: Code, now: int)
    ensures var (e, after) := Settled(q, id, token, result, code, now);
            && (e == Accepted <==>
                  && id in q.rows && q.rows[id].state.Pending?
                  && exists until :: q.rows[id].lease == Some(Lease(token, until)) && now < until)
            && (e != Accepted ==> e == Conflict && after == q)
            && (e == Accepted ==>
                  && var (row, done) := (q.rows[id], after.rows[id]);
                  && done == Row(row.task, row.ref, row.subscription, row.issuer, row.subject, row.parent, row.binding,
                                 done.state, row.attempts, done.available, row.created, None, code, done.portalId,
                                 done.settled)
                  && (done.state.Pending? <==> result.Retry?)
                  && (done.state.Delivered? <==> result.Deliver?)
                  && (done.state.Cancelled? <==> result.Cancel?)
                  && done.available == (if result.Retry? then now + Wait(row.attempts) else now)
                  && done.settled == (if result.Retry? then None else Some(now))
                  && done.portalId == (if result.Deliver? then result.portalId else ""))
  {
    DelayIsWait(if id in q.rows then q.rows[id].attempts else 0);
    hide RetryDelay, Wait, Ended, EndsConsent;
    if Holds(q, id, token, now) {
      assert q.rows[id].lease == Some(Lease(token, q.rows[id].lease.value.until));
    }
  }

  /**
   A denial or a revoked recipient ends the consent the row was made under and the other rows made under it, and
   nothing else; any other answer touches the one row alone.
   */
  lemma {:induction false} SettlesAlone(q: Queue, id: int, token: int, result: Result, code: Code, now: int)
    requires Settled(q, id, token, result, code, now).0 == Accepted
    ensures id in q.rows
    ensures var after := Settled(q, id, token, result, code, now).1;
            var row := q.rows[id];
            var ends := result.Cancel? && (code == PortalDenied || code == RecipientRevoked);
            && after.rows.Keys == q.rows.Keys && after.recipients.Keys == q.recipients.Keys
            && (forall ref :: ref in q.recipients ==>
                  var r := q.recipients[ref];
                  var ended := ends && ref == row.ref && r.subscription == row.subscription && r.binding == row.binding;
                  after.recipients[ref] == if ended
                    then Recipient(r.subscription, r.issuer, r.subject, r.parent, r.binding, false) else r)
            && (forall other :: other in q.rows && other != id ==>
                  var o := q.rows[other];
                  if ends && o.state.Pending? && o.ref == row.ref && o.subscription == row.subscription
                     && o.binding == row.binding
                  then CancelledFor(o, after.rows[other], code, now) else after.rows[other] == o)
  {
    hide RetryDelay;
  }

  /**
   An opt-in needs an entitled family, an active parent and a binding; it keeps the consent of the very same person
   that is still enabled and otherwise starts a new one.
   */
  lemma {:induction false} OptsInIff(q: Queue, ref: string, v: Recipient, entitled: bool, people: seq<Person>, now: int)
    ensures var (e, after) := SetRecipient(q, ref, v, true, entitled, people, now);
            && (e == Accepted <==>
                  && entitled && 5 <= |v.binding| <= 128 && v.binding[..4] == "tgb_"
                  && exists i :: 0 <= i < |people| && people[i].id == v.parent && people[i].active && people[i].role.Parent?)
            && (e != Accepted ==> after == q)
            && (e == Forbidden <==>
                  !entitled
                  || ((exists i :: 0 <= i < |people| && people[i].id == v.parent)
                      && forall i :: 0 <= i < |people| && people[i].id == v.parent ==>
                           !(people[i].active && people[i].role.Parent?)))
            && (e == Accepted ==>
                  var kept := ref in q.recipients && q.recipients[ref].enabled && q.recipients[ref].parent == v.parent
                              && q.recipients[ref].issuer == v.issuer && q.recipients[ref].subject == v.subject
                              && q.recipients[ref].binding == v.binding;
                  && after.recipients == q.recipients[ref := Recipient(
                       if kept then q.recipients[ref].subscription else v.subscription,
                       v.issuer, v.subject, v.parent, v.binding, true)]
                  && after.rows.Keys == q.rows.Keys
                  && forall id :: id in q.rows ==>
                       if q.rows[id].state.Pending? && q.rows[id].ref == ref
                          && q.rows[id].subscription != after.recipients[ref].subscription
                       then CancelledFor(q.rows[id], after.rows[id], RecipientRevoked, now)
                       else after.rows[id] == q.rows[id])
  {
    assert ActiveParent(people, v.parent) ==> Listed(people, v.parent);
  }

  /** An opt-out of the current consent ends it with all its pending rows; one of an earlier consent leaves it alone. */
  lemma {:induction false} OptOutEnds(q: Queue, ref: string, v: Recipient, entitled: bool, people: seq<Person>, now: int)
    ensures var (e, after) := SetRecipient(q, ref, v, false, entitled, people, now);
            && e == Accepted && after.recipients.Keys == q.recipients.Keys && after.rows.Keys == q.rows.Keys
            && (forall other :: other in q.recipients ==>
                  var r := q.recipients[other];
                  after.recipients[other] == if other == ref && r.subscription == v.subscription
                    then Recipient(r.subscription, r.issuer, r.subject, r.parent, r.binding, false) else r)
            && (forall id :: id in q.rows ==>
                  var row := q.rows[id];
                  var backed := ref in q.recipients && q.recipients[ref].enabled
                                && q.recipients[ref].subscription == row.subscription
                                && row.subscription != v.subscription;
                  if row.state.Pending? && row.ref == ref && !backed
                  then CancelledFor(row, after.rows[id], RecipientRevoked, now) else after.rows[id] == row)
  {
  }

  /** A revocation ends whatever consent the reference has, and every pending row under it. */
  lemma {:induction false} RevocationEnds(q: Queue, ref: string, now: int)
    ensures var after := Revoked(q, ref, now);
            && after.recipients.Keys == q.recipients.Keys && after.rows.Keys == q.rows.Keys
            && (forall other :: other in q.recipients ==>
                  var r := q.recipients[other];
                  after.recipients[other] == if other == ref
                    then Recipient(r.subscription, r.issuer, r.subject, r.parent, r.binding, false) else r)
            && (forall id :: id in q.rows ==>
                  if q.rows[id].state.Pending? && q.rows[id].ref == ref
                  then CancelledFor(q.rows[id], after.rows[id], RecipientRevoked, now) else after.rows[id] == q.rows[id])
  {
  }

  /** An active parent of the family. */
  predicate ParentNow(people: seq<Person>, id: int) {
    exists i :: 0 <= i < |people| && people[i].id == id && people[i].active && people[i].role == Parent
  }

  lemma {:induction false} ParentNowIs(people: seq<Person>)
    ensures forall id :: ActiveParent(people, id) <==> ParentNow(people, id)
  {
  }

  /** The rows a completed task adds. */
  ghost predicate IsNew(q: Queue, after: Queue, id: int) {
    id in after.rows && id !in q.rows
  }

  lemma {:induction false} NewAreGenerated(q: Queue, task: int, ids: map<int, string>, people: seq<Person>, now: int)
    requires Generated(q, ids, people)
    ensures forall id :: IsNew(q, TaskCompleted(q, task, ids, people, now), id) <==> id in ids
    ensures forall id :: id in ids ==> ids[id] in Due(q, people)
  {
    hide Due;
  }

  lemma {:induction false} EachTold(q: Queue, task: int, ids: map<int, string>, people: seq<Person>, now: int, ref: string)
    requires Generated(q, ids, people)
    requires ref in q.recipients && q.recipients[ref].enabled && ParentNow(people, q.recipients[ref].parent)
    ensures var after := TaskCompleted(q, task, ids, people, now);
            exists id :: IsNew(q, after, id) && after.rows[id].ref == ref
  {
    ParentNowIs(people);
    hide ParentNow, ActiveParent;
    assert ref in Due(q, people);
    var id :| id in ids && ids[id] == ref;
    NewAreGenerated(q, task, ids, people, now);
    assert IsNew(q, TaskCompleted(q, task, ids, people, now), id);
  }

  /** A completed task makes one row for every opted-in active parent, to be sent at once, and no other row. */
  lemma {:induction false} EveryParentTold(q: Queue, task: int, ids: map<int, string>, people: seq<Person>, now: int)
    requires Generated(q, ids, people)
    ensures var after := TaskCompleted(q, task, ids, people, now);
            && after.recipients == q.recipients
            && (forall id :: id in q.rows ==> id in after.rows && after.rows[id] == q.rows[id])
            && (forall id :: IsNew(q, after, id) ==>
                  && id in ids && ids[id] in q.recipients && var r := q.recipients[ids[id]];
                  && r.enabled && ParentNow(people, r.parent)
                  && after.rows[id] == Row(task, ids[id], r.subscription, r.issuer, r.subject, r.parent, r.binding,
                                           Pending, 0, now, now, None, NoCode, "", None))
            && (forall ref :: ref in q.recipients && q.recipients[ref].enabled && ParentNow(people, q.recipients[ref].parent) ==>
                  exists id :: IsNew(q, after, id) && after.rows[id].ref == ref)
            && (forall a, b :: IsNew(q, after, a) && IsNew(q, after, b) && a != b ==> after.rows[a].ref != after.rows[b].ref)
  {
    NewAreGenerated(q, task, ids, people, now);
    ParentNowIs(people);
    hide IsNew, ParentNow, ActiveParent;
    forall ref | ref in q.recipients && q.recipients[ref].enabled && ParentNow(people, q.recipients[ref].parent)
      ensures var after := TaskCompleted(q, task, ids, people, now);
              exists id :: IsNew(q, after, id) && after.rows[id].ref == ref
    {
      EachTold(q, task, ids, people, now, ref);
    }
  }

  /** A restore forgets every consent, stops what is pending and keeps what was settled. */
  lemma {:induction false} RestoreStops(q: Queue, now: int)
    ensures var after := Restored(q, now);
            && after.recipients == map[] && after.rows.Keys == q.rows.Keys
            && forall id :: id in q.rows ==>
                 if q.rows[id].state.Pending? then CancelledFor(q.rows[id], after.rows[id], BackupRestore, now)
                 else after.rows[id] == q.rows[id]
  {
  }

  /** What the last check before a send asks: a living lease, current consent of the same person, an active parent, access. */
  lemma {:induction false} AllowedIff(q: Queue, id: int, token: int, entitled: bool, people: seq<Person>, now: int)
    ensures Allowed(q, id, token, entitled, people, now) <==>
              && entitled && id in q.rows
              && var row := q.rows[id];
              && row.state.Pending? && (exists until :: row.lease == Some(Lease(token, until)) && now < until)
              && row.ref in q.recipients && q.recipients[row.ref].enabled && row.binding != ""
              && q.recipients[row.ref].subscription == row.subscription && q.recipients[row.ref].issuer == row.issuer
              && q.recipients[row.ref].subject == row.subject && q.recipients[row.ref].parent == row.parent
              && q.recipients[row.ref].binding == row.binding
              && exists i :: 0 <= i < |people| && people[i].id == row.parent && people[i].active && people[i].role.Parent?
  {
    if Holds(q, id, token, now) {
      assert q.rows[id].lease == Some(Lease(token, q.rows[id].lease.value.until));
    }
  }
}
