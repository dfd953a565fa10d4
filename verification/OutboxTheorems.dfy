/**
 The outbox over whole runs, each transaction one atomic step on a clock: rows live and die with their
 consent generation, settled rows are final, and a lease that was lost never acts again.
 */
module OutboxTheorems {
  import opened Days
  import opened Rewards
  import opened Outbox

  /** The outbox with its clock and every lease token and subscription ever generated. */
  datatype World = World(queue: Queue, now: int, tokens: set<int>, generations: set<int>)

  datatype Op =
    | OptIn(ref: string, recipient: Recipient, entitled: bool, people: seq<Person>)
    | OptOut(ref: string, subscription: int)
    | Revoke(ref: string)
    | Claim(id: int, token: int)
    | Settle(id: int, token: int, result: Result, code: Code)
    | CompleteTask(task: int, ids: map<int, string>, people: seq<Person>)
    | Restore

  /** What the database guarantees of an operation: generated tokens and subscriptions are new. */
  ghost predicate Possible(w: World, op: Op, now: int) {
    w.now <= now && match op
      case OptIn(_, recipient, _, _) => recipient.subscription !in w.generations
      case Claim(id, token) => id in w.queue.rows && Claimable(w.queue.rows[id], now) && token !in w.tokens
      case CompleteTask(_, ids, people) => Generated(w.queue, ids, people)
      case _ => true
  }

  ghost function Next(w: World, op: Op, now: int): World
    requires Possible(w, op, now)
  {
    match op
    case OptIn(ref, recipient, entitled, people) =>
      World(SetRecipient(w.queue, ref, recipient, true, entitled, people, now).1, now, w.tokens,
            w.generations + {recipient.subscription})
    case OptOut(ref, subscription) =>
      var v := Recipient(subscription, "", "", 0, "", false);
      w.(queue := SetRecipient(w.queue, ref, v, false, true, [], now).1, now := now)
    case Revoke(ref) => w.(queue := Revoked(w.queue, ref, now), now := now)
    case Claim(id, token) => World(Claimed(w.queue, id, token, now), now, w.tokens + {token}, w.generations)
    case Settle(id, token, result, code) => w.(queue := Settled(w.queue, id, token, result, code, now).1, now := now)
    case CompleteTask(task, ids, people) => w.(queue := TaskCompleted(w.queue, task, ids, people, now), now := now)
    case Restore => w.(queue := Restored(w.queue, now), now := now)
  }

  ghost predicate Trace(ws: seq<World>, ops: seq<Op>, times: seq<int>) {
    |ws| == |ops| + 1 && |times| == |ops| && forall i :: 0 <= i < |ops| ==>
      Possible(ws[i], ops[i], times[i]) && ws[i + 1] == Next(ws[i], ops[i], times[i])
  }

  // ---------------------------------------------------------------- generations

  /** A pending row is matched by an enabled recipient under its reference. */
  predicate Consented(q: Queue, row: Row) {
    row.state.Pending? ==>
      row.ref in q.recipients && q.recipients[row.ref].enabled && Matches(q.recipients[row.ref], row)
  }

  ghost predicate AllConsented(q: Queue) {
    forall id :: id in q.rows ==> Consented(q, q.rows[id])
  }

  ghost predicate GenerationsKnown(w: World) {
    && (forall ref :: ref in w.queue.recipients ==> w.queue.recipients[ref].subscription in w.generations)
    && forall id :: id in w.queue.rows ==> w.queue.rows[id].subscription in w.generations
  }

  lemma {:induction false} OptInConsents(q: Queue, ref: string, v: Recipient, entitled: bool, people: seq<Person>,
        now: int)
    requires AllConsented(q)
    requires forall id :: id in q.rows ==> q.rows[id].subscription != v.subscription
    ensures AllConsented(SetRecipient(q, ref, v, true, entitled, people, now).1)
  {
    hide ActiveParent, Listed, Bound;
    var after := SetRecipient(q, ref, v, true, entitled, people, now).1;
    forall id | id in after.rows ensures Consented(after, after.rows[id]) {
      assert Consented(q, q.rows[id]);
    }
  }

  lemma {:induction false} OptOutConsents(q: Queue, ref: string, v: Recipient, people: seq<Person>, now: int)
    requires AllConsented(q)
    ensures AllConsented(SetRecipient(q, ref, v, false, true, people, now).1)
  {
    var after := SetRecipient(q, ref, v, false, true, people, now).1;
    forall id | id in after.rows ensures Consented(after, after.rows[id]) {
      assert Consented(q, q.rows[id]);
    }
  }

  lemma {:induction false} RevokedConsents(q: Queue, ref: string, now: int)
    requires AllConsented(q)
    ensures AllConsented(Revoked(q, ref, now))
  {
    var after := Revoked(q, ref, now);
    forall id | id in after.rows ensures Consented(after, after.rows[id]) {
      assert Consented(q, q.rows[id]);
    }
  }

  lemma {:induction false} SettledConsents(q: Queue, id: int, token: int, result: Result, code: Code, now: int)
    requires AllConsented(q)
    ensures AllConsented(Settled(q, id, token, result, code, now).1)
  {
    hide RetryDelay;
    var after := Settled(q, id, token, result, code, now).1;
    if Holds(q, id, token, now) {
      assert Consented(q, q.rows[id]);
      forall other | other in after.rows ensures Consented(after, after.rows[other]) {
        assert Consented(q, q.rows[other]);
      }
    }
  }

  lemma {:induction false} ClaimedConsents(q: Queue, id: int, token: int, now: int)
    requires AllConsented(q) && id in q.rows
    ensures AllConsented(Claimed(q, id, token, now))
  {
    var after := Claimed(q, id, token, now);
    forall other | other in after.rows ensures Consented(after, after.rows[other]) {
      assert Consented(q, q.rows[other]);
    }
  }

  lemma {:induction false} CompletedConsents(q: Queue, task: int, ids: map<int, string>, people: seq<Person>, now: int)
    requires AllConsented(q) && Generated(q, ids, people)
    ensures AllConsented(TaskCompleted(q, task, ids, people, now))
  {
    hide ActiveParent;
    var after := TaskCompleted(q, task, ids, people, now);
    forall id | id in after.rows ensures Consented(after, after.rows[id]) {
      if id in ids {
        assert ids[id] in Due(q, people);
      } else {
        assert Consented(q, q.rows[id]);
      }
    }
  }

  lemma {:induction false} StepConsents(w: World, op: Op, now: int)
    requires AllConsented(w.queue) && GenerationsKnown(w) && Possible(w, op, now)
    ensures AllConsented(Next(w, op, now).queue)
  {
    hide AllConsented, SetRecipient, Settled, Generated, Claimed, Claimable;
    match op {
      case OptIn(ref, recipient, entitled, people) => OptInConsents(w.queue, ref, recipient, entitled, people, now);
      case OptOut(ref, subscription) =>
        OptOutConsents(w.queue, ref, Recipient(subscription, "", "", 0, "", false), [], now);
      case Revoke(ref) => RevokedConsents(w.queue, ref, now);
      case Claim(id, token) => ClaimedConsents(w.queue, id, token, now);
      case Settle(id, token, result, code) => SettledConsents(w.queue, id, token, result, code, now);
      case CompleteTask(task, ids, people) => CompletedConsents(w.queue, task, ids, people, now);
      case Restore => RestoredStops(w.queue, now);
    }
  }

  lemma {:induction false} RestoredStops(q: Queue, now: int)
    ensures AllConsented(Restored(q, now))
  {
  }

  lemma {:induction false} CompletedKnows(w: World, task: int, ids: map<int, string>, people: seq<Person>, now: int)
    requires GenerationsKnown(w) && Generated(w.queue, ids, people)
    ensures GenerationsKnown(w.(queue := TaskCompleted(w.queue, task, ids, people, now), now := now))
  {
    hide ActiveParent;
    var after := TaskCompleted(w.queue, task, ids, people, now);
    forall id | id in after.rows ensures after.rows[id].subscription in w.generations {
      if id in ids {
        assert ids[id] in Due(w.queue, people);
      }
    }
  }

  lemma {:induction false} OptInKnows(w: World, ref: string, v: Recipient, entitled: bool, people: seq<Person>,
        now: int)
    requires GenerationsKnown(w)
    ensures GenerationsKnown(World(SetRecipient(w.queue, ref, v, true, entitled, people, now).1, now, w.tokens,
                                   w.generations + {v.subscription}))
  {
    hide ActiveParent, Listed, Bound, SameConsent, Current;
  }

  lemma {:induction false} EndedKnows(w: World, id: int, code: Code, now: int)
    requires GenerationsKnown(w) && id in w.queue.rows
    ensures GenerationsKnown(w.(queue := Ended(w.queue, id, code, now)))
  {
    hide SameGeneration;
  }

  lemma {:induction false} PutKnows(w: World, id: int, row: Row, now: int)
    requires GenerationsKnown(w) && row.subscription in w.generations
    ensures GenerationsKnown(w.(queue := w.queue.(rows := w.queue.rows[id := row]), now := now))
  {
  }

  lemma {:induction false} SettledKnows(w: World, id: int, token: int, result: Result, code: Code, now: int)
    requires GenerationsKnown(w)
    ensures GenerationsKnown(w.(queue := Settled(w.queue, id, token, result, code, now).1, now := now))
  {
    hide EndsConsent, Ended, RetryDelay;
    if Holds(w.queue, id, token, now) {
      var row := SettledRow(w.queue.rows[id], result, code, now);
      assert row.subscription in w.generations;
      hide GenerationsKnown;
      if EndsConsent(result, code) {
        EndedKnows(w, id, code, now);
        PutKnows(w.(queue := Ended(w.queue, id, code, now)), id, row, now);
      } else {
        PutKnows(w, id, row, now);
      }
    } else {
      SameKnows(w, now);
    }
  }

  lemma {:induction false} SameKnows(w: World, now: int)
    requires GenerationsKnown(w)
    ensures GenerationsKnown(w.(now := now))
  {
  }

  lemma {:induction false} StepKnows(w: World, op: Op, now: int)
    requires GenerationsKnown(w) && Possible(w, op, now)
    ensures GenerationsKnown(Next(w, op, now))
  {
    hide Generated, TaskCompleted, SetRecipient, Settled;
    match op {
      case OptIn(ref, recipient, entitled, people) => OptInKnows(w, ref, recipient, entitled, people, now);
      case OptOut(ref, subscription) => OptOutKnows(w, ref, Recipient(subscription, "", "", 0, "", false), now);
      case Settle(id, token, result, code) => SettledKnows(w, id, token, result, code, now);
      case CompleteTask(task, ids, people) => CompletedKnows(w, task, ids, people, now);
      case _ =>
    }
  }

  lemma {:induction false} OptOutKnows(w: World, ref: string, v: Recipient, now: int)
    requires GenerationsKnown(w)
    ensures GenerationsKnown(w.(queue := SetRecipient(w.queue, ref, v, false, true, [], now).1, now := now))
  {
    hide Current;
  }

  /** Every row that may still be sent is backed by consent that is current, for the same person and binding. */
  lemma {:induction false} PendingHasConsent(ws: seq<World>, ops: seq<Op>, times: seq<int>, i: nat)
    requires Trace(ws, ops, times) && AllConsented(ws[0].queue) && GenerationsKnown(ws[0]) && i < |ws|
    ensures AllConsented(ws[i].queue) && GenerationsKnown(ws[i])
  {
    hide AllConsented, GenerationsKnown, Possible, Next;
    if i > 0 {
      PendingHasConsent(ws, ops, times, i - 1);
      StepConsents(ws[i - 1], ops[i - 1], times[i - 1]);
      StepKnows(ws[i - 1], ops[i - 1], times[i - 1]);
    }
  }

  // ---------------------------------------------------------------- settled rows are final

  /** What a step may do to a row that was there: nothing once it is settled, and never change whom it is for. */
  predicate RowStep(before: Row, after: Row) {
    && (!before.state.Pending? ==> after == before)
    && before.attempts <= after.attempts
    && after.ref == before.ref && after.subscription == before.subscription && after.parent == before.parent
    && after.issuer == before.issuer && after.subject == before.subject && after.binding == before.binding
  }

  ghost predicate RowsStep(before: map<int, Row>, after: map<int, Row>) {
    forall id :: id in before ==> id in after && RowStep(before[id], after[id])
  }

  ghost predicate Capped(q: Queue) {
    forall id :: id in q.rows ==> q.rows[id].attempts <= MAX_ATTEMPTS
  }

  ghost predicate KeepsRows(before: Queue, after: Queue) {
    RowsStep(before.rows, after.rows) && Capped(after)
  }

  lemma {:induction false} SetKeepsRows(q: Queue, ref: string, v: Recipient, enabled: bool, entitled: bool,
      people: seq<Person>, now: int)
    requires Capped(q)
    ensures KeepsRows(q, SetRecipient(q, ref, v, enabled, entitled, people, now).1)
  {
    hide ActiveParent, Listed, Bound, Current, OptedIn;
  }

  lemma {:induction false} EndedKeepsRows(q: Queue, id: int, code: Code, now: int)
    requires Capped(q) && id in q.rows
    ensures KeepsRows(q, Ended(q, id, code, now))
  {
  }

  lemma {:induction false} SettledRowStep(row: Row, result: Result, code: Code, now: int)
    requires row.state.Pending?
    ensures RowStep(row, SettledRow(row, result, code, now))
    ensures SettledRow(row, result, code, now).attempts == row.attempts
  {
    hide RetryDelay;
  }

  lemma {:induction false} SettledKeepsRows(q: Queue, id: int, token: int, result: Result, code: Code, now: int)
    requires Capped(q)
    ensures KeepsRows(q, Settled(q, id, token, result, code, now).1)
  {
    hide EndsConsent, SettledRow, Ended, RowStep;
    if Holds(q, id, token, now) {
      EndedKeepsRows(q, id, code, now);
      SettledRowStep(q.rows[id], result, code, now);
    }
    AnyRowStep(q);
  }

  lemma {:induction false} AnyRowStep(q: Queue)
    ensures RowsStep(q.rows, q.rows)
  {
  }

  lemma {:induction false} CompletedKeepsRows(q: Queue, task: int, ids: map<int, string>, people: seq<Person>, now: int)
    requires Capped(q) && Generated(q, ids, people)
    ensures KeepsRows(q, TaskCompleted(q, task, ids, people, now))
  {
    hide Due;
    assert ids.Keys !! q.rows.Keys;
  }

  lemma {:induction false} StepKeepsRows(w: World, op: Op, now: int)
    requires Possible(w, op, now) && Capped(w.queue)
    ensures KeepsRows(w.queue, Next(w, op, now).queue)
  {
    hide SetRecipient, Settled, Generated, TaskCompleted;
    match op {
      case OptIn(ref, recipient, entitled, people) => SetKeepsRows(w.queue, ref, recipient, true, entitled, people, now);
      case OptOut(ref, subscription) =>
        SetKeepsRows(w.queue, ref, Recipient(subscription, "", "", 0, "", false), false, true, [], now);
      case Settle(id, token, result, code) => SettledKeepsRows(w.queue, id, token, result, code, now);
      case CompleteTask(task, ids, people) => CompletedKeepsRows(w.queue, task, ids, people, now);
      case _ =>
    }
  }

  /** A row keeps its addressee for life, and once delivered, cancelled or failed it never changes, restores included. */
  lemma {:induction false} SettledIsFinal(ws: seq<World>, ops: seq<Op>, times: seq<int>, i: nat, j: nat, id: int)
    requires Trace(ws, ops, times) && Capped(ws[0].queue) && i <= j < |ws| && id in ws[i].queue.rows
    ensures id in ws[j].queue.rows && RowStep(ws[i].queue.rows[id], ws[j].queue.rows[id])
    decreases j
  {
    hide Possible, Next, Capped;
    if i < j {
      SettledIsFinal(ws, ops, times, i, j - 1, id);
      CappedAlways(ws, ops, times, j - 1);
      StepKeepsRows(ws[j - 1], ops[j - 1], times[j - 1]);
    }
  }

  lemma {:induction false} CappedAlways(ws: seq<World>, ops: seq<Op>, times: seq<int>, i: nat)
    requires Trace(ws, ops, times) && Capped(ws[0].queue) && i < |ws|
    ensures Capped(ws[i].queue)
  {
    hide Possible, Next, Capped;
    if i > 0 {
      CappedAlways(ws, ops, times, i - 1);
      StepKeepsRows(ws[i - 1], ops[i - 1], times[i - 1]);
    }
  }

  /** Opting in again leaves no pending row of an earlier generation behind. */
  lemma {:induction false} NewConsentStartsClean(q: Queue, ref: string, v: Recipient, people: seq<Person>, now: int,
        id: int)
    requires AllConsented(q) && forall other :: other in q.rows ==> q.rows[other].subscription != v.subscription
    requires SetRecipient(q, ref, v, true, true, people, now).0 == Accepted
    requires id in q.rows && q.rows[id].ref == ref
    ensures var after := SetRecipient(q, ref, v, true, true, people, now).1;
            && Current(after.recipients, ref, after.recipients[ref].subscription)
            && (after.rows[id].state.Pending? <==>
                  q.rows[id].state.Pending? && SameConsent(q.recipients[ref], v))
  {
    hide ActiveParent, Listed, Bound;
    assert Consented(q, q.rows[id]);
  }

  // ---------------------------------------------------------------- leases

  ghost predicate LeasesKnown(w: World) {
    forall id :: id in w.queue.rows && w.queue.rows[id].lease.Some? ==>
      w.queue.rows[id].lease.value.token in w.tokens && w.queue.rows[id].attempts >= 1
  }

  /** A token leases at most one row. */
  ghost predicate LeasesApart(q: Queue) {
    forall a, b :: a in q.rows && b in q.rows && a != b && q.rows[a].lease.Some? && q.rows[b].lease.Some? ==>
      q.rows[a].lease.value.token != q.rows[b].lease.value.token
  }

  /** No row gains a lease: a row under one has the lease and the tries it had before. */
  ghost predicate NoNewLease(before: map<int, Row>, after: map<int, Row>) {
    forall id :: id in after && after[id].lease.Some? ==>
      id in before && after[id].lease == before[id].lease && after[id].attempts == before[id].attempts
  }

  lemma {:induction false} SetLeases(q: Queue, ref: string, v: Recipient, enabled: bool, entitled: bool,
      people: seq<Person>, now: int)
    ensures NoNewLease(q.rows, SetRecipient(q, ref, v, enabled, entitled, people, now).1.rows)
  {
    hide ActiveParent, Listed, Bound, Outdated, OptedIn;
  }

  /** Only a claim leases a row. */
  lemma {:induction false} OnlyClaimLeases(w: World, op: Op, now: int)
    requires Possible(w, op, now) && !op.Claim?
    ensures NoNewLease(w.queue.rows, Next(w, op, now).queue.rows) && Next(w, op, now).tokens == w.tokens
  {
    hide SetRecipient, SameGeneration, EndsConsent, RetryDelay, Due;
    match op {
      case OptIn(ref, recipient, entitled, people) => SetLeases(w.queue, ref, recipient, true, entitled, people, now);
      case OptOut(ref, subscription) =>
        SetLeases(w.queue, ref, Recipient(subscription, "", "", 0, "", false), false, true, [], now);
      case _ =>
    }
  }

  lemma {:induction false} StepLeases(w: World, op: Op, now: int)
    requires Possible(w, op, now) && LeasesKnown(w) && LeasesApart(w.queue)
    ensures LeasesKnown(Next(w, op, now)) && LeasesApart(Next(w, op, now).queue)
  {
    if !op.Claim? {
      hide Possible, Next;
      OnlyClaimLeases(w, op, now);
    }
  }

  /** A token that was generated and no longer holds its row. */
  predicate Lost(w: World, id: int, token: int) {
    token in w.tokens && !Holds(w.queue, id, token, w.now)
  }

  lemma {:induction false} LostStays(w: World, op: Op, now: int, id: int, token: int)
    requires Possible(w, op, now) && Lost(w, id, token)
    ensures Lost(Next(w, op, now), id, token)
  {
    hide ActiveParent, Listed, Bound, SameConsent, Current, EndsConsent, RetryDelay, OptedIn, Claimable;
    assert op.CompleteTask? ==> op.ids.Keys !! w.queue.rows.Keys;
  }

  /**
   A worker whose lease expired, was settled, cancelled or taken over can never settle its row: at any
   later time its settlement is refused and changes nothing.
   */
  lemma {:induction false} LostLeaseNeverSettles(
      ws: seq<World>, ops: seq<Op>, times: seq<int>, i: nat, j: nat, id: int, token: int, result: Result, code: Code, now: int)
    requires Trace(ws, ops, times) && i <= j < |ws| && Lost(ws[i], id, token) && now >= ws[j].now
    ensures Settled(ws[j].queue, id, token, result, code, now) == (Conflict, ws[j].queue)
    decreases j
  {
    hide Possible, Next;
    LostAlways(ws, ops, times, i, j, id, token);
  }

  lemma {:induction false} LostAlways(ws: seq<World>, ops: seq<Op>, times: seq<int>, i: nat, j: nat, id: int,
        token: int)
    requires Trace(ws, ops, times) && i <= j < |ws| && Lost(ws[i], id, token)
    ensures Lost(ws[j], id, token)
    decreases j
  {
    hide Possible, Next, Lost;
    if i < j {
      LostAlways(ws, ops, times, i, j - 1, id, token);
      LostStays(ws[j - 1], ops[j - 1], times[j - 1], id, token);
    }
  }

  /** At any time at most one token settles a row, and a token settles at most one row. */
  lemma {:induction false} OneHolder(ws: seq<World>, ops: seq<Op>, times: seq<int>, i: nat, a: int, b: int,
      s: int, t: int, now: int)
    requires Trace(ws, ops, times) && LeasesKnown(ws[0]) && LeasesApart(ws[0].queue) && i < |ws|
    requires Holds(ws[i].queue, a, s, now) && Holds(ws[i].queue, b, t, now)
    ensures a == b <==> s == t
  {
    hide Possible, Next;
    LeasesAlways(ws, ops, times, i);
  }

  lemma {:induction false} LeasesAlways(ws: seq<World>, ops: seq<Op>, times: seq<int>, i: nat)
    requires Trace(ws, ops, times) && LeasesKnown(ws[0]) && LeasesApart(ws[0].queue) && i < |ws|
    ensures LeasesKnown(ws[i]) && LeasesApart(ws[i].queue)
  {
    hide Possible, Next, LeasesKnown, LeasesApart;
    if i > 0 {
      LeasesAlways(ws, ops, times, i - 1);
      StepLeases(ws[i - 1], ops[i - 1], times[i - 1]);
    }
  }

  // ---------------------------------------------------------------- retry delays

  lemma {:induction false} PowerGrows(a: nat, b: nat)
    requires a <= b
    ensures 1 <= PowerOfTwo(a) <= PowerOfTwo(b)
    decreases b
  {
    if a < b {
      PowerGrows(a, b - 1);
    } else if a > 0 {
      PowerGrows(a - 1, b - 1);
    }
  }

  /** Doubling from five seconds up to an hour, for any number of tries. */
  lemma {:induction false} DelayDoubles(tries: int)
    requires tries >= 1
    ensures RetryDelay(tries) == if 5 * PowerOfTwo(tries - 1) < 3600 then 5 * PowerOfTwo(tries - 1) else 3600
  {
    if tries > 11 {
      PowerGrows(10, tries - 1);
      assert PowerOfTwo(10) == 1024 by {
        assert PowerOfTwo(5) == 32;
      }
    }
  }

  lemma {:induction false} DelayGrows(a: int, b: int)
    requires a <= b
    ensures 5 <= RetryDelay(a) <= RetryDelay(b) <= 3600
  {
    var x, y := if a < 1 then 1 else a, if b < 1 then 1 else b;
    DelayDoubles(x);
    DelayDoubles(y);
    PowerGrows(x - 1, y - 1);
  }

  /** Of two retries of one row, the later one never waits less. */
  lemma {:induction false} RetriesSlowDown(ws: seq<World>, ops: seq<Op>, times: seq<int>, i: nat, j: nat, id: int)
    requires Trace(ws, ops, times) && Capped(ws[0].queue) && LeasesKnown(ws[0]) && LeasesApart(ws[0].queue)
    requires i <= j < |ops| && ops[i].Settle? && ops[j].Settle? && ops[i].id == id == ops[j].id
    requires ops[i].result.Retry? && ops[j].result.Retry?
    requires Holds(ws[i].queue, id, ops[i].token, times[i]) && Holds(ws[j].queue, id, ops[j].token, times[j])
    ensures var (first, later) := (ws[i].queue.rows[id].attempts, ws[j].queue.rows[id].attempts);
            && ws[i + 1].queue.rows[id].available == times[i] + RetryDelay(first)
            && ws[j + 1].queue.rows[id].available == times[j] + RetryDelay(later)
            && 1 <= first <= later
            && RetryDelay(first) == (if 5 * PowerOfTwo(first - 1) < 3600 then 5 * PowerOfTwo(first - 1) else 3600)
            && RetryDelay(first) <= RetryDelay(later)
  {
    hide RetryDelay, PowerOfTwo, Capped, LeasesApart;
    SettledIsFinal(ws, ops, times, i, j, id);
    LeasesAlways(ws, ops, times, i);
    DelayGrows(ws[i].queue.rows[id].attempts, ws[j].queue.rows[id].attempts);
    DelayDoubles(ws[i].queue.rows[id].attempts);
  }
}
