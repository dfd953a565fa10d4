/**
 The notification outbox: who has opted in, one row per event and recipient, and the transactions that
 set consent, lease, settle and cancel. Times are in seconds.
 */
module Outbox {
  import opened Days
  import opened Rewards

  /** An opted-in recipient; each new opt-in has its own subscription, the consent generation. */
  datatype Recipient = Recipient(subscription: int, issuer: string, subject: string, parent: int,
                                 binding: string, enabled: bool)

  datatype State = Pending | Delivered | Cancelled | FailedForGood

  datatype Code =
    | NoCode | Transport | PortalUnavailable | PortalDenied | PortalConflict | PortalInvalid | IdentityUnavailable
    | RecipientRevoked | AuthorizationRevoked | InvalidResponse | BackupRestore

  datatype Lease = Lease(token: int, until: int)

  datatype Row = Row(
    task: int, ref: string, subscription: int, issuer: string, subject: string, parent: int, binding: string,
    state: State, attempts: nat, available: int, created: int, lease: Option<Lease>,
    code: Code, portalId: string, settled: Option<int>)

  datatype Result = Deliver(portalId: string) | Retry | Cancel | GiveUp

  datatype TaskStatus = NotDone | NeedsWork | Completed | Confirmed

  predicate Open(status: TaskStatus) {
    status.NotDone? || status.NeedsWork?
  }

  datatype Queue = Queue(recipients: map<string, Recipient>, rows: map<int, Row>)

  const LEASE_SECONDS := 60
  const MAX_ATTEMPTS := 2147483646
  const HOUR := 3600

  // ---------------------------------------------------------------- retries

  function PowerOfTwo(n: nat): nat {
    if n == 0 then 1 else 2 * PowerOfTwo(n - 1)
  }

  /** The wait before the next try, from the number of tries so far. */
  function RetryDelay(attempt: int): int {
    var tries := if attempt < 1 then 1 else attempt;
    if tries > 11 then HOUR
    else
      var delay := 5 * PowerOfTwo(tries - 1);
      if delay > HOUR then HOUR else delay
  }

  // ---------------------------------------------------------------- consent

  predicate ActiveParent(people: seq<Person>, id: int) {
    exists i :: 0 <= i < |people| && people[i].id == id && people[i].active && people[i].role.Parent?
  }

  predicate Listed(people: seq<Person>, id: int) {
    exists i :: 0 <= i < |people| && people[i].id == id
  }

  /** The table only lets bound recipients be enabled. */
  predicate Bound(binding: string) {
    5 <= |binding| <= 128 && binding[..4] == "tgb_"
  }

  predicate SameConsent(r: Recipient, v: Recipient) {
    r.enabled && r.binding == v.binding && r.issuer == v.issuer && r.subject == v.subject && r.parent == v.parent
  }

  /** The same person opting in again keeps the generation; any other opt-in starts a new one. */
  function OptedIn(recipients: map<string, Recipient>, ref: string, v: Recipient): map<string, Recipient> {
    var subscription := if ref in recipients && SameConsent(recipients[ref], v)
                        then recipients[ref].subscription else v.subscription;
    recipients[ref := v.(subscription := subscription, enabled := true)]
  }

  predicate Current(recipients: map<string, Recipient>, ref: string, subscription: int) {
    ref in recipients && recipients[ref].subscription == subscription && recipients[ref].enabled
  }

  function Stopped(row: Row, code: Code, now: int): Row {
    row.(state := Cancelled, code := code, lease := None, settled := Some(now))
  }

  function CancelAll(rows: map<int, Row>, which: set<int>, code: Code, now: int): map<int, Row> {
    map id | id in rows :: if id in which then Stopped(rows[id], code, now) else rows[id]
  }

  /** Pending rows of a recipient that belong to no current generation. */
  function Outdated(q: Queue, ref: string): set<int> {
    set id | id in q.rows && q.rows[id].state.Pending? && q.rows[id].ref == ref
             && !Current(q.recipients, ref, q.rows[id].subscription)
  }

  function WithoutOutdated(q: Queue, ref: string, now: int): Queue {
    q.(rows := CancelAll(q.rows, Outdated(q, ref), RecipientRevoked, now))
  }

  function SetRecipient(q: Queue, ref: string, v: Recipient, enabled: bool, entitled: bool,
      people: seq<Person>, now: int): (Error, Queue) {
    if enabled then
      if !entitled then (Forbidden, q)
      else if !Listed(people, v.parent) then (Failed, q)
      else if !ActiveParent(people, v.parent) then (Forbidden, q)
      else if !Bound(v.binding) then (Failed, q)
      else (Accepted, WithoutOutdated(q.(recipients := OptedIn(q.recipients, ref, v)), ref, now))
    else
      var off := if ref in q.recipients && q.recipients[ref].subscription == v.subscription
                 then q.recipients[ref := q.recipients[ref].(enabled := false)] else q.recipients;
      (Accepted, WithoutOutdated(q.(recipients := off), ref, now))
  }

  function PendingOf(q: Queue, ref: string): set<int> {
    set id | id in q.rows && q.rows[id].state.Pending? && q.rows[id].ref == ref
  }

  function Revoked(q: Queue, ref: string, now: int): Queue {
    Queue(if ref in q.recipients then q.recipients[ref := q.recipients[ref].(enabled := false)] else q.recipients,
          CancelAll(q.rows, PendingOf(q, ref), RecipientRevoked, now))
  }

  // ---------------------------------------------------------------- leases

  predicate Claimable(row: Row, now: int) {
    row.state.Pending? && row.available <= now && (row.lease.None? || row.lease.value.until <= now)
  }

  predicate Before(rows: map<int, Row>, a: int, b: int)
    requires a in rows && b in rows
  {
    || rows[a].available < rows[b].available
    || (rows[a].available == rows[b].available
        && (rows[a].created < rows[b].created || (rows[a].created == rows[b].created && a <= b)))
  }

  /** The first claimable row among those already looked at, if there is one. */
  ghost predicate FirstOf(rows: map<int, Row>, seen: set<int>, id: Option<int>, now: int)
    requires seen <= rows.Keys
  {
    if id.None? then forall other :: other in seen ==> !Claimable(rows[other], now)
    else
      && id.value in seen && Claimable(rows[id.value], now)
      && forall other :: other in seen && Claimable(rows[other], now) ==> Before(rows, id.value, other)
  }

  lemma {:induction false} FirstWith(rows: map<int, Row>, seen: set<int>, id: Option<int>, other: int, now: int)
    requires seen <= rows.Keys && other in rows && FirstOf(rows, seen, id, now)
    ensures var takes := Claimable(rows[other], now) && (id.None? || Before(rows, other, id.value));
            FirstOf(rows, seen + {other}, if takes then Some(other) else id, now)
  {
    hide Claimable;
  }

  /** The first claimable row, spelled out. */
  lemma {:induction false} FirstDue(rows: map<int, Row>, id: Option<int>, now: int)
    requires FirstOf(rows, rows.Keys, id, now)
    ensures id.Some? ==>
              && id.value in rows && var row := rows[id.value];
              && row.state.Pending? && row.available <= now && (row.lease.Some? ==> row.lease.value.until <= now)
              && forall other :: other in rows && other != id.value && rows[other].state.Pending?
                   && rows[other].available <= now && (rows[other].lease.Some? ==> rows[other].lease.value.until <= now)
                   ==> || row.available < rows[other].available
                       || (row.available == rows[other].available
                           && (row.created < rows[other].created
                               || (row.created == rows[other].created && id.value < other)))
    ensures id.None? ==> forall other :: other in rows && rows[other].state.Pending? && rows[other].available <= now ==>
              rows[other].lease.Some? && now < rows[other].lease.value.until
  {
    if id.Some? {
      forall other | other in rows && Claimable(rows[other], now) ensures Before(rows, id.value, other) {
        assert other in rows.Keys;
      }
    } else {
      forall other | other in rows ensures !Claimable(rows[other], now) {
        assert other in rows.Keys;
      }
    }
  }

  /** Looks through the rows for the one a claim takes: of those due and not leased, the first by time, creation and id. */
  method FirstClaimable(rows: map<int, Row>, now: int) returns (id: Option<int>)
    ensures FirstOf(rows, rows.Keys, id, now)
    ensures id.Some? ==>
              && id.value in rows && var row := rows[id.value];
              && row.state.Pending? && row.available <= now && (row.lease.Some? ==> row.lease.value.until <= now)
              && forall other :: other in rows && other != id.value && rows[other].state.Pending?
                   && rows[other].available <= now && (rows[other].lease.Some? ==> rows[other].lease.value.until <= now)
                   ==> || row.available < rows[other].available
                       || (row.available == rows[other].available
                           && (row.created < rows[other].created
                               || (row.created == rows[other].created && id.value < other)))
    ensures id.None? ==> forall other :: other in rows && rows[other].state.Pending? && rows[other].available <= now ==>
              rows[other].lease.Some? && now < rows[other].lease.value.until
  {
    hide Claimable, Before;
    id := None;
    var todo := rows.Keys;
    ghost var seen: set<int> := {};
    while exists other :: other in todo
      invariant seen + todo == rows.Keys && FirstOf(rows, seen, id, now)
      decreases |todo|
    {
      var other :| other in todo;
      FirstWith(rows, seen, id, other, now);
      todo, seen := todo - {other}, seen + {other};
      if Claimable(rows[other], now) && (id.None? || Before(rows, other, id.value)) {
        id := Some(other);
      }
    }
    assert seen == rows.Keys;
    FirstDue(rows, id, now);
  }

  function Claimed(q: Queue, id: int, token: int, now: int): Queue
    requires id in q.rows
  {
    var row := q.rows[id];
    q.(rows := q.rows[id := row.(lease := Some(Lease(token, now + LEASE_SECONDS)),
                                 attempts := if row.attempts + 1 < MAX_ATTEMPTS then row.attempts + 1 else MAX_ATTEMPTS)])
  }

  /** A lease that may still act on its row. */
  predicate Holds(q: Queue, id: int, token: int, now: int) {
    && id in q.rows && q.rows[id].state.Pending?
    && q.rows[id].lease.Some? && q.rows[id].lease.value.token == token && q.rows[id].lease.value.until > now
  }

  /** The recipient and the row name the same person under the same binding. */
  predicate Matches(r: Recipient, row: Row) {
    && r.subscription == row.subscription && r.parent == row.parent && r.issuer == row.issuer
    && r.subject == row.subject && r.binding == row.binding
  }

  predicate Allowed(q: Queue, id: int, token: int, entitled: bool, people: seq<Person>, now: int) {
    && Holds(q, id, token, now) && q.rows[id].ref in q.recipients
    && q.recipients[q.rows[id].ref].enabled && Matches(q.recipients[q.rows[id].ref], q.rows[id])
    && q.rows[id].binding != "" && ActiveParent(people, q.rows[id].parent) && entitled
  }

  // ---------------------------------------------------------------- settlement

  predicate EndsConsent(result: Result, code: Code) {
    result.Cancel? && (code.PortalDenied? || code.RecipientRevoked?)
  }

  /** The other pending rows of the generation a row was made under. */
  function SameGeneration(q: Queue, id: int): set<int>
    requires id in q.rows
  {
    set other | other in q.rows && other != id && q.rows[other].state.Pending?
                && q.rows[other].ref == q.rows[id].ref && q.rows[other].subscription == q.rows[id].subscription
                && q.rows[other].binding == q.rows[id].binding
  }

  /** Ends the generation a row was made under, but no later one. */
  function Ended(q: Queue, id: int, code: Code, now: int): Queue
    requires id in q.rows
  {
    var row := q.rows[id];
    Queue(
      if row.ref in q.recipients && q.recipients[row.ref].subscription == row.subscription
         && q.recipients[row.ref].binding == row.binding
      then q.recipients[row.ref := q.recipients[row.ref].(enabled := false)] else q.recipients,
      CancelAll(q.rows, SameGeneration(q, id), code, now))
  }

  function SettledRow(row: Row, result: Result, code: Code, now: int): Row {
    var done := row.(code := code, lease := None, portalId := if result.Deliver? then result.portalId else "");
    match result
    case Deliver(_) => done.(state := Delivered, available := now, settled := Some(now))
    case Cancel => done.(state := Cancelled, available := now, settled := Some(now))
    case GiveUp => done.(state := FailedForGood, available := now, settled := Some(now))
    case Retry => done.(state := Pending, available := now + RetryDelay(row.attempts), settled := None)
  }

  function Settled(q: Queue, id: int, token: int, result: Result, code: Code, now: int): (Error, Queue) {
    if !Holds(q, id, token, now) then (Conflict, q)
    else
      var ended := if EndsConsent(result, code) then Ended(q, id, code, now) else q;
      (Accepted, ended.(rows := ended.rows[id := SettledRow(q.rows[id], result, code, now)]))
  }

  // ---------------------------------------------------------------- events and restore

  /** The recipients told about a completed task. */
  function Due(q: Queue, people: seq<Person>): set<string> {
    set ref | ref in q.recipients && q.recipients[ref].enabled && ActiveParent(people, q.recipients[ref].parent)
  }

  function NewRow(task: int, ref: string, r: Recipient, now: int): Row {
    Row(task, ref, r.subscription, r.issuer, r.subject, r.parent, r.binding, Pending, 0, now, now, None, NoCode, "", None)
  }

  /** Ids the database generates for the new rows: unused, and one for each due recipient. */
  ghost predicate Generated(q: Queue, ids: map<int, string>, people: seq<Person>) {
    && ids.Keys !! q.rows.Keys
    && (forall id :: id in ids ==> ids[id] in Due(q, people))
    && (forall ref :: ref in Due(q, people) ==> exists id :: id in ids && ids[id] == ref)
    && forall a, b :: a in ids && b in ids && a != b ==> ids[a] != ids[b]
  }

  function TaskCompleted(q: Queue, task: int, ids: map<int, string>, people: seq<Person>, now: int): Queue
    requires Generated(q, ids, people)
  {
    q.(rows := q.rows + (map id | id in ids :: NewRow(task, ids[id], q.recipients[ids[id]], now)))
  }

  /** Restoring a backup keeps the rows as an audit, stops what is pending and forgets all consent. */
  function Restored(q: Queue, now: int): Queue {
    var pending := set id | id in q.rows && q.rows[id].state.Pending?;
    Queue(map[], CancelAll(q.rows, pending, BackupRestore, now))
  }

  class Outbox {
    var recipients: map<string, Recipient>
    var rows: map<int, Row>
    var tasks: map<int, TaskStatus>

    function Data(): Queue
      reads this
    {
      Queue(recipients, rows)
    }

    constructor (q: Queue, open: map<int, TaskStatus>)
      ensures Data() == q && tasks == open
    {
      recipients, rows, tasks := q.recipients, q.rows, open;
    }

    method Cancel(which: set<int>, code: Code, now: int)
      modifies this`rows
      ensures rows == CancelAll(old(rows), which, code, now)
    {
      rows := map id | id in rows :: if id in which then Stopped(rows[id], code, now) else rows[id];
    }

    method SetNotificationRecipient(ref: string, v: Recipient, enabled: bool, entitled: bool, people: seq<Person>,
          now: int)
      returns (e: Error)
      modifies this`recipients, this`rows
      ensures (e, Data()) == SetRecipient(old(Data()), ref, v, enabled, entitled, people, now)
    {
      if enabled {
        if !entitled {
          return Forbidden;
        }
        if !Listed(people, v.parent) {
          return Failed;
        }
        if !ActiveParent(people, v.parent) {
          return Forbidden;
        }
        if !Bound(v.binding) {
          return Failed;
        }
        var subscription := v.subscription;
        if ref in recipients && SameConsent(recipients[ref], v) {
          subscription := recipients[ref].subscription;
        }
        recipients := recipients[ref := v.(subscription := subscription, enabled := true)];
      } else if ref in recipients && recipients[ref].subscription == v.subscription {
        recipients := recipients[ref := recipients[ref].(enabled := false)];
      }
      Cancel(Outdated(Data(), ref), RecipientRevoked, now);
      e := Accepted;
    }

    method RevokeNotificationRecipient(ref: string, now: int)
      modifies this`recipients, this`rows
      ensures Data() == Revoked(old(Data()), ref, now)
    {
      if ref in recipients {
        recipients := recipients[ref := recipients[ref].(enabled := false)];
      }
      Cancel(PendingOf(Data(), ref), RecipientRevoked, now);
    }

    /** Leases the next row that is due and not leased. */
    method ClaimNotification(token: int, now: int) returns (id: Option<int>)
      modifies this`rows
      ensures FirstOf(old(rows), old(rows).Keys, id, now)
      ensures Data() == if id.Some? then Claimed(old(Data()), id.value, token, now) else old(Data())
      ensures id.Some? ==>
                && id.value in old(rows) && var row := old(rows)[id.value];
                && row.state.Pending? && row.available <= now && (row.lease.Some? ==> row.lease.value.until <= now)
                && (forall other :: other in old(rows) && other != id.value && old(rows)[other].state.Pending?
                      && old(rows)[other].available <= now
                      && (old(rows)[other].lease.Some? ==> old(rows)[other].lease.value.until <= now)
                      ==> || row.available < old(rows)[other].available
                          || (row.available == old(rows)[other].available
                              && (row.created < old(rows)[other].created
                                  || (row.created == old(rows)[other].created && id.value < other))))
                && var tries := if row.attempts < 2147483646 then row.attempts + 1 else 2147483646;
                   rows == old(rows)[id.value := row.(lease := Some(Lease(token, now + 60)), attempts := tries)]
      ensures id.None? ==> rows == old(rows)
      ensures id.None? ==> forall other :: other in rows && rows[other].state.Pending? && rows[other].available <= now ==>
                rows[other].lease.Some? && now < rows[other].lease.value.until
    {
      id := FirstClaimable(rows, now);
      if id.Some? {
        var row := rows[id.value];
        var attempts := if row.attempts + 1 < MAX_ATTEMPTS then row.attempts + 1 else MAX_ATTEMPTS;
        rows := rows[id.value := row.(lease := Some(Lease(token, now + LEASE_SECONDS)), attempts := attempts)];
      }
    }

    method SettleNotification(id: int, token: int, result: Result, code: Code, now: int) returns (e: Error)
      modifies this`recipients, this`rows
      ensures (e, Data()) == Settled(old(Data()), id, token, result, code, now)
    {
      if !Holds(Data(), id, token, now) {
        return Conflict;
      }
      var row := rows[id];
      if result.Cancel? && (code.PortalDenied? || code.RecipientRevoked?) {
        if row.ref in recipients && recipients[row.ref].subscription == row.subscription
           && recipients[row.ref].binding == row.binding {
          recipients := recipients[row.ref := recipients[row.ref].(enabled := false)];
        }
        Cancel(SameGeneration(Data(), id), code, now);
      }
      var done := row.(code := code, lease := None, portalId := "", available := now, settled := Some(now));
      match result {
        case Deliver(portalId) => done := done.(state := Delivered, portalId := portalId);
        case Cancel => done := done.(state := Cancelled);
        case GiveUp => done := done.(state := FailedForGood);
        case Retry => done := done.(state := Pending, available := now + RetryDelay(row.attempts), settled := None);
      }
      rows := rows[id := done];
      e := Accepted;
    }

    /**
     The child's report on an open task and the events it causes, in one transaction; `theirs` tells whether
     the reporter is the active person it is assigned to.
     */
    method CompleteTask(task: int, theirs: bool, ids: map<int, string>, people: seq<Person>, now: int)
      returns (e: Error)
      requires Generated(Data(), ids, people)
      modifies this`rows, this`tasks
      ensures e == if task in old(tasks) && (old(tasks)[task].NotDone? || old(tasks)[task].NeedsWork?) && theirs
                   then Accepted else NotFound
      ensures e == Accepted ==>
                Data() == TaskCompleted(old(Data()), task, ids, people, now) && tasks == old(tasks)[task := Completed]
      ensures e != Accepted ==> Data() == old(Data()) && tasks == old(tasks)
    {
      if task !in tasks || !Open(tasks[task]) || !theirs {
        return NotFound;
      }
      tasks := tasks[task := Completed];
      rows := rows + (map id | id in ids :: NewRow(task, ids[id], recipients[ids[id]], now));
      e := Accepted;
    }

    /** Restores the tasks of a backup; the queue itself is not part of it. */
    method ImportBackup(restored: map<int, TaskStatus>, now: int)
      modifies this
      ensures tasks == restored
      ensures Data() == Restored(old(Data()), now)
    {
      var pending := set id | id in rows && rows[id].state.Pending?;
      Cancel(pending, BackupRestore, now);
      recipients := map[];
      tasks := restored;
    }
  }
}
