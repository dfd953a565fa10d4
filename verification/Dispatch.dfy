/**
 Dispatch workers and consent requests of one Access process. One mutex serializes them; claims, task
 events and restores do not take it. Every remote call is one atomic step whose reply may be lost, or that
 happens only after its caller has given up and released the mutex.
 */
module Dispatch {
  import opened Days
  import opened Rewards
  import opened Outbox
  import O = OutboxTheorems

  /** What a worker holds of a claimed row. */
  datatype Job = Job(id: int, token: int, ref: string, subscription: int)

  datatype Identity = SameFamily | NotThisFamily | IdentityError

  /** A Portal reply; `Other` is a status without a rule of its own, `Unreachable` is no reply. */
  datatype Reply = Ok | Denied | Duplicate | Malformed | Other | Unreachable

  datatype Stage = Identifying | Checking | AskingEligibility | Sending | Settling

  datatype Worker =
    | Free
    | Waiting(job: Job)
    | Inside(job: Job, stage: Stage, result: Result, code: Code)

  // ---------------------------------------------------------------- one delivery

  function Entered(job: Job): Worker {
    Inside(job, Identifying, Retry, Transport)
  }

  function Stop(w: Worker, result: Result, code: Code): Worker
    requires w.Inside?
  {
    w.(stage := Settling, result := result, code := code)
  }

  function AfterIdentity(w: Worker, answer: Identity): Worker
    requires w.Inside?
  {
    match answer
    case NotThisFamily => Stop(w, Cancel, RecipientRevoked)
    case IdentityError => Stop(w, w.result, IdentityUnavailable)
    case SameFamily => w.(stage := Checking)
  }

  /** The check's answer, or none when the call failed. */
  function AfterCheck(w: Worker, answer: Option<bool>): Worker
    requires w.Inside?
  {
    if answer.None? then Stop(w, w.result, w.code)
    else if !answer.value then Stop(w, Cancel, AuthorizationRevoked)
    else w.(stage := AskingEligibility)
  }

  function AfterRefusal(w: Worker, reply: Reply): Worker
    requires w.Inside?
  {
    match reply
    case Denied => Stop(w, Cancel, PortalDenied)
    case Duplicate => Stop(w, GiveUp, PortalConflict)
    case Malformed => Stop(w, GiveUp, PortalInvalid)
    case Other => Stop(w, w.result, PortalUnavailable)
    case _ => Stop(w, w.result, w.code)
  }

  /** An answer that the recipient is not eligible counts as a denial. */
  function AfterEligibility(w: Worker, reply: Reply, eligible: bool): Worker
    requires w.Inside?
  {
    if reply.Ok? && eligible then w.(stage := Sending)
    else AfterRefusal(w, if reply.Ok? then Denied else reply)
  }

  predicate PortalIdValid(id: string) {
    4 <= |id| <= 128 && id[..4] == "tgn_"
  }

  function AfterSend(w: Worker, reply: Reply, portalId: string): Worker
    requires w.Inside?
  {
    if !reply.Ok? then AfterRefusal(w, reply)
    else if !PortalIdValid(portalId) then Stop(w, w.result, InvalidResponse)
    else Stop(w, Deliver(portalId), NoCode)
  }

  /**
   One delivery under the mutex, from its answers to its settlement. It asks the Portal to send only after
   the family, the consent table and the Portal's own consent have all agreed.
   */
  method DispatchNotification(job: Job, identity: Identity, check: Option<bool>, eligibility: Reply, eligible: bool,
                              sending: Reply, portalId: string)
    returns (asked: bool, result: Result, code: Code)
    ensures asked <==> identity.SameFamily? && check == Some(true) && eligibility.Ok? && eligible
    ensures result.Deliver? <==> asked && sending.Ok? && 4 <= |portalId| <= 128 && portalId[..4] == "tgn_"
    ensures result.Deliver? ==> result.portalId == portalId
    ensures var heard := if asked then sending else if eligibility.Ok? then Denied else eligibility;
            code == if identity.NotThisFamily? then RecipientRevoked
                    else if identity.IdentityError? then IdentityUnavailable
                    else if check.None? then Transport
                    else if !check.value then AuthorizationRevoked
                    else match heard
                         case Ok => if result.Deliver? then NoCode else InvalidResponse
                         case Denied => PortalDenied
                         case Duplicate => PortalConflict
                         case Malformed => PortalInvalid
                         case Other => PortalUnavailable
                         case Unreachable => Transport
    ensures result.Cancel? <==> code.RecipientRevoked? || code.AuthorizationRevoked? || code.PortalDenied?
    ensures result.GiveUp? <==> code.PortalConflict? || code.PortalInvalid?
    ensures EndsConsent(result, code) <==>
              || identity.NotThisFamily?
              || (identity.SameFamily? && check == Some(true)
                  && (eligibility.Denied? || (eligibility.Ok? && !eligible) || (asked && sending.Denied?)))
    ensures result.Retry? <==>
              || identity.IdentityError? || (identity.SameFamily? && check.None?)
              || (identity.SameFamily? && check == Some(true)
                  && if asked then sending.Other? || sending.Unreachable? || (sending.Ok? && !result.Deliver?)
                     else eligibility.Other? || eligibility.Unreachable?)
  {
    asked, result, code := false, Retry, Transport;
    if identity.NotThisFamily? {
      return false, Cancel, RecipientRevoked;
    }
    if identity.IdentityError? {
      return false, result, IdentityUnavailable;
    }
    if check.None? {
      return;
    }
    if !check.value {
      return false, Cancel, AuthorizationRevoked;
    }
    var reply := eligibility;
    if reply.Ok? && !eligible {
      reply := Denied;
    }
    if reply.Ok? {
      asked := true;
      reply := sending;
    }
    if !reply.Ok? {
      if !reply.Unreachable? {
        code := PortalUnavailable;
        match reply {
          case Denied => result, code := Cancel, PortalDenied;
          case Duplicate => result, code := GiveUp, PortalConflict;
          case Malformed => result, code := GiveUp, PortalInvalid;
          case _ =>
        }
      }
      return;
    }
    if !PortalIdValid(portalId) {
      code := InvalidResponse;
      return;
    }
    result, code := Deliver(portalId), NoCode;
  }

  /** The stages of a worker end in the settlement that one delivery computes. */
  lemma {:induction false} StagesSettle(job: Job, identity: Identity, check: Option<bool>, eligibility: Reply,
      eligible: bool,
                                        sending: Reply, portalId: string)
    ensures var w := AfterIdentity(Entered(job), identity);
            var c := if w.stage.Checking? then AfterCheck(w, check) else w;
            var e := if c.stage.AskingEligibility? then AfterEligibility(c, eligibility, eligible) else c;
            var s := if e.stage.Sending? then AfterSend(e, sending, portalId) else e;
            && s.stage.Settling? && s.job == job
            && (e.stage.Sending? <==> identity.SameFamily? && check == Some(true) && eligibility.Ok? && eligible)
            && (s.result.Deliver? <==> e.stage.Sending? && sending.Ok? && PortalIdValid(portalId))
            && (EndsConsent(s.result, s.code) <==>
                  || identity.NotThisFamily?
                  || (identity.SameFamily? && check == Some(true)
                      && (eligibility.Denied? || (eligibility.Ok? && !eligible) || (e.stage.Sending? && sending.Denied?))))
  {
  }

  // ---------------------------------------------------------------- consent requests

  /** `selected` tells whether the session has chosen a family, so that its table can be reached. */
  datatype Wish = Wish(enable: bool, ref: string, selected: bool, recipient: Recipient)

  datatype Asker =
    | Idle
    | Asking(wish: Wish)
    | Validating(wish: Wish)
    | Revoking(wish: Wish)
    | CallingPortal(wish: Wish, revoked: bool)
    | Enabling(wish: Wish)
    | Undoing(wish: Wish)

  predicate HasLock(a: Asker) {
    !a.Idle? && !a.Asking?
  }

  /**
   What becomes of a request to Core or the Portal: carried out and answered, carried out with the answer
   lost, given up by the caller while it may still be carried out, or never carried out.
   */
  datatype Fate = Answered | Unheard | InFlight | Never

  predicate Carried(f: Fate) {
    f.Answered? || f.Unheard?
  }

  /** A request whose caller has given up and that may yet be carried out, once. */
  datatype Effect =
    | LateRevoke(ref: string)
    | LateOptIn(ref: string, recipient: Recipient)
    | LateConsent(ref: string, enable: bool)
    | LateSettle(id: int, token: int, result: Result, code: Code)

  datatype Actor = WorkerNo(n: int) | AskerNo(n: int)

  /**
   The process, its mutex, the outbox, the requests in flight without a caller, and what the consent route
   has brought about: `revoked` holds the generations it ended in the table while it held the mutex,
   `endedLate` those that it ended after giving up, `portalOff` the references whose last word at the Portal
   was no.
   */
  datatype Access = Access(
    world: O.World, holder: Option<Actor>, workers: map<int, Worker>, askers: map<int, Asker>,
    revoked: set<(string, int)>, endedLate: set<(string, int)>, portalOff: set<string>, late: multiset<Effect>)

  datatype Step =
    | ClaimJob(n: int, id: int, token: int, now: int)
    | LockForJob(n: int)
    | HearIdentity(n: int, identity: Identity)
    | HearCheck(n: int, reached: bool, entitled: bool, people: seq<Person>, now: int)
    | HearEligibility(n: int, reply: Reply, eligible: bool)
    | Send(n: int, reply: Reply, portalId: string)
    | SettleJob(n: int, fate: Fate, now: int)
    | Wishes(n: int, wish: Wish)
    | LockForWish(n: int)
    | Validated(n: int, passes: bool)
    | RevokeLocally(n: int, fate: Fate, now: int)
    | CallPortal(n: int, fate: Fate)
    | EnableLocally(n: int, fate: Fate, entitled: bool, people: seq<Person>, now: int)
    | Undo(n: int, fate: Fate)
    | Late(effect: Effect, entitled: bool, people: seq<Person>, now: int)
    | Environment(op: O.Op, now: int)

  predicate IsWorker(s: Access, n: int, stage: Stage) {
    n in s.workers && s.workers[n].Inside? && s.workers[n].stage == stage
  }

  /** An operation of the outbox as part of a step. */
  ghost predicate Does(s: Access, op: O.Op, now: int) {
    O.Possible(s.world, op, now)
  }

  /**
   When a step can happen: its actor is at that point, and the database generates what it must. Besides the
   process itself, tasks are completed, backups restored, and a claim may lose its reply.
   */
  ghost predicate Enabled(s: Access, step: Step) {
    match step
    case ClaimJob(n, id, token, now) => n in s.workers && s.workers[n].Free? && Does(s, O.Claim(id, token), now)
    case LockForJob(n) => n in s.workers && s.workers[n].Waiting? && s.holder.None?
    case HearIdentity(n, _) => IsWorker(s, n, Identifying)
    case HearCheck(n, _, _, _, now) => IsWorker(s, n, Checking) && s.world.now <= now
    case HearEligibility(n, reply, eligible) =>
      IsWorker(s, n, AskingEligibility) && (reply.Ok? && eligible ==> s.workers[n].job.ref !in s.portalOff)
    case Send(n, _, _) => IsWorker(s, n, Sending)
    case SettleJob(n, _, now) => IsWorker(s, n, Settling) && s.world.now <= now
    case Wishes(n, _) => n in s.askers && s.askers[n].Idle?
    case LockForWish(n) => n in s.askers && s.askers[n].Asking? && s.holder.None?
    case Validated(n, _) => n in s.askers && s.askers[n].Validating?
    case RevokeLocally(n, _, now) => n in s.askers && s.askers[n].Revoking? && s.world.now <= now
    case CallPortal(n, _) => n in s.askers && s.askers[n].CallingPortal?
    case EnableLocally(n, fate, entitled, people, now) =>
      && n in s.askers && s.askers[n].Enabling?
      && (Carried(fate) ==> Does(s, O.OptIn(s.askers[n].wish.ref, s.askers[n].wish.recipient, entitled, people), now))
    case Undo(n, _) => n in s.askers && s.askers[n].Undoing?
    case Late(effect, entitled, people, now) =>
      && effect in s.late && s.world.now <= now
      && (effect.LateOptIn? ==> Does(s, O.OptIn(effect.ref, effect.recipient, entitled, people), now))
    case Environment(op, now) => (op.CompleteTask? || op.Restore? || op.Claim?) && Does(s, op, now)
  }

  ghost function Acts(s: Access, op: O.Op, now: int): Access
    requires O.Possible(s.world, op, now)
  {
    s.(world := O.Next(s.world, op, now))
  }

  function WithWorker(s: Access, n: int, w: Worker): Access {
    s.(workers := s.workers[n := w])
  }

  function WithAsker(s: Access, n: int, a: Asker): Access {
    s.(askers := s.askers[n := a])
  }

  function Unlocked(s: Access): Access {
    s.(holder := None)
  }

  function GivenUp(s: Access, e: Effect): Access {
    s.(late := s.late + multiset{e})
  }

  /** The generation a local revocation ends. */
  function CurrentOf(q: Queue, ref: string): set<(string, int)> {
    if ref in q.recipients then {(ref, q.recipients[ref].subscription)} else {}
  }

  /** The Portal's consent after a call. */
  function Said(s: Access, ref: string, enable: bool): Access {
    s.(portalOff := if enable then s.portalOff - {ref} else s.portalOff + {ref})
  }

  ghost function RevokedNow(s: Access, ref: string, now: int): Access
    requires s.world.now <= now
  {
    Acts(s, O.Revoke(ref), now).(revoked := s.revoked + CurrentOf(s.world.queue, ref))
  }

  ghost function RevokedLate(s: Access, ref: string, now: int): Access
    requires s.world.now <= now
  {
    Acts(s, O.Revoke(ref), now).(endedLate := s.endedLate + CurrentOf(s.world.queue, ref))
  }

  /** Nobody of the process has moved. */
  predicate SameProcess(s: Access, after: Access) {
    after.workers == s.workers && after.askers == s.askers && after.holder == s.holder
  }

  /** A request given up before is carried out now. */
  ghost function Arrived(s: Access, e: Effect, entitled: bool, people: seq<Person>, now: int): (after: Access)
    requires Enabled(s, Late(e, entitled, people, now))
    ensures SameProcess(s, after) && after.revoked == s.revoked && s.endedLate <= after.endedLate
  {
    var rest := s.(late := s.late - multiset{e});
    match e
    case LateRevoke(ref) => RevokedLate(rest, ref, now)
    case LateOptIn(ref, recipient) => Acts(rest, O.OptIn(ref, recipient, entitled, people), now)
    case LateConsent(ref, enable) => Said(rest, ref, enable)
    case LateSettle(id, token, result, code) => Acts(rest, O.Settle(id, token, result, code), now)
  }

  /** The four calls that change something, whatever becomes of them. */
  ghost function SettleCalled(s: Access, w: Worker, fate: Fate, now: int): (after: Access)
    requires w.Inside? && s.world.now <= now
    ensures SameProcess(s, after)
    ensures after.revoked == s.revoked && after.endedLate == s.endedLate && after.portalOff == s.portalOff
  {
    if Carried(fate) then Acts(s, O.Settle(w.job.id, w.job.token, w.result, w.code), now)
    else if fate.InFlight? then GivenUp(s, LateSettle(w.job.id, w.job.token, w.result, w.code)) else s
  }

  ghost function RevokeCalled(s: Access, ref: string, fate: Fate, now: int): (after: Access)
    requires s.world.now <= now
    ensures SameProcess(s, after)
    ensures s.revoked <= after.revoked && after.endedLate == s.endedLate && after.portalOff == s.portalOff
  {
    if Carried(fate) then RevokedNow(s, ref, now)
    else if fate.InFlight? then GivenUp(s, LateRevoke(ref)) else s
  }

  ghost function OptInCalled(s: Access, ref: string, recipient: Recipient, fate: Fate, entitled: bool,
      people: seq<Person>, now: int): (after: Access)
    requires Carried(fate) ==> Does(s, O.OptIn(ref, recipient, entitled, people), now)
    ensures SameProcess(s, after)
    ensures after.revoked == s.revoked && after.endedLate == s.endedLate && after.portalOff == s.portalOff
  {
    if Carried(fate) then Acts(s, O.OptIn(ref, recipient, entitled, people), now)
    else if fate.InFlight? then GivenUp(s, LateOptIn(ref, recipient)) else s
  }

  ghost function ConsentCalled(s: Access, ref: string, enable: bool, fate: Fate): (after: Access)
    ensures SameProcess(s, after)
    ensures after.revoked == s.revoked && after.endedLate == s.endedLate && after.world == s.world
  {
    if Carried(fate) then Said(s, ref, enable)
    else if fate.InFlight? then GivenUp(s, LateConsent(ref, enable)) else s
  }

  ghost function Next(s: Access, step: Step): Access
    requires Enabled(s, step)
  {
    match step
    case ClaimJob(n, id, token, now) =>
      var row := s.world.queue.rows[id];
      WithWorker(Acts(s, O.Claim(id, token), now), n, Waiting(Job(id, token, row.ref, row.subscription)))
    case LockForJob(n) => WithWorker(s, n, Entered(s.workers[n].job)).(holder := Some(WorkerNo(n)))
    case HearIdentity(n, identity) => WithWorker(s, n, AfterIdentity(s.workers[n], identity))
    case HearCheck(n, reached, entitled, people, now) =>
      var job := s.workers[n].job;
      var allowed := Allowed(s.world.queue, job.id, job.token, entitled, people, now);
      var answer := if reached then Some(allowed) else None;
      WithWorker(s.(world := s.world.(now := now)), n, AfterCheck(s.workers[n], answer))
    case HearEligibility(n, reply, eligible) => WithWorker(s, n, AfterEligibility(s.workers[n], reply, eligible))
    case Send(n, reply, portalId) => WithWorker(s, n, AfterSend(s.workers[n], reply, portalId))
    case SettleJob(n, fate, now) =>
      Unlocked(WithWorker(SettleCalled(s, s.workers[n], fate, now), n, Free))
    case Wishes(n, wish) => WithAsker(s, n, Asking(wish))
    case LockForWish(n) =>
      var wish := s.askers[n].wish;
      var next := if wish.enable then Validating(wish)
                  else if wish.selected then Revoking(wish) else CallingPortal(wish, true);
      WithAsker(s, n, next).(holder := Some(AskerNo(n)))
    case Validated(n, passes) =>
      if passes then WithAsker(s, n, CallingPortal(s.askers[n].wish, true)) else Unlocked(WithAsker(s, n, Idle))
    case RevokeLocally(n, fate, now) =>
      var wish := s.askers[n].wish;
      WithAsker(RevokeCalled(s, wish.ref, fate, now), n, CallingPortal(wish, fate.Answered?))
    case CallPortal(n, fate) =>
      var a := s.askers[n];
      var after := ConsentCalled(s, a.wish.ref, a.wish.enable, fate);
      if fate.Answered? && a.revoked && a.wish.enable then WithAsker(after, n, Enabling(a.wish))
      else Unlocked(WithAsker(after, n, Idle))
    case EnableLocally(n, fate, entitled, people, now) =>
      var wish := s.askers[n].wish;
      var after := OptInCalled(s, wish.ref, wish.recipient, fate, entitled, people, now);
      var accepted := SetRecipient(s.world.queue, wish.ref, wish.recipient, true, entitled, people, now).0 == Accepted;
      if fate.Answered? && accepted then Unlocked(WithAsker(after, n, Idle)) else WithAsker(after, n, Undoing(wish))
    case Undo(n, fate) =>
      Unlocked(WithAsker(ConsentCalled(s, s.askers[n].wish.ref, false, fate), n, Idle))
    case Late(effect, entitled, people, now) => Arrived(s, effect, entitled, people, now)
    case Environment(op, now) => Acts(s, op, now)
  }

  // ---------------------------------------------------------------- what always holds

  /** Whoever is between lock and unlock holds the mutex, and nobody else. */
  ghost predicate Exclusive(s: Access) {
    && (forall n :: n in s.workers ==> (s.workers[n].Inside? <==> s.holder == Some(WorkerNo(n))))
    && (forall n :: n in s.askers ==> (HasLock(s.askers[n]) <==> s.holder == Some(AskerNo(n))))
  }

  /** Generations the consent route ended, in time or late, are known and never current again. */
  ghost predicate RevokedForGood(s: Access) {
    && O.GenerationsKnown(s.world)
    && forall g :: g in s.revoked + s.endedLate ==>
         g.1 in s.world.generations && !Current(s.world.queue.recipients, g.0, g.1)
  }

  /** A worker that the table has allowed to go on. */
  predicate PastCheck(w: Worker) {
    w.Inside? && (w.stage.AskingEligibility? || w.stage.Sending?)
  }

  /** A worker past the check works for a generation that no consent request has ended under the mutex. */
  predicate Cleared(s: Access, w: Worker) {
    PastCheck(w) ==> (w.job.ref, w.job.subscription) !in s.revoked
  }

  ghost predicate AllCleared(s: Access) {
    forall n :: n in s.workers ==> Cleared(s, s.workers[n])
  }

  /** A claimed job names its row's addressee. */
  predicate JobFits(s: Access, w: Worker) {
    !w.Free? ==>
      && w.job.id in s.world.queue.rows
      && s.world.queue.rows[w.job.id].ref == w.job.ref
      && s.world.queue.rows[w.job.id].subscription == w.job.subscription
  }

  ghost predicate JobsFit(s: Access) {
    forall n :: n in s.workers ==> JobFits(s, s.workers[n])
  }

  ghost predicate Safe(s: Access) {
    Exclusive(s) && RevokedForGood(s) && AllCleared(s) && JobsFit(s) && O.Capped(s.world.queue)
  }

  /** Steps of the consent requests; the others are the workers' and the environment's. */
  predicate OfAsker(step: Step) {
    || step.Wishes? || step.LockForWish? || step.Validated? || step.RevokeLocally? || step.CallPortal?
    || step.EnableLocally? || step.Undo?
  }

  /** Steps of a delivery under the mutex. */
  predicate OfDelivery(step: Step) {
    step.HearIdentity? || step.HearCheck? || step.HearEligibility? || step.Send? || step.SettleJob?
  }

  /** Calls of the consent requests to Core and the Portal. */
  predicate OfCall(step: Step) {
    step.RevokeLocally? || step.CallPortal? || step.EnableLocally? || step.Undo?
  }

  lemma {:induction false} AskerExclusive(s: Access, step: Step)
    requires Exclusive(s) && Enabled(s, step) && OfAsker(step) && !OfCall(step)
    ensures Exclusive(Next(s, step))
  {
    hide Does;
  }

  /** Whoever makes a call holds the mutex, and keeps it or goes back to idle. */
  lemma {:induction false} CallShape(s: Access, step: Step)
    requires Enabled(s, step) && OfCall(step)
    ensures step.n in s.askers && HasLock(s.askers[step.n])
    ensures var after := Next(s, step);
            && step.n in after.askers && after.workers == s.workers
            && after.askers == s.askers[step.n := after.askers[step.n]]
            && after.holder == (if after.askers[step.n].Idle? then None else s.holder)
            && (after.askers[step.n].Idle? || HasLock(after.askers[step.n]))
  {
    hide Does, O.Possible, O.Next, SetRecipient, SettleCalled, RevokeCalled, OptInCalled, ConsentCalled, Arrived;
  }

  lemma {:induction false} CallExclusive(s: Access, step: Step)
    requires Exclusive(s) && Enabled(s, step) && OfCall(step)
    ensures Exclusive(Next(s, step))
  {
    hide Enabled, Next, OfCall;
    CallShape(s, step);
  }

  lemma {:induction false} WorkerExclusive(s: Access, step: Step)
    requires Exclusive(s) && Enabled(s, step) && !OfAsker(step)
    ensures Exclusive(Next(s, step))
  {
    hide Does, O.Possible, O.Next, Allowed, PortalIdValid, SettleCalled, Arrived;
  }

  lemma {:induction false} StepExclusive(s: Access, step: Step)
    requires Exclusive(s) && Enabled(s, step)
    ensures Exclusive(Next(s, step))
  {
    hide Exclusive, Next, Enabled;
    if OfCall(step) {
      CallExclusive(s, step);
    } else if OfAsker(step) {
      AskerExclusive(s, step);
    } else {
      WorkerExclusive(s, step);
    }
  }

  /** No outbox operation makes an ended generation current again. */
  lemma {:induction false} EndedStaysEnded(w: O.World, op: O.Op, now: int, ref: string, subscription: int)
    requires O.Possible(w, op, now) && O.GenerationsKnown(w) && subscription in w.generations
    requires !Current(w.queue.recipients, ref, subscription)
    ensures !Current(O.Next(w, op, now).queue.recipients, ref, subscription)
    ensures subscription in O.Next(w, op, now).generations
  {
    hide ActiveParent, Listed, Bound, Claimable, RetryDelay, CancelAll, Outdated, Generated, Holds, EndsConsent;
  }

  /** What an operation of the outbox does to one reference, and to the world's generations. */
  lemma {:induction false} ActsRevoked(s: Access, op: O.Op, now: int)
    requires RevokedForGood(s) && O.Possible(s.world, op, now)
    ensures RevokedForGood(Acts(s, op, now))
  {
    hide O.Possible, O.Next, O.GenerationsKnown, Current;
    O.StepKnows(s.world, op, now);
    forall g | g in s.revoked + s.endedLate
      ensures !Current(O.Next(s.world, op, now).queue.recipients, g.0, g.1)
              && g.1 in O.Next(s.world, op, now).generations
    {
      EndedStaysEnded(s.world, op, now, g.0, g.1);
    }
  }

  lemma {:induction false} RevokeEnds(s: Access, ref: string, now: int)
    requires RevokedForGood(s) && s.world.now <= now
    ensures RevokedForGood(RevokedNow(s, ref, now)) && RevokedForGood(RevokedLate(s, ref, now))
  {
    hide O.GenerationsKnown;
    ActsRevoked(s, O.Revoke(ref), now);
    KnownOf(s.world, ref);
    hide PendingOf, CancelAll;
  }

  lemma {:induction false} KnownOf(w: O.World, ref: string)
    requires O.GenerationsKnown(w)
    ensures forall g :: g in CurrentOf(w.queue, ref) ==> g.1 in w.generations
  {
  }

  lemma {:induction false} LateRevoked(s: Access, e: Effect, entitled: bool, people: seq<Person>, now: int)
    requires RevokedForGood(s) && Enabled(s, Late(e, entitled, people, now))
    ensures RevokedForGood(Arrived(s, e, entitled, people, now))
  {
    var rest := s.(late := s.late - multiset{e});
    SameRevoked(s, rest);
    hide RevokedForGood, Acts, O.Possible, O.Next, Does;
    match e {
      case LateRevoke(ref) => RevokeEnds(rest, ref, now);
      case LateOptIn(ref, recipient) =>
        IsPossible(s, e, entitled, people, now);
        ActsRevoked(rest, O.OptIn(ref, recipient, entitled, people), now);
      case LateConsent(ref, enable) => SameRevoked(rest, Said(rest, ref, enable));
      case LateSettle(id, token, result, code) =>
        SettlePossible(s.world, id, token, result, code, now);
        ActsRevoked(rest, O.Settle(id, token, result, code), now);
    }
  }

  lemma {:induction false} IsPossible(s: Access, e: Effect, entitled: bool, people: seq<Person>, now: int)
    requires Enabled(s, Late(e, entitled, people, now)) && e.LateOptIn?
    ensures O.Possible(s.world, O.OptIn(e.ref, e.recipient, entitled, people), now)
  {
  }

  /** A call ends no consent but that it is carried out. */
  lemma {:induction false} CallRevoked(s: Access, step: Step)
    requires RevokedForGood(s) && Enabled(s, step) && (OfCall(step) || step.SettleJob?)
    ensures RevokedForGood(Next(s, step))
  {
    hide O.Possible, O.Next, RevokedForGood, Acts, SetRecipient, Said, RevokedNow;
    if step.SettleJob? {
      var w := s.workers[step.n];
      SettlePossible(s.world, w.job.id, w.job.token, w.result, w.code, step.now);
      ActsRevoked(s, O.Settle(w.job.id, w.job.token, w.result, w.code), step.now);
      UnlessCarried(s, SettleCalled(s, w, step.fate, step.now), step.fate);
      SameRevoked(SettleCalled(s, w, step.fate, step.now), Next(s, step));
    } else if step.RevokeLocally? {
      var ref := s.askers[step.n].wish.ref;
      RevokeEnds(s, ref, step.now);
      UnlessCarried(s, RevokeCalled(s, ref, step.fate, step.now), step.fate);
      SameRevoked(RevokeCalled(s, ref, step.fate, step.now), Next(s, step));
    } else if step.EnableLocally? {
      var wish := s.askers[step.n].wish;
      if Carried(step.fate) {
        ActsRevoked(s, O.OptIn(wish.ref, wish.recipient, step.entitled, step.people), step.now);
      }
      var after := OptInCalled(s, wish.ref, wish.recipient, step.fate, step.entitled, step.people, step.now);
      UnlessCarried(s, after, step.fate);
      SameRevoked(after, Next(s, step));
    } else {
      SameRevoked(s, Next(s, step));
    }
  }

  lemma {:induction false} UnlessCarried(s: Access, after: Access, fate: Fate)
    requires RevokedForGood(s)
    requires Carried(fate) ==> RevokedForGood(after)
    requires !Carried(fate) ==> after == s || after == s.(late := after.late)
    ensures RevokedForGood(after)
  {
  }

  /** Steps that touch neither the outbox nor the Portal's consent. */
  predicate Quiet(step: Step) {
    !OfCall(step) && !step.SettleJob? && !step.ClaimJob? && !step.Late? && !step.Environment?
  }

  lemma {:induction false} QuietStep(s: Access, step: Step)
    requires Enabled(s, step) && Quiet(step)
    ensures var after := Next(s, step);
            && after.revoked == s.revoked && after.endedLate == s.endedLate
            && after.world == s.world.(now := after.world.now)
  {
    hide O.Possible, O.Next, Allowed, AfterIdentity, AfterCheck, AfterEligibility, AfterSend;
    hide SettleCalled, RevokeCalled, OptInCalled, ConsentCalled, Arrived;
  }

  lemma {:induction false} StepRevoked(s: Access, step: Step)
    requires RevokedForGood(s) && Enabled(s, step)
    ensures RevokedForGood(Next(s, step))
  {
    hide RevokedForGood, O.Possible, O.Next, SettleCalled, RevokeCalled, OptInCalled, ConsentCalled, Arrived;
    if OfCall(step) || step.SettleJob? {
      hide Next, Enabled;
      CallRevoked(s, step);
    } else if Quiet(step) {
      hide Next, Enabled;
      QuietStep(s, step);
      SameRevoked(s, Next(s, step));
    } else if step.ClaimJob? {
      ActsRevoked(s, O.Claim(step.id, step.token), step.now);
      SameRevoked(Acts(s, O.Claim(step.id, step.token), step.now), Next(s, step));
    } else if step.Late? {
      LateRevoked(s, step.effect, step.entitled, step.people, step.now);
    } else {
      ActsRevoked(s, step.op, step.now);
    }
  }

  lemma {:induction false} SettlePossible(w: O.World, id: int, token: int, result: Result, code: Code, now: int)
    requires w.now <= now
    ensures O.Possible(w, O.Settle(id, token, result, code), now)
  {
  }

  lemma {:induction false} RevokePossible(w: O.World, ref: string, now: int)
    requires w.now <= now
    ensures O.Possible(w, O.Revoke(ref), now)
  {
  }

  lemma {:induction false} SameRevoked(s: Access, after: Access)
    requires RevokedForGood(s) && after.revoked == s.revoked && after.endedLate == s.endedLate
    requires after.world.queue == s.world.queue && after.world.generations == s.world.generations
    ensures RevokedForGood(after)
  {
  }

  // ---------------------------------------------------------------- consent against dispatch

  /** Steps of those who hold the mutex happen only while they hold it. */
  lemma {:induction false} ActorHolds(s: Access, step: Step)
    requires Exclusive(s) && Enabled(s, step)
    ensures OfDelivery(step) ==> s.holder == Some(WorkerNo(step.n))
    ensures OfAsker(step) && !step.Wishes? && !step.LockForWish? ==> s.holder == Some(AskerNo(step.n))
  {
    hide Does;
  }

  /** A worker changes by its own steps alone. */
  lemma {:induction false} WorkersOwn(s: Access, step: Step, m: int)
    requires Enabled(s, step) && m in s.workers
    ensures Next(s, step).workers.Keys == s.workers.Keys
    ensures Next(s, step).workers[m] != s.workers[m] ==>
              (OfDelivery(step) || step.ClaimJob? || step.LockForJob?) && step.n == m
  {
    hide O.Possible, O.Next, AfterIdentity, AfterCheck, AfterEligibility, AfterSend, Allowed, SetRecipient;
  }

  /** Only a check lets a worker go on, and only for a generation that is current in the table. */
  lemma {:induction false} OnlyCheckClears(s: Access, step: Step, m: int)
    requires JobsFit(s) && Enabled(s, step) && m in s.workers && m in Next(s, step).workers
    requires PastCheck(Next(s, step).workers[m]) && !PastCheck(s.workers[m])
    ensures step.HearCheck? && step.n == m
    ensures var job := Next(s, step).workers[m].job;
            Current(Next(s, step).world.queue.recipients, job.ref, job.subscription)
  {
    hide O.Possible, O.Next, ActiveParent;
    assert JobFits(s, s.workers[m]);
  }

  /** While a worker is past the check, its job stays what it is. */
  lemma {:induction false} JobStays(s: Access, step: Step, m: int)
    requires Enabled(s, step) && m in s.workers && m in Next(s, step).workers
    requires PastCheck(s.workers[m]) && PastCheck(Next(s, step).workers[m])
    ensures Next(s, step).workers[m].job == s.workers[m].job
    ensures s.workers[m].stage.Sending? ==> Next(s, step).workers[m] == s.workers[m]
  {
    hide O.Possible, O.Next, Allowed, SetRecipient;
  }

  /** The generations ended under the mutex grow only by a consent request that holds it. */
  lemma {:induction false} RevokedOnlyBy(s: Access, step: Step)
    requires Enabled(s, step)
    ensures s.revoked <= Next(s, step).revoked && s.endedLate <= Next(s, step).endedLate
    ensures !step.RevokeLocally? ==> Next(s, step).revoked == s.revoked
  {
    hide O.Possible, O.Next, Allowed, SetRecipient;
  }

  lemma {:induction false} StepCleared(s: Access, step: Step)
    requires Exclusive(s) && RevokedForGood(s) && JobsFit(s) && AllCleared(s) && Enabled(s, step)
    ensures AllCleared(Next(s, step))
  {
    hide Enabled, Next, JobsFit, OfDelivery, Current, O.GenerationsKnown;
    var after := Next(s, step);
    RevokedOnlyBy(s, step);
    ActorHolds(s, step);
    StepRevoked(s, step);
    forall m | m in after.workers ensures Cleared(after, after.workers[m]) {
      WorkersKept(s, step);
      WorkersOwn(s, step, m);
      if PastCheck(after.workers[m]) {
        if PastCheck(s.workers[m]) {
          JobStays(s, step, m);
          assert Cleared(s, s.workers[m]);
        } else {
          OnlyCheckClears(s, step, m);
        }
      }
    }
  }

  lemma {:induction false} WorkersKept(s: Access, step: Step)
    requires Enabled(s, step)
    ensures Next(s, step).workers.Keys == s.workers.Keys
  {
    hide O.Possible, O.Next, AfterIdentity, AfterCheck, AfterEligibility, AfterSend, Allowed, SetRecipient;
  }

  /** The rows after any step are those before it, each at most moved on. */
  lemma {:induction false} StepRows(s: Access, step: Step)
    requires Enabled(s, step) && O.Capped(s.world.queue)
    ensures O.RowsStep(s.world.queue.rows, Next(s, step).world.queue.rows) && O.Capped(Next(s, step).world.queue)
  {
    hide O.Next, O.Possible, O.Capped, O.RowsStep, Allowed, SetRecipient;
    SameRows(s.world.queue);
    match step {
      case ClaimJob(n, id, token, now) => O.StepKeepsRows(s.world, O.Claim(id, token), now);
      case SettleJob(n, fate, now) =>
        var w := s.workers[n];
        if Carried(fate) {
          SettlePossible(s.world, w.job.id, w.job.token, w.result, w.code, now);
          O.StepKeepsRows(s.world, O.Settle(w.job.id, w.job.token, w.result, w.code), now);
        }
      case RevokeLocally(n, fate, now) =>
        if Carried(fate) {
          RevokePossible(s.world, s.askers[n].wish.ref, now);
          O.StepKeepsRows(s.world, O.Revoke(s.askers[n].wish.ref), now);
        }
      case EnableLocally(n, fate, entitled, people, now) =>
        if Carried(fate) {
          O.StepKeepsRows(s.world, O.OptIn(s.askers[n].wish.ref, s.askers[n].wish.recipient, entitled, people), now);
        }
      case Late(effect, entitled, people, now) => LateRows(s, effect, entitled, people, now);
      case Environment(op, now) => O.StepKeepsRows(s.world, op, now);
      case _ =>
    }
  }

  lemma {:induction false} LateRows(s: Access, e: Effect, entitled: bool, people: seq<Person>, now: int)
    requires Enabled(s, Late(e, entitled, people, now)) && O.Capped(s.world.queue)
    ensures var after := Arrived(s, e, entitled, people, now);
            O.RowsStep(s.world.queue.rows, after.world.queue.rows) && O.Capped(after.world.queue)
  {
    hide O.Next, O.Possible, O.Capped, O.RowsStep;
    SameRows(s.world.queue);
    match e {
      case LateRevoke(ref) =>
        RevokePossible(s.world, ref, now);
        O.StepKeepsRows(s.world, O.Revoke(ref), now);
      case LateOptIn(ref, recipient) => O.StepKeepsRows(s.world, O.OptIn(ref, recipient, entitled, people), now);
      case LateSettle(id, token, result, code) =>
        SettlePossible(s.world, id, token, result, code, now);
        O.StepKeepsRows(s.world, O.Settle(id, token, result, code), now);
      case _ =>
    }
  }

  lemma {:induction false} SameRows(q: Queue)
    ensures O.RowsStep(q.rows, q.rows)
  {
  }

  lemma {:induction false} StepJobs(s: Access, step: Step)
    requires JobsFit(s) && Enabled(s, step) && O.Capped(s.world.queue)
    ensures JobsFit(Next(s, step))
  {
    hide O.Possible, O.Capped, Next, Enabled;
    StepRows(s, step);
    WorkersKept(s, step);
    var after := Next(s, step);
    forall m | m in after.workers ensures JobFits(after, after.workers[m]) {
      assert JobFits(s, s.workers[m]);
      if step.ClaimJob? && m == step.n {
        ClaimedJob(s, step);
      } else {
        JobKept(s, step, m);
      }
    }
  }

  lemma {:induction false} JobKept(s: Access, step: Step, m: int)
    requires Enabled(s, step) && m in s.workers && m in Next(s, step).workers && !(step.ClaimJob? && step.n == m)
    ensures !Next(s, step).workers[m].Free? ==>
              !s.workers[m].Free? && Next(s, step).workers[m].job == s.workers[m].job
  {
    hide O.Possible, O.Next, Allowed, SetRecipient, PortalIdValid;
  }

  lemma {:induction false} ClaimedJob(s: Access, step: Step)
    requires Enabled(s, step) && step.ClaimJob?
    ensures JobFits(Next(s, step), Next(s, step).workers[step.n])
  {
  }

  lemma {:induction false} StepSafe(s: Access, step: Step)
    requires Safe(s) && Enabled(s, step)
    ensures Safe(Next(s, step))
  {
    hide Exclusive, RevokedForGood, AllCleared, JobsFit, O.Capped, Enabled, Next;
    StepExclusive(s, step);
    StepRevoked(s, step);
    StepCleared(s, step);
    StepJobs(s, step);
    StepRows(s, step);
  }

  ghost predicate Trace(states: seq<Access>, steps: seq<Step>) {
    |states| == |steps| + 1 && forall i :: 0 <= i < |steps| ==>
      Enabled(states[i], steps[i]) && states[i + 1] == Next(states[i], steps[i])
  }

  lemma {:induction false} AlwaysSafe(states: seq<Access>, steps: seq<Step>, i: nat)
    requires Trace(states, steps) && Safe(states[0]) && i < |states|
    ensures Safe(states[i])
  {
    hide Safe, Enabled, Next;
    if i > 0 {
      AlwaysSafe(states, steps, i - 1);
      StepSafe(states[i - 1], steps[i - 1]);
    }
  }

  /** A process that has just started, over any outbox and whatever an earlier one has left in flight. */
  ghost predicate Fresh(s: Access) {
    && O.GenerationsKnown(s.world) && O.Capped(s.world.queue) && s.holder.None?
    && (forall n :: n in s.workers ==> s.workers[n].Free?)
    && (forall n :: n in s.askers ==> s.askers[n].Idle?)
    && s.revoked == {} && s.endedLate == {} && s.portalOff == {}
  }

  lemma {:induction false} FreshIsSafe(s: Access)
    requires Fresh(s)
    ensures Safe(s)
  {
    assert RevokedForGood(s);
  }

  /** From state m to state i a worker has been past the check of this job, and sending too if so asked. */
  predicate Throughout(states: seq<Access>, n: int, job: Job, m: nat, i: nat, sending: bool) {
    m <= i < |states| && forall j :: m <= j <= i ==>
      && n in states[j].workers && PastCheck(states[j].workers[n]) && states[j].workers[n].job == job
      && (sending ==> states[j].workers[n].stage.Sending?)
  }

  /** What can end consent in the table behind a worker's back: a restore, or a request carried out late. */
  predicate Cuts(s: Access, step: Step, ref: string) {
    || (step.Environment? && step.op.Restore?)
    || (step.Late? && (step.effect.LateRevoke? || step.effect.LateOptIn?) && step.effect.ref == ref)
    || (step.Late? && step.effect.LateSettle? && step.effect.id in s.world.queue.rows
        && s.world.queue.rows[step.effect.id].ref == ref)
  }

  /** Operations touch the consent of the reference they are about and of no other. */
  lemma {:induction false} OthersConsent(w: O.World, op: O.Op, now: int, ref: string)
    requires O.Possible(w, op, now) && !op.Restore?
    requires op.OptIn? || op.OptOut? || op.Revoke? ==> op.ref != ref
    requires op.Settle? && op.id in w.queue.rows ==> w.queue.rows[op.id].ref != ref
    ensures ref in O.Next(w, op, now).queue.recipients <==> ref in w.queue.recipients
    ensures ref in w.queue.recipients ==> O.Next(w, op, now).queue.recipients[ref] == w.queue.recipients[ref]
  {
    hide ActiveParent, Listed, Bound, Claimable, RetryDelay, CancelAll, Outdated, Generated, EndsConsent;
  }

  lemma {:induction false} LateOthers(s: Access, step: Step, ref: string)
    requires Enabled(s, step) && step.Late? && !Cuts(s, step, ref)
    ensures ref in Next(s, step).world.queue.recipients <==> ref in s.world.queue.recipients
    ensures ref in s.world.queue.recipients ==>
              Next(s, step).world.queue.recipients[ref] == s.world.queue.recipients[ref]
  {
    hide O.Next, O.Possible;
    match step.effect {
      case LateRevoke(other) =>
        RevokePossible(s.world, other, step.now);
        OthersConsent(s.world, O.Revoke(other), step.now, ref);
      case LateOptIn(other, recipient) =>
        OthersConsent(s.world, O.OptIn(other, recipient, step.entitled, step.people), step.now, ref);
      case LateSettle(id, token, result, code) =>
        SettlePossible(s.world, id, token, result, code, step.now);
        OthersConsent(s.world, O.Settle(id, token, result, code), step.now, ref);
      case _ =>
    }
  }

  /** While a worker holds the mutex past its check, nothing else changes the consent it works for. */
  lemma {:induction false} ConsentStays(s: Access, step: Step, m: int)
    requires Exclusive(s) && Enabled(s, step) && m in s.workers && PastCheck(s.workers[m])
    requires m in Next(s, step).workers && PastCheck(Next(s, step).workers[m])
    requires !Cuts(s, step, s.workers[m].job.ref)
    requires Current(s.world.queue.recipients, s.workers[m].job.ref, s.workers[m].job.subscription)
    ensures Current(Next(s, step).world.queue.recipients, s.workers[m].job.ref, s.workers[m].job.subscription)
  {
    hide O.Possible, O.Next, Exclusive, Allowed, SetRecipient;
    ActorHolds(s, step);
    MineAlone(s, step, m);
    var ref := s.workers[m].job.ref;
    match step {
      case ClaimJob(_, id, token, now) => OthersConsent(s.world, O.Claim(id, token), now, ref);
      case Environment(op, now) => OthersConsent(s.world, op, now, ref);
      case Late(_, _, _, _) => LateOthers(s, step, ref);
      case _ =>
    }
  }

  /** The holder is the only one at work. */
  lemma {:induction false} MineAlone(s: Access, step: Step, m: int)
    requires Exclusive(s) && Enabled(s, step) && m in s.workers && s.workers[m].Inside?
    ensures OfDelivery(step) ==> step.n == m
    ensures !OfAsker(step) || step.Wishes?
  {
    hide Does;
  }

  predicate CurrentFor(s: Access, job: Job) {
    Current(s.world.queue.recipients, job.ref, job.subscription)
  }

  /** Step m cut off the consent of a job that was past its check from then on. */
  predicate CutOff(states: seq<Access>, steps: seq<Step>, n: int, job: Job, m: nat, i: nat)
    requires |states| == |steps| + 1
  {
    && m < i && Throughout(states, n, job, m, i, false) && Cuts(states[m], steps[m], job.ref)
    && CurrentFor(states[m], job) && !CurrentFor(states[m + 1], job)
  }

  /** A worker past the check works for a current generation, unless that was cut off since. */
  lemma {:induction false} CurrentUnlessCut(states: seq<Access>, steps: seq<Step>, i: nat, n: int)
    requires Trace(states, steps) && Fresh(states[0]) && i < |states|
    requires n in states[i].workers && PastCheck(states[i].workers[n])
    ensures var job := states[i].workers[n].job;
            CurrentFor(states[i], job) || exists m: nat :: CutOff(states, steps, n, job, m, i)
  {
    hide Enabled, Next, Safe, Current, Cuts, O.GenerationsKnown, O.Capped;
    FreshIsSafe(states[0]);
    if i > 0 {
      var s, step, job := states[i - 1], steps[i - 1], states[i].workers[n].job;
      AlwaysSafe(states, steps, i - 1);
      SafeParts(s);
      WorkersKept(s, step);
      if PastCheck(s.workers[n]) {
        JobStays(s, step, n);
        CurrentUnlessCut(states, steps, i - 1, n);
        if !CurrentFor(s, job) {
          var m: nat :| CutOff(states, steps, n, job, m, i - 1);
          assert Throughout(states, n, job, m, i, false);
          assert CutOff(states, steps, n, job, m, i);
        } else if Cuts(s, step, job.ref) {
          assert Throughout(states, n, job, i - 1, i, false);
          assert !CurrentFor(states[i], job) ==> CutOff(states, steps, n, job, i - 1, i);
        } else {
          ConsentStays(s, step, n);
        }
      } else {
        OnlyCheckClears(s, step, n);
      }
    }
  }

  /** A known generation that is not current is not so after any step either. */
  lemma {:induction false} StepEnded(s: Access, step: Step, job: Job)
    requires Enabled(s, step) && O.GenerationsKnown(s.world)
    requires job.subscription in s.world.generations && !CurrentFor(s, job)
    ensures !CurrentFor(Next(s, step), job) && job.subscription in Next(s, step).world.generations
  {
    hide O.Possible, O.Next, O.GenerationsKnown, Allowed, SetRecipient, Current, ConsentCalled;
    match step {
      case ClaimJob(_, id, token, now) => OpEnded(s, O.Claim(id, token), now, job);
      case SettleJob(n, _, now) =>
        var w := s.workers[n];
        SettlePossible(s.world, w.job.id, w.job.token, w.result, w.code, now);
        OpEnded(s, O.Settle(w.job.id, w.job.token, w.result, w.code), now, job);
      case RevokeLocally(n, _, now) =>
        RevokePossible(s.world, s.askers[n].wish.ref, now);
        OpEnded(s, O.Revoke(s.askers[n].wish.ref), now, job);
      case EnableLocally(n, fate, entitled, people, now) =>
        if Carried(fate) {
          OpEnded(s, O.OptIn(s.askers[n].wish.ref, s.askers[n].wish.recipient, entitled, people), now, job);
        }
      case Late(_, _, _, _) => LateEnded(s, step, job);
      case Environment(op, now) => OpEnded(s, op, now, job);
      case _ =>
    }
  }

  lemma {:induction false} OpEnded(s: Access, op: O.Op, now: int, job: Job)
    requires O.Possible(s.world, op, now) && O.GenerationsKnown(s.world)
    requires job.subscription in s.world.generations && !CurrentFor(s, job)
    ensures !CurrentFor(Acts(s, op, now), job) && job.subscription in Acts(s, op, now).world.generations
  {
    hide O.Possible, O.Next, O.GenerationsKnown, Current;
    EndedStaysEnded(s.world, op, now, job.ref, job.subscription);
  }

  lemma {:induction false} LateEnded(s: Access, step: Step, job: Job)
    requires Enabled(s, step) && step.Late? && O.GenerationsKnown(s.world)
    requires job.subscription in s.world.generations && !CurrentFor(s, job)
    ensures !CurrentFor(Next(s, step), job) && job.subscription in Next(s, step).world.generations
  {
    hide O.Possible, O.Next, O.GenerationsKnown, Current, SettleCalled, RevokeCalled, OptInCalled, ConsentCalled;
    var now := step.now;
    match step.effect {
      case LateRevoke(other) =>
        RevokePossible(s.world, other, now);
        OpEnded(s, O.Revoke(other), now, job);
      case LateOptIn(other, recipient) =>
        OpEnded(s, O.OptIn(other, recipient, step.entitled, step.people), now, job);
      case LateSettle(id, token, result, code) =>
        SettlePossible(s.world, id, token, result, code, now);
        OpEnded(s, O.Settle(id, token, result, code), now, job);
      case _ =>
    }
  }

  lemma {:induction false} JobKnown(s: Access, n: int)
    requires Safe(s) && n in s.workers && !s.workers[n].Free?
    ensures O.GenerationsKnown(s.world) && s.workers[n].job.subscription in s.world.generations
  {
    assert JobFits(s, s.workers[n]);
  }

  /** A consent that was cut off stays so until the delivery ends. */
  lemma {:induction false} CutForGood(states: seq<Access>, steps: seq<Step>, n: int, job: Job, m: nat, i: nat)
    requires Trace(states, steps) && Safe(states[0]) && CutOff(states, steps, n, job, m, i)
    ensures !CurrentFor(states[i], job)
    decreases i
  {
    hide Enabled, Next, Safe, Cuts, CurrentFor, O.GenerationsKnown;
    if m + 1 < i {
      assert Throughout(states, n, job, m, i - 1, false);
      CutForGood(states, steps, n, job, m, i - 1);
      AlwaysSafe(states, steps, i - 1);
      JobKnown(states[i - 1], n);
      StepEnded(states[i - 1], steps[i - 1], job);
    }
  }

  lemma {:induction false} SafeParts(s: Access)
    requires Safe(s)
    ensures Exclusive(s) && RevokedForGood(s) && AllCleared(s) && JobsFit(s)
  {
  }

  /** A step that puts a reference off at the Portal, and one that puts it on. */
  predicate PutsOff(s: Access, step: Step, ref: string) {
    || (step.CallPortal? && step.n in s.askers && s.askers[step.n].CallingPortal? && Carried(step.fate)
        && s.askers[step.n].wish.ref == ref && !s.askers[step.n].wish.enable)
    || (step.Undo? && step.n in s.askers && s.askers[step.n].Undoing? && Carried(step.fate)
        && s.askers[step.n].wish.ref == ref)
    || (step.Late? && step.effect == LateConsent(ref, false))
  }

  predicate PutsOn(s: Access, step: Step, ref: string) {
    || (step.CallPortal? && step.n in s.askers && s.askers[step.n].CallingPortal? && Carried(step.fate)
        && s.askers[step.n].wish.ref == ref && s.askers[step.n].wish.enable)
    || (step.Late? && step.effect == LateConsent(ref, true))
  }

  lemma {:induction false} PortalSays(s: Access, step: Step, ref: string)
    requires Enabled(s, step)
    ensures PutsOff(s, step, ref) ==> ref in Next(s, step).portalOff
    ensures PutsOn(s, step, ref) ==> ref !in Next(s, step).portalOff
    ensures !PutsOff(s, step, ref) && !PutsOn(s, step, ref) ==>
              (ref in Next(s, step).portalOff <==> ref in s.portalOff)
  {
    if step.CallPortal? || step.Undo? {
      CallSays(s, step, ref);
    } else if step.Late? {
      LateSays(s, step, ref);
    } else {
      PortalStays(s, step);
    }
    hide Next, Enabled;
  }

  lemma {:induction false} CallSays(s: Access, step: Step, ref: string)
    requires Enabled(s, step) && (step.CallPortal? || step.Undo?)
    ensures PutsOff(s, step, ref) ==> ref in Next(s, step).portalOff
    ensures PutsOn(s, step, ref) ==> ref !in Next(s, step).portalOff
    ensures !PutsOff(s, step, ref) && !PutsOn(s, step, ref) ==>
              (ref in Next(s, step).portalOff <==> ref in s.portalOff)
  {
    hide SettleCalled, RevokeCalled, OptInCalled, Arrived;
  }

  lemma {:induction false} LateSays(s: Access, step: Step, ref: string)
    requires Enabled(s, step) && step.Late?
    ensures PutsOff(s, step, ref) ==> ref in Next(s, step).portalOff
    ensures PutsOn(s, step, ref) ==> ref !in Next(s, step).portalOff
    ensures !PutsOff(s, step, ref) && !PutsOn(s, step, ref) ==>
              (ref in Next(s, step).portalOff <==> ref in s.portalOff)
  {
    hide SettleCalled, RevokeCalled, OptInCalled, ConsentCalled, O.Possible, O.Next;
  }

  lemma {:induction false} PortalStays(s: Access, step: Step)
    requires Enabled(s, step) && !step.CallPortal? && !step.Undo? && !step.Late?
    ensures Next(s, step).portalOff == s.portalOff
  {
    hide O.Possible, O.Next, Allowed, SetRecipient, AfterIdentity, AfterCheck, AfterEligibility, AfterSend;
    hide SettleCalled, RevokeCalled, OptInCalled, ConsentCalled, Arrived;
  }

  /** A worker comes to send only on the Portal's word that the reference is eligible. */
  lemma {:induction false} OnlyEligibilitySends(s: Access, step: Step, m: int)
    requires Enabled(s, step) && m in s.workers && m in Next(s, step).workers
    requires IsWorker(Next(s, step), m, Sending) && !IsWorker(s, m, Sending)
    ensures step.HearEligibility? && step.n == m && Next(s, step).workers[m].job.ref !in Next(s, step).portalOff
    ensures PastCheck(s.workers[m])
  {
    hide O.Possible, O.Next, Allowed, SetRecipient;
  }

  /** Step m opted a reference out late while a worker was about to send to it, and nobody opted it in since. */
  predicate PutOffLate(states: seq<Access>, steps: seq<Step>, n: int, job: Job, m: nat, i: nat)
    requires |states| == |steps| + 1
  {
    && m < i && Throughout(states, n, job, m, i, true)
    && steps[m].Late? && steps[m].effect == LateConsent(job.ref, false)
    && forall j :: m < j < i ==> !PutsOn(states[j], steps[j], job.ref)
  }

  /** A worker about to send has the Portal's consent, unless a call carried out late took it back since. */
  lemma {:induction false} OnUnlessCut(states: seq<Access>, steps: seq<Step>, i: nat, n: int)
    requires Trace(states, steps) && Fresh(states[0]) && i < |states| && IsWorker(states[i], n, Sending)
    ensures var job := states[i].workers[n].job;
            job.ref !in states[i].portalOff || exists m: nat :: PutOffLate(states, steps, n, job, m, i)
  {
    hide Enabled, Next, Safe, O.GenerationsKnown, O.Capped, PutsOn;
    FreshIsSafe(states[0]);
    if i > 0 {
      var s, step, job := states[i - 1], steps[i - 1], states[i].workers[n].job;
      AlwaysSafe(states, steps, i - 1);
      SafeParts(s);
      WorkersKept(s, step);
      PortalSays(s, step, job.ref);
      if !IsWorker(s, n, Sending) {
        OnlyEligibilitySends(s, step, n);
      } else if job.ref in states[i].portalOff {
        JobStays(s, step, n);
        OnUnlessCut(states, steps, i - 1, n);
        if PutsOff(s, step, job.ref) {
          MineAlone(s, step, n);
          assert Throughout(states, n, job, i - 1, i, true);
          assert PutOffLate(states, steps, n, job, i - 1, i);
        } else {
          var m: nat :| PutOffLate(states, steps, n, job, m, i - 1);
          assert Throughout(states, n, job, m, i, true);
          assert PutOffLate(states, steps, n, job, m, i);
        }
      }
    }
  }

  /**
   In every interleaving, a send to the Portal is asked for under the mutex, for a generation that no consent
   request has ended under the mutex. The consent table does not hold that generation any more if and only if
   since its check a restore, or a request that its caller had given up, cut it off; and the last word at the
   Portal is no if and only if since the Portal's answer such a request has opted out there.
   */
  lemma {:induction false} SendsOnlyWithConsent(states: seq<Access>, steps: seq<Step>, i: nat)
    requires Trace(states, steps) && Fresh(states[0]) && i < |steps| && steps[i].Send?
    ensures var (s, n, job) := (states[i], steps[i].n, states[i].workers[steps[i].n].job);
            && s.holder == Some(WorkerNo(n))
            && (job.ref, job.subscription) !in s.revoked
            && (!CurrentFor(s, job) <==> exists m: nat :: CutOff(states, steps, n, job, m, i))
            && (job.ref in s.portalOff <==> exists m: nat :: PutOffLate(states, steps, n, job, m, i))
  {
    hide RevokedForGood, JobsFit, O.Capped, Next, CurrentFor, O.GenerationsKnown, CutOff, PutOffLate;
    FreshIsSafe(states[0]);
    AlwaysSafe(states, steps, i);
    var s, n, job := states[i], steps[i].n, states[i].workers[steps[i].n].job;
    assert Cleared(s, s.workers[n]);
    CurrentUnlessCut(states, steps, i, n);
    OnUnlessCut(states, steps, i, n);
    forall m: nat | CutOff(states, steps, n, job, m, i) ensures !CurrentFor(s, job) {
      CutForGood(states, steps, n, job, m, i);
    }
    forall m: nat | PutOffLate(states, steps, n, job, m, i) ensures job.ref in s.portalOff {
      LateIsOff(states, steps, n, job, m, i);
    }
  }

  lemma {:induction false} LateIsOff(states: seq<Access>, steps: seq<Step>, n: int, job: Job, m: nat, i: nat)
    requires Trace(states, steps) && PutOffLate(states, steps, n, job, m, i)
    ensures job.ref in states[i].portalOff
  {
    hide Enabled, Next, PutsOn;
    OffUntilOn(states, steps, m, i, job.ref);
  }

  /** A generation once ended by a consent request, in time or late, is ended in every later state. */
  lemma {:induction false} EndedForGood(states: seq<Access>, steps: seq<Step>, i: nat, j: nat, g: (string, int))
    requires Trace(states, steps) && Safe(states[0]) && i <= j < |states|
    requires g in states[i].revoked + states[i].endedLate
    ensures g in states[j].revoked + states[j].endedLate && !Current(states[j].world.queue.recipients, g.0, g.1)
    decreases j
  {
    hide Exclusive, AllCleared, JobsFit, O.Capped, Enabled, Next, Current;
    AlwaysSafe(states, steps, j);
    if i < j {
      EndedForGood(states, steps, i, j - 1, g);
      RevokedOnlyBy(states[j - 1], steps[j - 1]);
    }
  }

  // ---------------------------------------------------------------- what an opt-out gets

  /** A step that ends consent in the table by a revocation, in time or late, and one that opts in there. */
  predicate EndsInTable(s: Access, step: Step, ref: string) {
    || (step.RevokeLocally? && step.n in s.askers && s.askers[step.n].Revoking? && Carried(step.fate)
        && s.askers[step.n].wish.ref == ref)
    || (step.Late? && step.effect == LateRevoke(ref))
  }

  predicate OptsIn(s: Access, step: Step, ref: string) {
    || (step.EnableLocally? && step.n in s.askers && s.askers[step.n].Enabling? && Carried(step.fate)
        && s.askers[step.n].wish.ref == ref)
    || (step.Late? && step.effect.LateOptIn? && step.effect.ref == ref)
  }

  predicate Shut(q: Queue, ref: string) {
    ref in q.recipients ==> !q.recipients[ref].enabled
  }

  lemma {:induction false} OpShut(w: O.World, op: O.Op, now: int, ref: string)
    requires O.Possible(w, op, now)
    ensures Shut(w.queue, ref) && !(op.OptIn? && op.ref == ref) ==> Shut(O.Next(w, op, now).queue, ref)
    ensures op == O.Revoke(ref) ==> Shut(O.Next(w, op, now).queue, ref)
  {
    hide ActiveParent, Listed, Bound, Claimable, RetryDelay, CancelAll, Outdated, Generated, EndsConsent;
  }

  lemma {:induction false} TableSays(s: Access, step: Step, ref: string)
    requires Enabled(s, step)
    ensures EndsInTable(s, step, ref) ==> Shut(Next(s, step).world.queue, ref)
    ensures Shut(s.world.queue, ref) && !OptsIn(s, step, ref) ==> Shut(Next(s, step).world.queue, ref)
  {
    hide O.Possible, O.Next, Allowed, SetRecipient, Shut, ConsentCalled;
    match step {
      case ClaimJob(_, id, token, now) => OpShut(s.world, O.Claim(id, token), now, ref);
      case SettleJob(n, _, now) =>
        var w := s.workers[n];
        SettlePossible(s.world, w.job.id, w.job.token, w.result, w.code, now);
        OpShut(s.world, O.Settle(w.job.id, w.job.token, w.result, w.code), now, ref);
      case RevokeLocally(n, _, now) =>
        RevokePossible(s.world, s.askers[n].wish.ref, now);
        OpShut(s.world, O.Revoke(s.askers[n].wish.ref), now, ref);
      case EnableLocally(n, fate, entitled, people, now) =>
        if Carried(fate) {
          OpShut(s.world, O.OptIn(s.askers[n].wish.ref, s.askers[n].wish.recipient, entitled, people), now, ref);
        }
      case Late(_, _, _, _) => LateShuts(s, step, ref);
      case Environment(op, now) => OpShut(s.world, op, now, ref);
      case _ =>
    }
  }

  lemma {:induction false} LateShuts(s: Access, step: Step, ref: string)
    requires Enabled(s, step) && step.Late?
    ensures EndsInTable(s, step, ref) ==> Shut(Next(s, step).world.queue, ref)
    ensures Shut(s.world.queue, ref) && !OptsIn(s, step, ref) ==> Shut(Next(s, step).world.queue, ref)
  {
    hide O.Possible, O.Next, Shut, SettleCalled, RevokeCalled, OptInCalled, ConsentCalled;
    var now := step.now;
    match step.effect {
      case LateRevoke(other) =>
        RevokePossible(s.world, other, now);
        OpShut(s.world, O.Revoke(other), now, ref);
      case LateOptIn(other, recipient) =>
        OpShut(s.world, O.OptIn(other, recipient, step.entitled, step.people), now, ref);
      case LateSettle(id, token, result, code) =>
        SettlePossible(s.world, id, token, result, code, now);
        OpShut(s.world, O.Settle(id, token, result, code), now, ref);
      case _ =>
    }
  }

  lemma {:induction false} ShutUntilOptIn(states: seq<Access>, steps: seq<Step>, k: nat, i: nat, ref: string)
    requires Trace(states, steps) && k < i < |states| && EndsInTable(states[k], steps[k], ref)
    requires forall m: nat :: k < m < i ==> !OptsIn(states[m], steps[m], ref)
    ensures Shut(states[i].world.queue, ref)
    decreases i
  {
    hide Enabled, Next, Shut, EndsInTable, OptsIn;
    TableSays(states[i - 1], steps[i - 1], ref);
    if k < i - 1 {
      ShutUntilOptIn(states, steps, k, i - 1, ref);
    }
  }

  /** With consent ended and nobody opting in, whoever is past the check has been so since before. */
  lemma {:induction false} PastSince(states: seq<Access>, steps: seq<Step>, k: nat, i: nat, n: int)
    requires Trace(states, steps) && Fresh(states[0]) && k < i < |states|
    requires n in states[i].workers && PastCheck(states[i].workers[n])
    requires var ref := states[i].workers[n].job.ref;
             && EndsInTable(states[k], steps[k], ref)
             && forall m: nat :: k < m < i ==> !OptsIn(states[m], steps[m], ref)
    ensures Throughout(states, n, states[i].workers[n].job, k, i, false)
    decreases i
  {
    hide Enabled, Next, Safe, OptsIn, EndsInTable, O.GenerationsKnown, O.Capped;
    FreshIsSafe(states[0]);
    var s, step, job := states[i - 1], steps[i - 1], states[i].workers[n].job;
    AlwaysSafe(states, steps, i - 1);
    SafeParts(s);
    WorkersKept(s, step);
    ShutUntilOptIn(states, steps, k, i, job.ref);
    if !PastCheck(s.workers[n]) {
      OnlyCheckClears(s, step, n);
      assert false;
    }
    JobStays(s, step, n);
    if k < i - 1 {
      PastSince(states, steps, k, i - 1, n);
    }
  }

  /**
   Once an opt-out has been carried out in the table, nothing is sent to that reference before someone opts
   it in there; only a delivery past its check when an opt-out was carried out late still ends.
   */
  lemma {:induction false} OptOutHolds(states: seq<Access>, steps: seq<Step>, k: nat, i: nat)
    requires Trace(states, steps) && Fresh(states[0]) && k < i < |steps| && steps[i].Send?
    requires EndsInTable(states[k], steps[k], states[i].workers[steps[i].n].job.ref)
    ensures var (n, job) := (steps[i].n, states[i].workers[steps[i].n].job);
            || (exists m: nat :: k < m < i && OptsIn(states[m], steps[m], job.ref))
            || (steps[k].Late? && Throughout(states, n, job, k, i, false))
  {
    hide Next, OptsIn, O.GenerationsKnown, O.Capped, Safe;
    var n, job := steps[i].n, states[i].workers[steps[i].n].job;
    if forall m: nat :: k < m < i ==> !OptsIn(states[m], steps[m], job.ref) {
      PastSince(states, steps, k, i, n);
      FreshIsSafe(states[0]);
      AlwaysSafe(states, steps, k);
      SafeParts(states[k]);
      assert PastCheck(states[k].workers[n]);
      MineAlone(states[k], steps[k], n);
    }
  }

  lemma {:induction false} OffUntilOn(states: seq<Access>, steps: seq<Step>, k: nat, i: nat, ref: string)
    requires Trace(states, steps) && k < i < |states| && PutsOff(states[k], steps[k], ref)
    requires forall m: nat :: k < m < i ==> !PutsOn(states[m], steps[m], ref)
    ensures ref in states[i].portalOff
    decreases i
  {
    hide Enabled, Next, PutsOff, PutsOn;
    PortalSays(states[i - 1], steps[i - 1], ref);
    if k < i - 1 {
      OffUntilOn(states, steps, k, i - 1, ref);
    }
  }

  lemma {:induction false} SendingSince(states: seq<Access>, steps: seq<Step>, k: nat, i: nat, n: int)
    requires Trace(states, steps) && k < i < |states| && IsWorker(states[i], n, Sending)
    requires var ref := states[i].workers[n].job.ref;
             && PutsOff(states[k], steps[k], ref)
             && forall m: nat :: k < m < i ==> !PutsOn(states[m], steps[m], ref)
    ensures Throughout(states, n, states[i].workers[n].job, k, i, true)
    decreases i
  {
    hide Enabled, Next, PutsOn;
    var s, step, job := states[i - 1], steps[i - 1], states[i].workers[n].job;
    WorkersKept(s, step);
    OffUntilOn(states, steps, k, i, job.ref);
    if !IsWorker(s, n, Sending) {
      OnlyEligibilitySends(s, step, n);
      assert false;
    }
    JobStays(s, step, n);
    if k < i - 1 {
      SendingSince(states, steps, k, i - 1, n);
    }
  }

  /**
   Once an opt-out has been carried out at the Portal, nothing is sent to that reference before someone opts
   it in there; only a delivery about to send when an opt-out was carried out late still ends.
   */
  lemma {:induction false} PortalOptOutHolds(states: seq<Access>, steps: seq<Step>, k: nat, i: nat)
    requires Trace(states, steps) && Fresh(states[0]) && k < i < |steps| && steps[i].Send?
    requires PutsOff(states[k], steps[k], states[i].workers[steps[i].n].job.ref)
    ensures var (n, job) := (steps[i].n, states[i].workers[steps[i].n].job);
            || (exists m: nat :: k < m < i && PutsOn(states[m], steps[m], job.ref))
            || (steps[k].Late? && Throughout(states, n, job, k, i, true))
  {
    hide Next, PutsOn, O.GenerationsKnown, O.Capped, Safe;
    var n, job := steps[i].n, states[i].workers[steps[i].n].job;
    if forall m: nat :: k < m < i ==> !PutsOn(states[m], steps[m], job.ref) {
      SendingSince(states, steps, k, i, n);
      FreshIsSafe(states[0]);
      AlwaysSafe(states, steps, k);
      SafeParts(states[k]);
      assert PastCheck(states[k].workers[n]);
      MineAlone(states[k], steps[k], n);
    }
  }

  /** Only requests to opt in are validated, and only opt-outs of a selected family revoke. */
  predicate Proper(a: Asker) {
    (a.Validating? ==> a.wish.enable) && (a.Revoking? ==> !a.wish.enable && a.wish.selected)
  }

  lemma {:induction false} StepProper(s: Access, step: Step, n: int)
    requires Enabled(s, step) && n in s.askers && Proper(s.askers[n])
    ensures n in Next(s, step).askers && Proper(Next(s, step).askers[n])
    ensures var after := Next(s, step).askers[n];
            after != s.askers[n] && after.CallingPortal? && after.revoked && !after.wish.enable
            && after.wish.selected ==>
              && step.RevokeLocally? && step.n == n && step.fate.Answered? && s.askers[n] == Revoking(after.wish)
  {
    hide O.Possible, O.Next, Allowed, SetRecipient, AfterIdentity, AfterCheck, AfterEligibility, AfterSend;
  }

  lemma {:induction false} AskersKept(s: Access, step: Step)
    requires Enabled(s, step)
    ensures Next(s, step).askers.Keys == s.askers.Keys
  {
    hide O.Possible, O.Next, Allowed, SetRecipient, AfterIdentity, AfterCheck, AfterEligibility, AfterSend;
  }

  /** An opt-out that goes on to the Portal as revoked has had its revocation answered. */
  lemma {:induction false} RevokedBefore(states: seq<Access>, steps: seq<Step>, k: nat, n: int)
    requires Trace(states, steps) && Fresh(states[0]) && k < |states| && n in states[k].askers
    ensures Proper(states[k].askers[n])
    ensures var a := states[k].askers[n];
            a.CallingPortal? && a.revoked && !a.wish.enable && a.wish.selected ==>
              exists j: nat :: j < k && EndsInTable(states[j], steps[j], a.wish.ref) && !steps[j].Late?
  {
    hide Enabled, Next, O.GenerationsKnown, O.Capped;
    if k > 0 {
      AskersKept(states[k - 1], steps[k - 1]);
      RevokedBefore(states, steps, k - 1, n);
      StepProper(states[k - 1], steps[k - 1], n);
      var a := states[k].askers[n];
      if a != states[k - 1].askers[n] && a.CallingPortal? && a.revoked && !a.wish.enable && a.wish.selected {
        assert EndsInTable(states[k - 1], steps[k - 1], a.wish.ref);
      }
    }
  }

  /**
   What an opt-out answered with success gets: nothing is sent to its reference afterwards before someone
   opts it in at the Portal again, and, if its family was selected, in the table as well.
   */
  lemma {:induction false} AnsweredOptOutHolds(states: seq<Access>, steps: seq<Step>, k: nat, i: nat)
    requires Trace(states, steps) && Fresh(states[0]) && k < i < |steps|
    requires steps[k].CallPortal? && steps[k].fate.Answered?
    requires states[k].askers[steps[k].n].revoked && !states[k].askers[steps[k].n].wish.enable
    requires steps[i].Send? && states[i].workers[steps[i].n].job.ref == states[k].askers[steps[k].n].wish.ref
    ensures var wish := states[k].askers[steps[k].n].wish;
            && (exists m: nat :: k < m < i && PutsOn(states[m], steps[m], wish.ref))
            && (wish.selected ==> exists j: nat, m: nat ::
                  && j < k && EndsInTable(states[j], steps[j], wish.ref)
                  && j < m < i && OptsIn(states[m], steps[m], wish.ref))
  {
    hide Next, PutsOn, OptsIn, O.GenerationsKnown, O.Capped, Throughout;
    var wish := states[k].askers[steps[k].n].wish;
    PortalOptOutHolds(states, steps, k, i);
    if wish.selected {
      RevokedBefore(states, steps, k, steps[k].n);
      var j: nat :| j < k && EndsInTable(states[j], steps[j], wish.ref) && !steps[j].Late?;
      OptOutHolds(states, steps, j, i);
    }
  }

  // ---------------------------------------------------------------- a revocation carried out too late

  lemma {:induction false} Grow(states: seq<Access>, steps: seq<Step>, step: Step)
    returns (more: seq<Access>, longer: seq<Step>)
    requires Trace(states, steps) && Enabled(states[|steps|], step)
    ensures more == states + [Next(states[|steps|], step)] && longer == steps + [step] && Trace(more, longer)
  {
    hide Enabled, Next;
    more, longer := states + [Next(states[|steps|], step)], steps + [step];
  }

  /** An opt-out that gives up: its revocation stays in flight, the Portal is never reached. */
  lemma {:induction false} OptOutGivesUp(states: seq<Access>, steps: seq<Step>, wish: Wish)
    returns (more: seq<Access>, longer: seq<Step>)
    requires Trace(states, steps) && !wish.enable && wish.selected
    requires var s := states[|steps|]; s.holder.None? && s.askers == map[0 := Idle] && s.world.now <= 0
    ensures Trace(more, longer) && states <= more && |longer| == |steps| + 4
    ensures var s := states[|steps|];
            more[|longer|] == s.(late := s.late + multiset{LateRevoke(wish.ref)})
  {
    hide Trace, O.Possible, O.Next, SetRecipient;
    TraceLength(states, steps);
    var s := states[|steps|];
    more, longer := Grow(states, steps, Wishes(0, wish));
    more, longer := Grow(more, longer, LockForWish(0));
    more, longer := Grow(more, longer, RevokeLocally(0, InFlight, 0));
    assert more[|longer|] == s.(askers := map[0 := CallingPortal(wish, false)], holder := Some(AskerNo(0)),
                                late := s.late + multiset{LateRevoke(wish.ref)});
    more, longer := Grow(more, longer, CallPortal(0, Never));
  }

  lemma {:induction false} TraceLength(states: seq<Access>, steps: seq<Step>)
    requires Trace(states, steps)
    ensures |states| == |steps| + 1
  {
  }

  /** A delivery that finds everyone agreed, up to the moment before it sends. */
  lemma {:induction false} DeliveryAgrees(states: seq<Access>, steps: seq<Step>, r: Recipient, row: Row,
      people: seq<Person>)
    returns (more: seq<Access>, longer: seq<Step>)
    requires Trace(states, steps) && |people| == 1 && people[0].id == 1 && people[0].active && people[0].role.Parent?
    requires r == Recipient(7, "issuer", "subject", 1, "tgb_binding", true)
    requires row == Row(5, "ref", 7, "issuer", "subject", 1, "tgb_binding", Pending, 0, 0, 0, None, NoCode, "", None)
    requires var s := states[|steps|];
             && s.holder.None? && s.workers == map[0 := Free] && "ref" !in s.portalOff
             && s.world == O.World(Queue(map["ref" := r], map[1 := row]), 0, {}, {7})
    ensures Trace(more, longer) && states <= more && |longer| == |steps| + 5
    ensures var (s, after) := (states[|steps|], more[|longer|]);
            && after.world.queue.recipients == map["ref" := r] && after.world.now == 0
            && after.workers == map[0 := Inside(Job(1, 9, "ref", 7), Sending, Retry, Transport)]
            && after == s.(world := after.world, workers := after.workers, holder := Some(WorkerNo(0)))
  {
    hide Trace;
    TraceLength(states, steps);
    var s := states[|steps|];
    more, longer := Grow(states, steps, ClaimJob(0, 1, 9, 0));
    var world := more[|longer|].world;
    more, longer := Grow(more, longer, LockForJob(0));
    more, longer := Grow(more, longer, HearIdentity(0, SameFamily));
    assert more[|longer|] == s.(world := world, holder := Some(WorkerNo(0)),
                                workers := map[0 := Inside(Job(1, 9, "ref", 7), Checking, Retry, Transport)]);
    assert Allowed(world.queue, 1, 9, true, people, 0);
    more, longer := Grow(more, longer, HearCheck(0, true, true, people, 0));
    more, longer := Grow(more, longer, HearEligibility(0, Ok, true));
  }

  /**
   A revocation that its request gave up, carried out between a delivery's last check and its send: the send
   is asked for a generation that has ended.
   */
  lemma {:induction false} LateRevocationMissed(r: Recipient, row: Row, people: seq<Person>)
    returns (states: seq<Access>, steps: seq<Step>)
    requires r == Recipient(7, "issuer", "subject", 1, "tgb_binding", true)
    requires row == Row(5, "ref", 7, "issuer", "subject", 1, "tgb_binding", Pending, 0, 0, 0, None, NoCode, "", None)
    requires people == [Person(1, Parent, true, "Ann", "", NO_PROFILE)]
    ensures Trace(states, steps) && Fresh(states[0]) && |steps| == 11 && steps[10] == Send(0, Ok, "tgn_1")
    ensures ("ref", 7) in states[10].endedLate && !Current(states[10].world.queue.recipients, "ref", 7)
    ensures states[10].workers[0].job == Job(1, 9, "ref", 7)
  {
    var s := Access(O.World(Queue(map["ref" := r], map[1 := row]), 0, {}, {7}), None,
                    map[0 := Free], map[0 := Idle], {}, {}, {}, multiset{});
    states, steps := [s], [];
    var wish := Wish(false, "ref", true, r);
    assert Fresh(s);
    states, steps := OptOutGivesUp(states, steps, wish);
    states, steps := DeliveryAgrees(states, steps, r, row, people);
    LateGoesUnseen(states[|steps|], r);
    states, steps := Grow(states, steps, Late(LateRevoke("ref"), false, [], 0));
    states, steps := Grow(states, steps, Send(0, Ok, "tgn_1"));
  }

  lemma {:induction false} LateGoesUnseen(s: Access, r: Recipient)
    requires s.world.now == 0 && LateRevoke("ref") in s.late && s.world.queue.recipients == map["ref" := r]
    requires s.workers == map[0 := Inside(Job(1, 9, "ref", 7), Sending, Retry, Transport)] && r.subscription == 7
    ensures Enabled(s, Late(LateRevoke("ref"), false, [], 0))
    ensures var after := Next(s, Late(LateRevoke("ref"), false, [], 0));
            && ("ref", 7) in after.endedLate && !Current(after.world.queue.recipients, "ref", 7)
            && after.workers == s.workers && Enabled(after, Send(0, Ok, "tgn_1"))
  {
    hide CancelAll, PendingOf;
  }
}
