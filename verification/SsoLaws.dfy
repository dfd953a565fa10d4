/** What the session registry promises, said of its sessions alone: who gets one, for how long, and who loses it. */
module SsoLaws {
  import opened Days
  import opened SsoSessions
  import opened SsoTheorems

  /**
   A session is given for a time of up to sixty days to someone with both ids, while there is room for sessions and
   for revocations, neither id is revoked, and the file, if there is one, can be written.
   */
  lemma {:induction false} GivenIff(s: State, sub: Subject, scope: string, ttl: int, id: string, now: int, saves: bool)
    ensures var (given, after) := Added(s, sub, scope, ttl, id, now, saves);
            && (given == Some(id) <==>
                  && 0 < ttl <= 60 * 24 * 3600 && sub.id != "" && sub.sessionId != ""
                  && |set k | k in s.memory.active && now < s.memory.active[k].expires| < 10000
                  && |set key | key in s.memory.revoked && now < s.memory.revoked[key]| < 10000
                  && (forall key :: key in s.memory.revoked && now < s.memory.revoked[key] ==>
                        key != Sid(sub.sessionId) && key != Sub(sub.id))
                  && (saves || s.disk.None?))
            && (given.Some? ==> given.value == id)
            && (given.Some? ==>
                  id in after.memory.active && after.memory.active[id] == Session(sub, scope, now + ttl))
            && (forall k :: k != id ==>
                  (k in after.memory.active <==> k in s.memory.active && now < s.memory.active[k].expires))
            && (forall k :: k != id && k in after.memory.active ==> after.memory.active[k] == s.memory.active[k])
            && (forall key :: key in after.memory.revoked <==> key in s.memory.revoked && now < s.memory.revoked[key])
            && (forall key :: key in after.memory.revoked ==> after.memory.revoked[key] == s.memory.revoked[key])
            && after.disk == (if given.Some? && s.disk.Some? then Some(after.memory) else s.disk)
  {
    var t := Swept(s.memory, now);
    assert t.active.Keys == set k | k in s.memory.active && now < s.memory.active[k].expires;
    assert t.revoked.Keys == set key | key in s.memory.revoked && now < s.memory.revoked[key];
    assert |t.active| == |t.active.Keys| && |t.revoked| == |t.revoked.Keys|;
  }

  /** Calls that end a session before its time: a deletion, a revocation of its owner, or one that finds no room. */
  ghost predicate Spares(s: State, c: Call, id: string, sub: Subject) {
    match c.op
    case Add(_, _, _, given) => given != id
    case Delete(gone) => gone != id
    case Revoke(whom) =>
      && |set key | key in s.memory.revoked && c.now < s.memory.revoked[key]| < 10000
      && (whom.issuer == sub.issuer ==>
            if whom.sessionId != "" then whom.sessionId != sub.sessionId else whom.id != sub.id)
    case _ => true
  }

  /** Under its id a table has this session, until it expires, and never another one. */
  predicate Has(t: Table, id: string, v: Session, now: int) {
    && (id in t.active ==> t.active[id] == v)
    && (now < v.expires ==> id in t.active)
  }

  lemma {:induction false} RevokeSpares(s: State, c: Call, id: string, v: Session)
    requires c.op.Revoke? && Spares(s, c, id, v.subject) && Has(s.memory, id, v, c.now)
    ensures Has(Next(s, c).memory, id, v, c.now)
  {
    var t := Swept(s.memory, c.now);
    assert t.revoked.Keys == set key | key in s.memory.revoked && c.now < s.memory.revoked[key];
    assert |t.revoked| == |t.revoked.Keys|;
  }

  lemma {:induction false} StepHas(s: State, c: Call, id: string, v: Session)
    requires Spares(s, c, id, v.subject) && s.disk.Some?
    requires Has(s.memory, id, v, c.now) && Has(s.disk.value, id, v, c.now)
    ensures var after := Next(s, c);
            after.disk.Some? && Has(after.memory, id, v, c.now) && Has(after.disk.value, id, v, c.now)
  {
    match c.op {
      case Revoke(_) => RevokeSpares(s, c, id, v);
      case Add(subject, scope, ttl, given) => GivenIff(s, subject, scope, ttl, given, c.now, c.saves);
      case _ =>
    }
  }

  lemma {:induction false} GivenHas(s: State, c: Call)
    requires c.op.Add? && s.disk.Some?
    requires Added(s, c.op.subject, c.op.scope, c.op.ttl, c.op.id, c.now, c.saves).0.Some?
    ensures var v := Session(c.op.subject, c.op.scope, c.now + c.op.ttl);
            var after := Next(s, c);
            after.disk.Some? && Has(after.memory, c.op.id, v, c.now) && Has(after.disk.value, c.op.id, v, c.now)
  {
    GivenIff(s, c.op.subject, c.op.scope, c.op.ttl, c.op.id, c.now, c.saves);
  }

  lemma {:induction false} HasAlong(states: seq<State>, calls: seq<Call>, i: nat, j: nat, id: string, v: Session, now: int)
    requires Trace(states, calls) && i <= j < |states| && states[i].disk.Some?
    requires forall k :: i <= k < j ==> now <= calls[k].now && Spares(states[k], calls[k], id, v.subject)
    requires Has(states[i].memory, id, v, now) && Has(states[i].disk.value, id, v, now)
    ensures states[j].disk.Some?
    ensures forall t :: now <= t && (forall k :: i <= k < j ==> calls[k].now <= t) ==>
              Has(states[j].memory, id, v, t) && Has(states[j].disk.value, id, v, t)
    decreases j
  {
    hide Next, Spares;
    if i < j {
      HasAlong(states, calls, i, j - 1, id, v, now);
      StepHas(states[j - 1], calls[j - 1], id, v);
    }
  }

  /**
   A session that was given is found, with its owner and scope, until exactly its time has passed, through restarts and
   failed saves and whatever happens to others, unless it is deleted, its owner revoked or the registry cleared.
   */
  lemma {:induction false} SessionLasts(states: seq<State>, calls: seq<Call>, i: nat, j: nat, t: int)
    requires Trace(states, calls) && i < j < |states| && calls[i].op.Add? && calls[j - 1].now <= t
    requires var add := calls[i].op;
             Added(states[i], add.subject, add.scope, add.ttl, add.id, calls[i].now, calls[i].saves).0.Some?
    requires forall k :: i < k < j ==> Spares(states[k], calls[k], calls[i].op.id, calls[i].op.subject)
    ensures var add := calls[i].op;
            Found(states[j], add.id, t) ==
              if t < calls[i].now + add.ttl then Some(Session(add.subject, add.scope, calls[i].now + add.ttl)) else None
  {
    hide Next, Spares;
    var (add, now) := (calls[i].op, calls[i].now);
    KeepsFile(states, calls, i);
    GivenHas(states[i], calls[i]);
    var v := Session(add.subject, add.scope, now + add.ttl);
    HasAlong(states, calls, i + 1, j, add.id, v, now);
    assert Has(states[j].memory, add.id, v, t);
  }

  /** Whom a revocation reaches: one session of the provider when it names one, otherwise everyone with the id. */
  lemma {:induction false} RevokesExactly(s: State, sub: Subject, now: int, saves: bool)
    ensures var after := RevokedBy(s, sub, now, saves);
            var room := |set key | key in s.memory.revoked && now < s.memory.revoked[key]| < 10000;
            var named := if sub.sessionId != "" then Sid(sub.sessionId) else Sub(sub.id);
            && (forall k :: k in after.memory.active <==>
                  && room && k in s.memory.active && now < s.memory.active[k].expires
                  && var owner := s.memory.active[k].subject;
                     owner.issuer != sub.issuer
                     || (if sub.sessionId != "" then owner.sessionId != sub.sessionId else owner.id != sub.id))
            && (forall k :: k in after.memory.active ==> after.memory.active[k] == s.memory.active[k])
            && (forall key :: key in after.memory.revoked <==>
                  (room && key == named) || (key in s.memory.revoked && now < s.memory.revoked[key]))
            && (forall key :: key in after.memory.revoked ==>
                  after.memory.revoked[key] == if room && key == named then now + 60 * 24 * 3600 else s.memory.revoked[key])
            && after.disk == (if saves && s.disk.Some? then Some(after.memory) else s.disk)
  {
    var t := Swept(s.memory, now);
    assert t.revoked.Keys == set key | key in s.memory.revoked && now < s.memory.revoked[key];
    assert |t.revoked| == |t.revoked.Keys|;
  }
}
