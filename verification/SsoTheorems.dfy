/** Revocation, expiry and restart fit together over whole runs of the session registry. */
module SsoTheorems {
  import opened Days
  import opened SsoSessions

  datatype Op =
    | Add(subject: Subject, scope: string, ttl: int, id: string)
    | Get(id: string)
    | Delete(id: string)
    | Revoke(subject: Subject)
    | Restart

  /** One call at a moment; `saves` tells whether the file could be written. */
  datatype Call = Call(op: Op, now: int, saves: bool)

  function Next(s: State, c: Call): State {
    match c.op
    case Add(subject, scope, ttl, id) => Added(s, subject, scope, ttl, id, c.now, c.saves).1
    case Get(id) => AfterGet(s, id, c.now)
    case Delete(id) => Deleted(s, id, c.saves)
    case Revoke(subject) => RevokedBy(s, subject, c.now, c.saves)
    case Restart => if s.disk.Some? then Restarted(s, c.now) else s
  }

  ghost predicate Trace(states: seq<State>, calls: seq<Call>) {
    && |states| == |calls| + 1 && states[0].disk.Some?
    && (forall i :: 0 <= i < |calls| ==> states[i + 1] == Next(states[i], calls[i]))
    && forall i, j :: 0 <= i <= j < |calls| ==> calls[i].now <= calls[j].now
  }

  // ---------------------------------------------------------------- runs of calls

  function After(s: State, calls: seq<Call>): State {
    if calls == [] then s else Next(After(s, calls[..|calls| - 1]), calls[|calls| - 1])
  }

  /** Calls in order of time, none before the one moment or after the other. */
  ghost predicate Within(calls: seq<Call>, from: int, upTo: int) {
    && from <= upTo
    && (forall i :: 0 <= i < |calls| ==> from <= calls[i].now <= upTo)
    && forall i, j :: 0 <= i <= j < |calls| ==> calls[i].now <= calls[j].now
  }

  lemma {:induction false} AfterFirst(s: State, c: Call, more: seq<Call>)
    ensures After(s, [c] + more) == After(Next(s, c), more)
  {
    hide Next;
    var calls := [c] + more;
    if more == [] {
      assert calls[..|calls| - 1] == [];
    } else {
      AfterFirst(s, c, more[..|more| - 1]);
      assert calls[..|calls| - 1] == [c] + more[..|more| - 1];
    }
  }

  lemma {:induction false} KeepsDisk(s: State, c: Call)
    requires s.disk.Some?
    ensures Next(s, c).disk.Some?
  {
    hide Swept, Unmatched;
  }

  // ---------------------------------------------------------------- when a revoked session can return

  /** Whether a lookup returns a session that a revocation matches. */
  predicate Returns(s: State, sub: Subject, id: string, t: int) {
    Found(s, id, t).Some? && Matches(Found(s, id, t).value.subject, sub)
  }

  /** The promise of a revocation: until a moment no lookup returns a matching session, whatever is called. */
  ghost predicate Keeps(s: State, sub: Subject, now: int, until: int) {
    forall calls, id, t :: Within(calls, now, t) && t < until ==> !Returns(After(s, calls), sub, id, t)
  }

  /**
   No matching session can be added before a moment: its key is held that long, or as many other records as
   the registry takes are, or nothing that matches is a session at all.
   */
  predicate Blocks(t: Table, sub: Subject, until: int) {
    || (RevocationKey(sub) in t.revoked && t.revoked[RevocationKey(sub)] >= until)
    || |InForce(t.revoked, until - 1)| >= CAPACITY
    || (sub.id == "" && sub.sessionId == "")
  }

  /** No matching session is alive, and none can be added. */
  ghost predicate Shut(t: Table, sub: Subject, now: int, until: int) {
    && (forall k :: k in t.active && Matches(t.active[k].subject, sub) ==> t.active[k].expires <= now)
    && Blocks(t, sub, until)
  }

  ghost predicate ShutAlways(s: State, sub: Subject, now: int, until: int) {
    s.disk.Some? && Shut(s.memory, sub, now, until) && Shut(s.disk.value, sub, now, until)
  }

  lemma {:induction false} FewerInForce(revoked: map<Key, int>, now: int, later: int)
    requires now <= later
    ensures InForce(InForce(revoked, now), later) == InForce(revoked, later)
    ensures |InForce(revoked, later)| <= |InForce(revoked, now)|
  {
    Submap(InForce(revoked, later), InForce(revoked, now));
  }

  lemma {:induction false} Submap<K, V>(small: map<K, V>, big: map<K, V>)
    requires small.Keys <= big.Keys
    ensures |small| <= |big|
  {
    assert |small.Keys| == |small| && |big.Keys| == |big|;
    var rest := big.Keys - small.Keys;
    assert big.Keys == small.Keys + rest;
  }

  lemma {:induction false} SweptShut(t: Table, sub: Subject, now: int, until: int)
    requires now < until
    ensures Shut(Swept(t, now), sub, now, until) <==> Shut(t, sub, now, until)
  {
    FewerInForce(t.revoked, now, until - 1);
    assert Blocks(Swept(t, now), sub, until) <==> Blocks(t, sub, until);
    if Shut(Swept(t, now), sub, now, until) {
      forall k | k in t.active && Matches(t.active[k].subject, sub) ensures t.active[k].expires <= now {
        assert k in Swept(t, now).active <==> now < t.active[k].expires;
      }
    }
  }

  lemma {:induction false} ShutLater(t: Table, sub: Subject, now: int, later: int, until: int)
    requires Shut(t, sub, now, until) && now <= later
    ensures Shut(t, sub, later, until)
  {
  }

  /** A table that blocks a subject refuses every session that matches it. */
  lemma {:induction false} BlockedAdd(t: Table, subject: Subject, now: int, sub: Subject, until: int)
    requires Blocks(t, sub, until) && now < until && Matches(subject, sub)
    ensures var swept := Swept(t, now);
            || subject.id == "" || |swept.revoked| >= CAPACITY
            || Sid(subject.sessionId) in swept.revoked || Sub(subject.id) in swept.revoked
  {
    FewerInForce(t.revoked, now, until - 1);
  }

  lemma {:induction false} AddShut(s: State, subject: Subject, scope: string, ttl: int, id: string, now: int,
        saves: bool,
      sub: Subject, until: int)
    requires ShutAlways(s, sub, now, until) && now < until
    ensures ShutAlways(Added(s, subject, scope, ttl, id, now, saves).1, sub, now, until)
  {
    hide Swept, Blocks;
    SweptShut(s.memory, sub, now, until);
    SameBlocks(s.memory, now, sub, until);
    if Matches(subject, sub) {
      BlockedAdd(s.memory, subject, now, sub, until);
    }
    ActiveFree(Swept(s.memory, now), sub, until);
  }

  lemma {:induction false} SameBlocks(t: Table, now: int, sub: Subject, until: int)
    requires Blocks(t, sub, until) && now < until
    ensures Blocks(Swept(t, now), sub, until)
  {
    FewerInForce(t.revoked, now, until - 1);
  }

  /** Blocking is a matter of the records alone. */
  lemma {:induction false} ActiveFree(t: Table, sub: Subject, until: int)
    ensures forall active :: Blocks(t.(active := active), sub, until) <==> Blocks(t, sub, until)
  {
  }

  lemma {:induction false} RecordBlocks(t: Table, key: Key, expiry: int, sub: Subject, until: int)
    requires Blocks(t, sub, until) && expiry >= until
    ensures Blocks(t.(revoked := t.revoked[key := expiry]), sub, until)
  {
    Submap(InForce(t.revoked, until - 1), InForce(t.revoked[key := expiry], until - 1));
  }

  lemma {:induction false} RevokeShut(s: State, subject: Subject, now: int, saves: bool, sub: Subject, until: int)
    requires ShutAlways(s, sub, now, until) && now < until <= now + SIXTY_DAYS
    ensures ShutAlways(RevokedBy(s, subject, now, saves), sub, now, until)
  {
    hide Swept, Blocks;
    SweptShut(s.memory, sub, now, until);
    var t := Swept(s.memory, now);
    RecordBlocks(t, RevocationKey(subject), now + SIXTY_DAYS, sub, until);
    ActiveFree(t, sub, until);
    ActiveFree(t.(revoked := t.revoked[RevocationKey(subject) := now + SIXTY_DAYS]), sub, until);
    assert Table(Unmatched(t.active, subject), t.revoked[RevocationKey(subject) := now + SIXTY_DAYS])
        == t.(revoked := t.revoked[RevocationKey(subject) := now + SIXTY_DAYS]).(active := Unmatched(t.active, subject));
  }

  lemma {:induction false} RemoveShut(s: State, id: string, now: int, saves: bool, sub: Subject, until: int)
    requires ShutAlways(s, sub, now, until)
    ensures ShutAlways(Deleted(s, id, saves), sub, now, until)
    ensures ShutAlways(AfterGet(s, id, now), sub, now, until)
  {
    hide Blocks;
    ActiveFree(s.memory, sub, until);
  }

  lemma {:induction false} NextShut(s: State, c: Call, sub: Subject, now: int, until: int)
    requires ShutAlways(s, sub, now, until) && now <= c.now < until <= now + SIXTY_DAYS
    ensures ShutAlways(Next(s, c), sub, c.now, until)
  {
    hide Added, RevokedBy, Deleted, AfterGet, Blocks, Swept;
    ShutLater(s.memory, sub, now, c.now, until);
    ShutLater(s.disk.value, sub, now, c.now, until);
    match c.op {
      case Add(subject, scope, ttl, id) => AddShut(s, subject, scope, ttl, id, c.now, c.saves, sub, until);
      case Get(id) => RemoveShut(s, id, c.now, c.saves, sub, until);
      case Delete(id) => RemoveShut(s, id, c.now, c.saves, sub, until);
      case Revoke(subject) => RevokeShut(s, subject, c.now, c.saves, sub, until);
      case Restart => SweptShut(s.disk.value, sub, c.now, until);
    }
  }

  lemma {:induction false} RunShut(s: State, calls: seq<Call>, sub: Subject, now: int, t: int, until: int)
    requires ShutAlways(s, sub, now, until) && Within(calls, now, t) && t < until <= now + SIXTY_DAYS
    ensures ShutAlways(After(s, calls), sub, t, until)
    decreases |calls|
  {
    hide Next, ShutAlways;
    if calls != [] {
      var last := calls[|calls| - 1];
      RunShut(s, calls[..|calls| - 1], sub, now, last.now, until);
      NextShut(After(s, calls[..|calls| - 1]), last, sub, last.now, until);
    }
    AlwaysLater(After(s, calls), sub, if calls == [] then now else calls[|calls| - 1].now, t, until);
  }

  lemma {:induction false} AlwaysLater(s: State, sub: Subject, now: int, later: int, until: int)
    requires ShutAlways(s, sub, now, until) && now <= later
    ensures ShutAlways(s, sub, later, until)
  {
    hide Blocks;
  }

  // ---------------------------------------------------------------- a run that brings a session back

  function TextOf(key: Key): string {
    key.id
  }

  lemma {:induction false} LongerThan(keys: set<Key>) returns (n: nat)
    ensures forall k :: k in keys ==> |TextOf(k)| < n
  {
    if keys == {} {
      n := 0;
    } else {
      var k :| k in keys;
      var rest := LongerThan(keys - {k});
      n := if |TextOf(k)| < rest then rest else |TextOf(k)| + 1;
    }
  }

  /** A text that no record mentions. */
  lemma {:induction false} FreshText(revoked: map<Key, int>) returns (x: string)
    ensures x != "" && Sid(x) !in revoked && Sub(x) !in revoked
  {
    var n := LongerThan(revoked.Keys);
    x := seq(n + 1, i => 'a');
    assert |x| == n + 1;
    assert TextOf(Sid(x)) == x == TextOf(Sub(x));
    assert forall k :: k in revoked ==> k in revoked.Keys;
  }

  /** Deleting session after session leaves none, at one moment. */
  lemma {:induction false} ClearAll(s: State, t: int) returns (calls: seq<Call>)
    requires s.disk.Some?
    ensures Within(calls, t, t) && After(s, calls).disk.Some?
    ensures After(s, calls).memory == Table(map[], s.memory.revoked)
    decreases |s.memory.active|
  {
    if s.memory.active == map[] {
      calls := [];
    } else {
      var k :| k in s.memory.active;
      var c := Call(Delete(k), t, true);
      Submap(s.memory.active - {k}, s.memory.active);
      assert |s.memory.active - {k}| < |s.memory.active| by {
        assert s.memory.active == (s.memory.active - {k})[k := s.memory.active[k]];
      }
      var more := ClearAll(Next(s, c), t);
      AfterFirst(s, c, more);
      calls := [c] + more;
    }
  }

  /** Someone whom no record stops, and whom the revocation matches. */
  lemma {:induction false} Admissible(t: Table, sub: Subject, until: int) returns (subject: Subject)
    requires !Blocks(t, sub, until)
    ensures Matches(subject, sub) && subject.id != "" && subject.sessionId != ""
    ensures Sid(subject.sessionId) !in InForce(t.revoked, until - 1)
            && Sub(subject.id) !in InForce(t.revoked, until - 1)
  {
    var x := FreshText(t.revoked);
    subject := if sub.sessionId != "" then Subject(sub.issuer, x, sub.sessionId) else Subject(sub.issuer, sub.id, x);
  }

  /** Where nothing blocks it, a matching session can be added as late as just before the moment. */
  lemma {:induction false} AddedBack(s: State, sub: Subject, until: int) returns (calls: seq<Call>)
    requires s.disk.Some? && !Blocks(s.memory, sub, until)
    ensures Within(calls, until - 1, until - 1) && Returns(After(s, calls), sub, "cookie", until - 1)
  {
    hide Next, Matches, Found, InForce;
    var t := until - 1;
    var subject := Admissible(s.memory, sub, until);
    var clear := ClearAll(s, t);
    var add := Call(Add(subject, "", 1, "cookie"), t, true);
    calls := clear + [add];
    assert calls[..|calls| - 1] == clear;
    var empty := After(s, clear);
    assert After(s, calls) == Next(empty, add);
    assert |InForce(s.memory.revoked, t)| < CAPACITY;
    EmptyAdds(empty, subject, "cookie", t);
    AddIsNext(empty, subject, t);
  }

  lemma {:induction false} AddIsNext(s: State, subject: Subject, t: int)
    ensures Next(s, Call(Add(subject, "", 1, "cookie"), t, true)) == Added(s, subject, "", 1, "cookie", t, true).1
  {
    hide Added;
  }

  /** From a memory that is not shut, some run returns a matching session in time. */
  lemma {:induction false} ComesBack(s: State, sub: Subject, now: int, until: int)
    returns (calls: seq<Call>, id: string, t: int)
    requires s.disk.Some? && now < until && !Shut(s.memory, sub, now, until)
    ensures Within(calls, now, t) && t < until && Returns(After(s, calls), sub, id, t)
  {
    hide Blocks, Next;
    if !Blocks(s.memory, sub, until) {
      t, id := until - 1, "cookie";
      calls := AddedBack(s, sub, until);
    } else {
      id :| id in s.memory.active && Matches(s.memory.active[id].subject, sub) && s.memory.active[id].expires > now;
      calls, t := [], now;
    }
  }

  lemma {:induction false} EmptyAdds(s: State, subject: Subject, id: string, t: int)
    requires s.disk.Some? && s.memory.active == map[] && subject.id != "" && subject.sessionId != ""
    requires |InForce(s.memory.revoked, t)| < CAPACITY
    requires Sid(subject.sessionId) !in InForce(s.memory.revoked, t) && Sub(subject.id) !in InForce(s.memory.revoked, t)
    ensures Found(Added(s, subject, "", 1, id, t, true).1, id, t) == Some(Session(subject, "", t + 1))
  {
    assert Alive(s.memory.active, t) == map[];
  }

  /** The promise is kept over every run if and only if memory and file are both shut. */
  lemma {:induction false} KeepsIff(s: State, sub: Subject, now: int, until: int)
    requires s.disk.Some? && now < until <= now + SIXTY_DAYS
    ensures Keeps(s, sub, now, until) <==> ShutAlways(s, sub, now, until)
  {
    hide After, Blocks, Next;
    if ShutAlways(s, sub, now, until) {
      forall calls, id, t | Within(calls, now, t) && t < until ensures !Returns(After(s, calls), sub, id, t) {
        RunShut(s, calls, sub, now, t, until);
      }
    } else if !Shut(s.memory, sub, now, until) {
      var calls, id, t := ComesBack(s, sub, now, until);
      assert Within(calls, now, t) && Returns(After(s, calls), sub, id, t);
    } else {
      var restart := Call(Restart, now, true);
      var fresh' := Restarted(s, now);
      SweptShut(s.disk.value, sub, now, until);
      var calls, id, t := ComesBack(fresh', sub, now, until);
      RestartFirst(s, now, calls);
      assert Within([restart] + calls, now, t) && Returns(After(s, [restart] + calls), sub, id, t);
    }
  }

  lemma {:induction false} RestartFirst(s: State, now: int, calls: seq<Call>)
    requires s.disk.Some?
    ensures After(s, [Call(Restart, now, true)] + calls) == After(Restarted(s, now), calls)
  {
    AfterFirst(s, Call(Restart, now, true), calls);
  }

  // ---------------------------------------------------------------- revocation

  /** Whether the registry has room to record one more revocation. */
  predicate HasRoom(s: State, now: int) {
    |InForce(s.memory.revoked, now)| < CAPACITY
  }

  lemma {:induction false} RevokedMemory(s: State, sub: Subject, now: int, saves: bool)
    requires s.disk.Some?
    ensures Shut(RevokedBy(s, sub, now, saves).memory, sub, now, now + SIXTY_DAYS)
       <==> HasRoom(s, now) || Blocks(s.memory, sub, now + SIXTY_DAYS)
  {
    FewerInForce(s.memory.revoked, now, now + SIXTY_DAYS - 1);
  }

  /**
   When a revocation keeps its promise for sixty days over every later run: it was recorded, or enough other
   records block all additions that long; and the file was written, or already was as shut as that.
   */
  lemma {:induction false} RevocationKeepsIff(s: State, sub: Subject, now: int, saves: bool)
    requires s.disk.Some?
    ensures Keeps(RevokedBy(s, sub, now, saves), sub, now, now + SIXTY_DAYS) <==>
              && (HasRoom(s, now) || Blocks(s.memory, sub, now + SIXTY_DAYS))
              && (saves || Shut(s.disk.value, sub, now, now + SIXTY_DAYS))
  {
    hide Blocks, Shut, HasRoom, Keeps;
    var after := RevokedBy(s, sub, now, saves);
    RevokedMemory(s, sub, now, saves);
    RevokedFile(s, sub, now, saves);
    KeepsIff(after, sub, now, now + SIXTY_DAYS);
  }

  lemma {:induction false} RevokedFile(s: State, sub: Subject, now: int, saves: bool)
    requires s.disk.Some?
    ensures var after := RevokedBy(s, sub, now, saves);
            after.disk == if saves then Some(after.memory) else s.disk
  {
    hide Swept, Unmatched;
  }

  lemma {:induction false} KeepsFile(states: seq<State>, calls: seq<Call>, i: nat)
    requires Trace(states, calls) && i < |states|
    ensures states[i].disk.Some?
  {
    hide Next;
    if i > 0 {
      KeepsFile(states, calls, i - 1);
      KeepsDisk(states[i - 1], calls[i - 1]);
    }
  }

  /** Along a run, what is shut stays shut. */
  lemma {:induction false} TraceShut(states: seq<State>, calls: seq<Call>, i: nat, j: nat, sub: Subject, until: int)
    requires Trace(states, calls) && 0 < i <= j < |states|
    requires ShutAlways(states[i], sub, calls[i - 1].now, until)
             && calls[j - 1].now < until <= calls[i - 1].now + SIXTY_DAYS
    ensures ShutAlways(states[j], sub, calls[j - 1].now, until)
    decreases j
  {
    hide Next, ShutAlways;
    if i < j {
      TraceShut(states, calls, i, j - 1, sub, until);
      NextShut(states[j - 1], calls[j - 1], sub, calls[j - 2].now, until);
    }
  }

  /**
   Once a revocation is recorded, no lookup of the next sixty days returns a session it matches, through
   any later additions, deletions, revocations and restarts, with saves that succeed or fail.
   */
  lemma {:induction false} RevocationHolds(states: seq<State>, calls: seq<Call>, i: nat, j: nat, sub: Subject,
      id: string, now: int)
    requires Trace(states, calls) && i < j < |states| && calls[i].op == Revoke(sub) && calls[i].saves
    requires HasRoom(states[i], calls[i].now) && calls[j - 1].now <= now < calls[i].now + SIXTY_DAYS
    ensures !Returns(states[j], sub, id, now)
  {
    hide HasRoom, Blocks, Swept;
    KeepsFile(states, calls, i);
    RevokedMemory(states[i], sub, calls[i].now, true);
    RevokedFile(states[i], sub, calls[i].now, true);
    assert states[i + 1] == Next(states[i], calls[i]);
    hide Next;
    TraceShut(states, calls, i + 1, j, sub, calls[i].now + SIXTY_DAYS);
  }

  // ---------------------------------------------------------------- a save that fails

  /** A call that replaces the file. */
  predicate Writes(s: State, c: Call) {
    c.saves && match c.op
      case Add(subject, scope, ttl, id) => Added(s, subject, scope, ttl, id, c.now, c.saves).0.Some?
      case Delete(_) => true
      case Revoke(_) => true
      case _ => false
  }

  lemma {:induction false} FileOnlyWritten(s: State, c: Call)
    requires s.disk.Some? && !c.op.Restart?
    ensures Next(s, c).disk == if Writes(s, c) then Some(Next(s, c).memory) else s.disk
  {
    hide Swept, Unmatched;
  }

  /** Without a restart memory stays shut, whatever the file holds. */
  lemma {:induction false} MemoryShut(s: State, c: Call, sub: Subject, now: int, until: int)
    requires s.disk.Some? && !c.op.Restart?
    requires Shut(s.memory, sub, now, until) && now <= c.now < until <= now + SIXTY_DAYS
    ensures Shut(Next(s, c).memory, sub, c.now, until)
  {
    hide Blocks, Swept, Unmatched, Shut;
    var both := s.(disk := Some(s.memory));
    NextShut(both, c, sub, now, until);
    SameMemory(s, both, c);
  }

  lemma {:induction false} SameMemory(s: State, other: State, c: Call)
    requires s.disk.Some? && other.disk.Some? && s.memory == other.memory && !c.op.Restart?
    ensures Next(s, c).memory == Next(other, c).memory
  {
    hide Swept, Unmatched;
  }

  lemma {:induction false} MemoryShutAlong(states: seq<State>, calls: seq<Call>, i: nat, j: nat, sub: Subject)
    requires Trace(states, calls) && i < j < |states| && calls[i].op == Revoke(sub) && HasRoom(states[i], calls[i].now)
    requires forall k :: i < k < j ==> !calls[k].op.Restart?
    requires calls[j - 1].now < calls[i].now + SIXTY_DAYS
    ensures Shut(states[j].memory, sub, calls[j - 1].now, calls[i].now + SIXTY_DAYS)
    decreases j
  {
    hide Shut, HasRoom, Blocks, Swept;
    if j == i + 1 {
      KeepsFile(states, calls, i);
      RevokedMemory(states[i], sub, calls[i].now, calls[i].saves);
    } else {
      MemoryShutAlong(states, calls, i, j - 1, sub);
      KeepsFile(states, calls, j - 1);
      MemoryShut(states[j - 1], calls[j - 1], sub, calls[j - 2].now, calls[i].now + SIXTY_DAYS);
    }
  }

  /** Until the process restarts a recorded revocation holds even if no save succeeds. */
  lemma {:induction false} HoldsUntilRestart(states: seq<State>, calls: seq<Call>, i: nat, j: nat, sub: Subject,
      id: string, now: int)
    requires Trace(states, calls) && i < j < |states| && calls[i].op == Revoke(sub) && HasRoom(states[i], calls[i].now)
    requires forall k :: i < k < j ==> !calls[k].op.Restart?
    requires calls[j - 1].now <= now < calls[i].now + SIXTY_DAYS
    ensures !Returns(states[j], sub, id, now)
  {
    hide HasRoom, Blocks, Next;
    MemoryShutAlong(states, calls, i, j, sub);
  }

  lemma {:induction false} FileUntouched(states: seq<State>, calls: seq<Call>, i: nat, j: nat)
    requires Trace(states, calls) && i <= j < |states|
    requires forall k :: i <= k < j ==> !calls[k].op.Restart? && !Writes(states[k], calls[k])
    ensures states[j].disk == states[i].disk
    decreases j
  {
    hide Next, Writes;
    if i < j {
      FileUntouched(states, calls, i, j - 1);
      KeepsFile(states, calls, j - 1);
      FileOnlyWritten(states[j - 1], calls[j - 1]);
    }
  }

  /** A write between the revocation and the restart carries the record into the file. */
  lemma {:induction false} WrittenInTime(states: seq<State>, calls: seq<Call>, i: nat, k: nat, r: nat, sub: Subject)
    requires Trace(states, calls) && i < k < r < |calls| && calls[i].op == Revoke(sub)
             && HasRoom(states[i], calls[i].now)
    requires forall m :: i < m < r ==> !calls[m].op.Restart?
    requires Writes(states[k], calls[k]) && calls[r].now < calls[i].now + SIXTY_DAYS
    ensures ShutAlways(states[r + 1], sub, calls[r].now, calls[i].now + SIXTY_DAYS)
  {
    hide Next, Shut, HasRoom, Writes;
    MemoryShutAlong(states, calls, i, k + 1, sub);
    KeepsFile(states, calls, k);
    FileOnlyWritten(states[k], calls[k]);
    TraceShut(states, calls, k + 1, r + 1, sub, calls[i].now + SIXTY_DAYS);
  }

  /**
   A revocation with room whose save failed keeps its promise beyond the next restart, over every later run,
   if and only if a call in between wrote the file, or the file was shut to the subject that long already.
   */
  lemma {:induction false} FailedSaveIff(states: seq<State>, calls: seq<Call>, i: nat, r: nat, sub: Subject)
    requires Trace(states, calls) && i < r < |calls| && calls[i].op == Revoke(sub) && HasRoom(states[i], calls[i].now)
    requires !calls[i].saves && calls[r].op.Restart? && forall k :: i < k < r ==> !calls[k].op.Restart?
    requires calls[r].now < calls[i].now + SIXTY_DAYS
    ensures states[i].disk.Some?
    ensures Keeps(states[r + 1], sub, calls[r].now, calls[i].now + SIXTY_DAYS) <==>
              || (exists k :: i < k < r && Writes(states[k], calls[k]))
              || Shut(states[i].disk.value, sub, calls[r].now, calls[i].now + SIXTY_DAYS)
  {
    hide Shut, HasRoom, Writes, Keeps, Swept;
    var until := calls[i].now + SIXTY_DAYS;
    KeepsFile(states, calls, i);
    KeepsFile(states, calls, r);
    KeepsFile(states, calls, r + 1);
    KeepsIff(states[r + 1], sub, calls[r].now, until);
    if k :| i < k < r && Writes(states[k], calls[k]) {
      WrittenInTime(states, calls, i, k, r, sub);
    } else {
      assert !Writes(states[i], calls[i]) by { NoSaveNoWrite(states[i], calls[i]); }
      FileUntouched(states, calls, i, r);
      assert states[r + 1] == Next(states[r], calls[r]);
      SweptShut(states[i].disk.value, sub, calls[r].now, until);
    }
  }

  lemma {:induction false} NoSaveNoWrite(s: State, c: Call)
    requires !c.saves
    ensures !Writes(s, c)
  {
  }

  // ---------------------------------------------------------------- expiry

  /** No session is kept longer than sixty days from now. */
  ghost predicate Bounded(t: Table, now: int) {
    forall k :: k in t.active ==> t.active[k].expires <= now + SIXTY_DAYS
  }

  ghost predicate BoundedAlways(s: State, now: int) {
    Bounded(s.memory, now) && (s.disk.Some? ==> Bounded(s.disk.value, now))
  }

  lemma {:induction false} NextBounded(s: State, c: Call, before: int)
    requires BoundedAlways(s, before) && before <= c.now
    ensures BoundedAlways(Next(s, c), c.now)
  {
  }

  function StartOf(calls: seq<Call>, start: int, i: nat): int
    requires i <= |calls|
  {
    if i == 0 then start else calls[i - 1].now
  }

  lemma {:induction false} RunBounded(states: seq<State>, calls: seq<Call>, start: int, i: nat)
    requires Trace(states, calls) && i < |states| && BoundedAlways(states[0], start) && (|calls| > 0 ==> start <= calls[0].now)
    ensures BoundedAlways(states[i], StartOf(calls, start, i))
  {
    hide Next, BoundedAlways;
    if i > 0 {
      RunBounded(states, calls, start, i - 1);
      NextBounded(states[i - 1], calls[i - 1], StartOf(calls, start, i - 1));
    }
  }

  /** A session alive when a revocation is recorded, in memory or in the file, cannot outlive the record. */
  lemma {:induction false} NothingOutlivesRecord(states: seq<State>, calls: seq<Call>, start: int, i: nat, sub: Subject)
    requires Trace(states, calls) && BoundedAlways(states[0], start) && i < |calls| && start <= calls[0].now
    requires calls[i].op == Revoke(sub) && HasRoom(states[i], calls[i].now)
    ensures RevocationKey(sub) in states[i + 1].memory.revoked
    ensures var record := states[i + 1].memory.revoked[RevocationKey(sub)];
            && (forall k :: k in states[i].memory.active ==> states[i].memory.active[k].expires <= record)
            && states[i].disk.Some?
            && (forall k :: k in states[i].disk.value.active ==> states[i].disk.value.active[k].expires <= record)
  {
    RunBounded(states, calls, start, i);
    KeepsFile(states, calls, i);
  }

  // ---------------------------------------------------------------- restart

  /** The file holds what memory holds, up to what has expired. */
  ghost predicate InSync(s: State, now: int) {
    && s.disk.Some?
    && Alive(s.disk.value.active, now) == Alive(s.memory.active, now)
    && InForce(s.disk.value.revoked, now) == InForce(s.memory.revoked, now)
  }

  lemma {:induction false} AliveLater(a: map<string, Session>, b: map<string, Session>, now: int, t: int)
    requires Alive(a, now) == Alive(b, now) && now <= t
    ensures Alive(a, t) == Alive(b, t)
  {
    assert forall m: map<string, Session>, k :: k in Alive(m, t) ==> k in Alive(m, now) && Alive(m, now)[k] == m[k];
  }

  lemma {:induction false} InForceLater(a: map<Key, int>, b: map<Key, int>, now: int, t: int)
    requires InForce(a, now) == InForce(b, now) && now <= t
    ensures InForce(a, t) == InForce(b, t)
  {
    assert forall m: map<Key, int>, k :: k in InForce(m, t) ==> k in InForce(m, now) && InForce(m, now)[k] == m[k];
  }

  lemma {:induction false} SyncLater(s: State, now: int, t: int)
    requires InSync(s, now) && now <= t
    ensures InSync(s, t)
  {
    AliveLater(s.disk.value.active, s.memory.active, now, t);
    InForceLater(s.disk.value.revoked, s.memory.revoked, now, t);
  }

  /** A call that panics: the file could not be written after a deletion or a revocation. */
  predicate Panics(c: Call) {
    !c.saves && (c.op.Delete? || c.op.Revoke?)
  }

  lemma {:induction false} AliveTwice(active: map<string, Session>, now: int)
    ensures Alive(Alive(active, now), now) == Alive(active, now)
  {
  }

  lemma {:induction false} InForceTwice(revoked: map<Key, int>, now: int)
    ensures InForce(InForce(revoked, now), now) == InForce(revoked, now)
  {
  }

  /** Sweeping first or not makes no difference to what is alive. */
  lemma {:induction false} SweepSync(s: State, now: int)
    requires InSync(s, now)
    ensures InSync(s.(memory := Swept(s.memory, now)), now)
  {
    AliveTwice(s.memory.active, now);
    InForceTwice(s.memory.revoked, now);
  }

  lemma {:induction false} SavedSync(s: State, now: int)
    requires s.disk.Some?
    ensures InSync(Saved(s, true), now)
  {
  }

  lemma {:induction false} AbsentSync(s: State, id: string, now: int)
    requires InSync(s, now) && (id in s.memory.active ==> s.memory.active[id].expires <= now)
    ensures InSync(s.(memory := s.memory.(active := s.memory.active - {id})), now)
  {
    assert Alive(s.memory.active - {id}, now) == Alive(s.memory.active, now);
  }

  lemma {:induction false} AddSync(s: State, subject: Subject, scope: string, ttl: int, id: string, now: int,
        saves: bool)
    requires InSync(s, now) && id !in s.memory.active
    ensures InSync(Added(s, subject, scope, ttl, id, now, saves).1, now)
  {
    hide InSync;
    SweepSync(s, now);
    var swept := s.(memory := Swept(s.memory, now));
    AbsentSync(swept, id, now);
    assert s.disk.Some? by { HasFile(s, now); }
    var t := swept.memory;
    SavedSync(s.(memory := t.(active := t.active[id := Session(subject, scope, now + ttl)])), now);
  }

  lemma {:induction false} HasFile(s: State, now: int)
    requires InSync(s, now)
    ensures s.disk.Some?
  {
  }

  lemma {:induction false} RestartSync(s: State, now: int)
    requires s.disk.Some?
    ensures InSync(Restarted(s, now), now)
  {
  }

  lemma {:induction false} NextSync(s: State, c: Call, before: int)
    requires InSync(s, before) && before <= c.now && !Panics(c)
    requires c.op.Add? ==> c.op.id !in s.memory.active
    ensures InSync(Next(s, c), c.now)
  {
    hide InSync, Added, Swept, Unmatched, Saved, Restarted;
    SyncLater(s, before, c.now);
    HasFile(s, c.now);
    match c.op {
      case Add(subject, scope, ttl, id) => AddSync(s, subject, scope, ttl, id, c.now, c.saves);
      case Get(id) =>
        if Found(s, id, c.now).None? {
          AbsentSync(s, id, c.now);
        }
      case Delete(id) => SavedSync(s.(memory := s.memory.(active := s.memory.active - {id})), c.now);
      case Revoke(subject) => RevokeSync(s, subject, c.now);
      case Restart => RestartSync(s, c.now);
    }
  }

  lemma {:induction false} RevokeSync(s: State, sub: Subject, now: int)
    requires s.disk.Some?
    ensures InSync(RevokedBy(s, sub, now, true), now)
  {
    hide InSync, Saved, Swept, Unmatched;
    var t := Swept(s.memory, now);
    var after := if |t.revoked| >= CAPACITY then t.(active := map[])
                 else Table(Unmatched(t.active, sub), t.revoked[RevocationKey(sub) := now + SIXTY_DAYS]);
    SavedSync(s.(memory := after), now);
  }

  /** New ids are drawn at random and taken to be new. */
  ghost predicate NewIds(states: seq<State>, calls: seq<Call>)
    requires Trace(states, calls)
  {
    forall i :: 0 <= i < |calls| && calls[i].op.Add? ==>
      calls[i].op.id !in states[i].memory.active
  }

  /** No call panicked before state i since a call last wrote the file or the process last started. */
  predicate Healed(states: seq<State>, calls: seq<Call>, i: nat)
    requires i <= |calls| && |states| == |calls| + 1
  {
    if i == 0 then true
    else if Writes(states[i - 1], calls[i - 1]) || calls[i - 1].op.Restart? then true
    else !Panics(calls[i - 1]) && Healed(states, calls, i - 1)
  }

  lemma {:induction false} WriteSyncs(s: State, c: Call)
    requires s.disk.Some? && (Writes(s, c) || c.op.Restart?)
    ensures InSync(Next(s, c), c.now)
  {
    hide Writes;
    if c.op.Restart? {
      RestartSync(s, c.now);
    } else {
      FileOnlyWritten(s, c);
    }
  }

  lemma {:induction false} RunSync(states: seq<State>, calls: seq<Call>, start: int, i: nat)
    requires Trace(states, calls) && NewIds(states, calls) && i < |states| && (|calls| > 0 ==> start <= calls[0].now)
    requires InSync(states[0], start) && Healed(states, calls, i)
    ensures InSync(states[i], StartOf(calls, start, i))
  {
    hide Next, InSync, Writes;
    if i > 0 {
      KeepsFile(states, calls, i - 1);
      if Writes(states[i - 1], calls[i - 1]) || calls[i - 1].op.Restart? {
        WriteSyncs(states[i - 1], calls[i - 1]);
      } else {
        RunSync(states, calls, start, i - 1);
        NextSync(states[i - 1], calls[i - 1], StartOf(calls, start, i - 1));
      }
    }
  }

  /** Everything a call tells its caller. */
  datatype Answer = AddedAs(id: Option<string>) | FoundAs(session: Option<Session>) | Finished(panics: bool) | Started

  function Tells(s: State, c: Call): Answer {
    match c.op
    case Add(subject, scope, ttl, id) => AddedAs(Added(s, subject, scope, ttl, id, c.now, c.saves).0)
    case Get(id) => FoundAs(Found(s, id, c.now))
    case Delete(_) => Finished(SaveFails(s, c.saves))
    case Revoke(_) => Finished(SaveFails(s, c.saves))
    case Restart => Started
  }

  /** Two tables that differ only in what has expired. */
  predicate SameTable(a: Table, b: Table, now: int) {
    Alive(a.active, now) == Alive(b.active, now) && InForce(a.revoked, now) == InForce(b.revoked, now)
  }

  predicate Alike(a: State, b: State, now: int) {
    && a.disk.Some? && b.disk.Some?
    && SameTable(a.memory, b.memory, now) && SameTable(a.disk.value, b.disk.value, now)
  }

  lemma {:induction false} SameLater(a: Table, b: Table, now: int, t: int)
    requires SameTable(a, b, now) && now <= t
    ensures SameTable(a, b, t)
  {
    AliveLater(a.active, b.active, now, t);
    InForceLater(a.revoked, b.revoked, now, t);
  }

  lemma {:induction false} SameSwept(t: Table, now: int)
    ensures SameTable(Swept(t, now), t, now)
  {
    AliveTwice(t.active, now);
    InForceTwice(t.revoked, now);
  }

  /** Taking a session out of both keeps them the same. */
  lemma {:induction false} SameWithout(a: Table, b: Table, id: string, now: int)
    requires SameTable(a, b, now)
    ensures SameTable(a.(active := a.active - {id}), b.(active := b.active - {id}), now)
  {
    assert Alive(a.active - {id}, now) == Alive(a.active, now) - {id};
    assert Alive(b.active - {id}, now) == Alive(b.active, now) - {id};
  }

  lemma {:induction false} AlikeAdd(a: State, b: State, subject: Subject, scope: string, ttl: int, id: string,
        now: int, saves: bool)
    requires Alike(a, b, now)
    ensures Added(a, subject, scope, ttl, id, now, saves).0 == Added(b, subject, scope, ttl, id, now, saves).0
    ensures Alike(Added(a, subject, scope, ttl, id, now, saves).1, Added(b, subject, scope, ttl, id, now, saves).1, now)
  {
    assert Swept(a.memory, now) == Swept(b.memory, now);
    hide Alive, InForce;
    SameSwept(a.memory, now);
    SameSwept(b.memory, now);
  }

  lemma {:induction false} AlikeGet(a: State, b: State, id: string, now: int)
    requires Alike(a, b, now)
    ensures Found(a, id, now) == Found(b, id, now)
    ensures Alike(AfterGet(a, id, now), AfterGet(b, id, now), now)
  {
    FoundAlive(a, id, now);
    FoundAlive(b, id, now);
    hide Alive, InForce, Found;
    SameWithout(a.memory, b.memory, id, now);
  }

  lemma {:induction false} AlikeNext(a: State, b: State, c: Call, now: int)
    requires Alike(a, b, now) && now <= c.now
    ensures Tells(a, c) == Tells(b, c) && Alike(Next(a, c), Next(b, c), c.now)
  {
    hide Added, Found, SameTable;
    SameLater(a.memory, b.memory, now, c.now);
    SameLater(a.disk.value, b.disk.value, now, c.now);
    match c.op {
      case Add(subject, scope, ttl, id) => AlikeAdd(a, b, subject, scope, ttl, id, c.now, c.saves);
      case Get(id) => AlikeGet(a, b, id, c.now);
      case Delete(id) => SameWithout(a.memory, b.memory, id, c.now);
      case Revoke(subject) => AlikeRevoke(a, b, subject, c.now, c.saves);
      case Restart => AlikeRestart(a, b, c.now);
    }
  }

  lemma {:induction false} AlikeRevoke(a: State, b: State, sub: Subject, now: int, saves: bool)
    requires Alike(a, b, now)
    ensures Alike(RevokedBy(a, sub, now, saves), RevokedBy(b, sub, now, saves), now)
  {
    assert Swept(a.memory, now) == Swept(b.memory, now);
    hide Swept, Unmatched, Alive, InForce;
  }

  lemma {:induction false} AlikeRestart(a: State, b: State, now: int)
    requires Alike(a, b, now)
    ensures Alike(Restarted(a, now), Restarted(b, now), now)
  {
    assert Swept(a.disk.value, now) == Swept(b.disk.value, now);
    hide Swept, Alive, InForce;
  }

  lemma {:induction false} AlikeAfter(a: State, b: State, calls: seq<Call>, now: int, t: int)
    requires Alike(a, b, now) && Within(calls, now, t)
    ensures Alike(After(a, calls), After(b, calls), t)
    decreases |calls|
  {
    hide Next, Alike, Tells;
    var x, y := After(a, calls), After(b, calls);
    if calls != [] {
      var last := calls[|calls| - 1];
      AlikeAfter(a, b, calls[..|calls| - 1], now, last.now);
      AlikeNext(After(a, calls[..|calls| - 1]), After(b, calls[..|calls| - 1]), last, last.now);
    }
    AlikeLater(x, y, if calls == [] then now else calls[|calls| - 1].now, t);
  }

  lemma {:induction false} AlikeLater(a: State, b: State, now: int, t: int)
    requires Alike(a, b, now) && now <= t
    ensures Alike(a, b, t)
  {
    hide SameTable;
    SameLater(a.memory, b.memory, now, t);
    SameLater(a.disk.value, b.disk.value, now, t);
  }

  lemma {:induction false} RestartAlike(s: State, now: int)
    requires InSync(s, now)
    ensures Alike(s, Restarted(s, now), now)
  {
    SameSwept(s.disk.value, now);
  }

  lemma {:induction false} FoundAlive(s: State, id: string, t: int)
    ensures Found(s, id, t) == if id in Alive(s.memory.active, t) then Some(Alive(s.memory.active, t)[id]) else None
  {
  }

  /**
   As long as every panic was followed by a written file or a restart, one more restart is invisible: it
   changes nothing that any later call tells, however the run goes on, further restarts and failing saves
   included.
   */
  lemma {:induction false} RestartInvisible(states: seq<State>, calls: seq<Call>, start: int, i: nat, now: int,
      more: seq<Call>, c: Call)
    requires Trace(states, calls) && NewIds(states, calls) && i < |states| && (|calls| > 0 ==> start <= calls[0].now)
    requires InSync(states[0], start) && Healed(states, calls, i)
    requires StartOf(calls, start, i) <= now && Within(more, now, c.now)
    ensures states[i].disk.Some?
    ensures Tells(After(Restarted(states[i], now), more), c) == Tells(After(states[i], more), c)
  {
    hide Next, Tells, Alike, InSync, Restarted;
    RunSync(states, calls, start, i);
    var s := states[i];
    SyncLater(s, StartOf(calls, start, i), now);
    HasFile(s, now);
    RestartAlike(s, now);
    AlikeAfter(s, Restarted(s, now), more, now, c.now);
    AlikeNext(After(s, more), After(Restarted(s, now), more), c, c.now);
  }

  /** Lookups do not see a restart, at any later moment, if and only if the file held the living sessions. */
  lemma {:induction false} RestartUnseenIff(s: State, now: int)
    requires s.disk.Some?
    ensures (forall id, t :: t >= now ==> Found(Restarted(s, now), id, t) == Found(s, id, t)) <==>
              Alive(s.disk.value.active, now) == Alive(s.memory.active, now)
  {
    var (memory, disk) := (s.memory.active, s.disk.value.active);
    if forall id, t :: t >= now ==> Found(Restarted(s, now), id, t) == Found(s, id, t) {
      forall id ensures id in Alive(disk, now) <==> id in Alive(memory, now)
                ensures id in Alive(memory, now) ==> Alive(disk, now)[id] == Alive(memory, now)[id]
      {
        assert Found(Restarted(s, now), id, now) == Found(s, id, now);
      }
    }
  }

  // ---------------------------------------------------------------- inputs that show what is lost

  const NOBODY := Table(map[], map[])

  lemma {:induction false} AfterTwo(s: State, c: Call, d: Call)
    ensures After(s, [c, d]) == Next(Next(s, c), d)
  {
    hide Next;
    assert [c, d] == [c] + [d] && [d] == [d] + [];
    AfterFirst(s, c, [d]);
    AfterFirst(Next(s, c), d, []);
  }

  lemma {:induction false} NobodyUnchanged(sub: Subject)
    ensures var s := State(NOBODY, Some(NOBODY));
            Next(Next(s, Call(Revoke(sub), 1, false)), Call(Restart, 2, true)) == s
  {
    assert Swept(NOBODY, 2) == NOBODY;
  }

  /** The record is lost: revoked while the file could not be written, the subject is let in again after a restart. */
  lemma {:induction false} FailedSaveLosesRecord(sub: Subject) returns (calls: seq<Call>)
    requires sub == Subject("https://portal", "user", "sid")
    ensures Within(calls, 1, 3) && |calls| == 3 && calls[0] == Call(Revoke(sub), 1, false)
    ensures Returns(After(State(NOBODY, Some(NOBODY)), calls), sub, "cookie", 3)
  {
    hide Next;
    var s := State(NOBODY, Some(NOBODY));
    var add := Call(Add(sub, "", 1, "cookie"), 3, true);
    calls := [Call(Revoke(sub), 1, false), Call(Restart, 2, true), add];
    assert calls[..2] == [calls[0], calls[1]];
    AfterTwo(s, calls[0], calls[1]);
    NobodyUnchanged(sub);
    EmptyAdds(s, sub, "cookie", 3);
    AddIsNext(s, sub, 3);
  }

  /** And a session that was alive is back. */
  lemma {:induction false} FailedSaveResurrects(subject: Subject) returns (s: State)
    requires subject == Subject("https://portal", "user", "sid")
    ensures InSync(s, 0) && Found(s, "cookie", 1).Some?
    ensures Found(RevokedBy(s, subject, 1, false), "cookie", 1).None?
    ensures Found(Restarted(RevokedBy(s, subject, 1, false), 2), "cookie", 2) == Found(s, "cookie", 2) != None
  {
    var t := Table(map["cookie" := Session(subject, "", 3600)], map[]);
    s := State(t, Some(t));
    assert "cookie" in Alive(t.active, 2);
  }

  function Filler(n: nat, expiry: int): map<Key, int> {
    if n == 0 then map[] else Filler(n - 1, expiry)[Sub(seq(n, i => 'z')) := expiry]
  }

  lemma {:induction false} FillerFull(n: nat, expiry: int)
    ensures |Filler(n, expiry)| == n
    ensures forall k :: k in Filler(n, expiry) ==> k.Sub? && 0 < |k.id| <= n && Filler(n, expiry)[k] == expiry
    ensures forall k :: k in Filler(n, expiry) ==> k.id == seq(|k.id|, i => 'z')
  {
    if n > 0 {
      FillerFull(n - 1, expiry);
      var key := Sub(seq(n, i => 'z'));
      assert |key.id| == n;
      assert key !in Filler(n - 1, expiry);
    }
  }

  /** A revocation at capacity, saved but not recorded: once other records run out the subject is let in again. */
  lemma {:induction false} CapacityLosesRecord(n: nat, sub: Subject) returns (s: State, calls: seq<Call>)
    requires n == CAPACITY && sub == Subject("https://portal", "user", "sid")
    ensures |s.memory.revoked| == CAPACITY && s.disk == Some(s.memory)
    ensures Within(calls, 1, 10) && |calls| == 2 && calls[0] == Call(Revoke(sub), 1, true)
    ensures Returns(After(s, calls), sub, "cookie", 10)
  {
    hide Filler, Next;
    var records := Filler(n, 10);
    FillerFull(n, 10);
    var t := Table(map[], records);
    s := State(t, Some(t));
    var add := Call(Add(sub, "", 1, "cookie"), 10, true);
    calls := [Call(Revoke(sub), 1, true), add];
    AtCapacity(s, sub, 1);
    AfterTwo(s, calls[0], add);
    assert InForce(records, 10) == map[];
    EmptyAdds(s, sub, "cookie", 10);
    AddIsNext(s, sub, 10);
  }

  lemma {:induction false} AtCapacity(s: State, sub: Subject, now: int)
    requires s.memory.active == map[] && |s.memory.revoked| >= CAPACITY && s.disk == Some(s.memory)
    requires forall k :: k in s.memory.revoked ==> s.memory.revoked[k] > now
    ensures Next(s, Call(Revoke(sub), now, true)) == s
  {
    assert InForce(s.memory.revoked, now) == s.memory.revoked && Alive(map[], now) == map[];
  }

  // ---------------------------------------------------------------- deletion

  /** The promise of a deletion: the id is not found again unless a session is added under it. */
  ghost predicate Gone(s: State, id: string, now: int) {
    forall calls, t :: Within(calls, now, t) && NotAdded(calls, id) ==> Found(After(s, calls), id, t).None?
  }

  predicate NotAdded(calls: seq<Call>, id: string) {
    forall i :: 0 <= i < |calls| ==> calls[i].op.Add? ==> calls[i].op.id != id
  }

  predicate Dead(t: Table, id: string, now: int) {
    id in t.active ==> t.active[id].expires <= now
  }

  ghost predicate DeadAlways(s: State, id: string, now: int) {
    s.disk.Some? && Dead(s.memory, id, now) && Dead(s.disk.value, id, now)
  }

  lemma {:induction false} NextDead(s: State, c: Call, id: string, now: int)
    requires DeadAlways(s, id, now) && now <= c.now && (c.op.Add? ==> c.op.id != id)
    ensures DeadAlways(Next(s, c), id, c.now)
  {
  }

  lemma {:induction false} RunDead(s: State, calls: seq<Call>, id: string, now: int, t: int)
    requires DeadAlways(s, id, now) && Within(calls, now, t) && NotAdded(calls, id)
    ensures DeadAlways(After(s, calls), id, t)
    decreases |calls|
  {
    hide Next;
    if calls != [] {
      var last := calls[|calls| - 1];
      RunDead(s, calls[..|calls| - 1], id, now, last.now);
      NextDead(After(s, calls[..|calls| - 1]), last, id, last.now);
    }
  }

  /** A deletion keeps its promise if and only if the file was written or no longer held the living session. */
  lemma {:induction false} DeletionKeepsIff(s: State, id: string, now: int, saves: bool)
    requires s.disk.Some?
    ensures Gone(Deleted(s, id, saves), id, now) <==> saves || Dead(s.disk.value, id, now)
  {
    var after := Deleted(s, id, saves);
    if saves || Dead(s.disk.value, id, now) {
      forall calls, t | Within(calls, now, t) && NotAdded(calls, id) ensures Found(After(after, calls), id, t).None? {
        RunDead(after, calls, id, now, t);
      }
    } else {
      var calls := [Call(Restart, now, true)];
      RestartFirst(after, now, []);
      assert calls == calls + [];
      assert Within(calls, now, now) && NotAdded(calls, id);
      assert Found(After(after, calls), id, now).Some?;
    }
  }

  /** Such a deletion: the file could not be written, and a restart brings the session back. */
  lemma {:induction false} FailedDeleteResurrects(subject: Subject) returns (s: State)
    requires subject == Subject("https://portal", "user", "sid")
    ensures InSync(s, 0) && Found(Deleted(s, "cookie", false), "cookie", 1).None?
    ensures Found(Restarted(Deleted(s, "cookie", false), 2), "cookie", 2) == Some(Session(subject, "", 3600))
  {
    s := FailedSaveResurrects(subject);
    var t := Table(map["cookie" := Session(subject, "", 3600)], map[]);
    s := State(t, Some(t));
    assert "cookie" in Alive(t.active, 2);
  }
}
