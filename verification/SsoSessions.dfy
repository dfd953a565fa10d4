/**
 The registry of single sign-on sessions: what is in memory, what was last saved, and what each call does
 to both. A save either replaces the file or fails and leaves it. Times are in seconds.
 */
module SsoSessions {
  import opened Days

  datatype Subject = Subject(issuer: string, id: string, sessionId: string)

  datatype Session = Session(subject: Subject, scope: string, expires: int)

  /** What a revocation blocks: one session of the provider, or everything of a subject. */
  datatype Key = Sid(id: string) | Sub(id: string)

  datatype Table = Table(active: map<string, Session>, revoked: map<Key, int>)

  /** No `disk` means the registry was never given a file. */
  datatype State = State(memory: Table, disk: Option<Table>)

  const SIXTY_DAYS := 5184000
  const CAPACITY := 10000

  function Alive(active: map<string, Session>, now: int): map<string, Session> {
    map k | k in active && now < active[k].expires :: active[k]
  }

  function InForce(revoked: map<Key, int>, now: int): map<Key, int> {
    map k | k in revoked && now < revoked[k] :: revoked[k]
  }

  function Swept(t: Table, now: int): Table {
    Table(Alive(t.active, now), InForce(t.revoked, now))
  }

  function Saved(s: State, saves: bool): State {
    if saves && s.disk.Some? then s.(disk := Some(s.memory)) else s
  }

  /** A save that is needed and fails. */
  predicate SaveFails(s: State, saves: bool) {
    !saves && s.disk.Some?
  }

  function RevocationKey(sub: Subject): Key {
    if sub.sessionId == "" then Sub(sub.id) else Sid(sub.sessionId)
  }

  predicate Matches(v: Subject, sub: Subject) {
    v.issuer == sub.issuer && if sub.sessionId != "" then v.sessionId == sub.sessionId else v.id == sub.id
  }

  function Added(s: State, sub: Subject, scope: string, ttl: int, id: string, now: int,
      saves: bool): (Option<string>, State) {
    var t := Swept(s.memory, now);
    var swept := s.(memory := t);
    if ttl <= 0 || ttl > SIXTY_DAYS || sub.id == "" || sub.sessionId == ""
       || |t.active| >= CAPACITY || |t.revoked| >= CAPACITY then (None, swept)
    else if Sid(sub.sessionId) in t.revoked || Sub(sub.id) in t.revoked then (None, swept)
    else if SaveFails(s, saves) then (None, s.(memory := t.(active := t.active - {id})))
    else (Some(id), Saved(s.(memory := t.(active := t.active[id := Session(sub, scope, now + ttl)])), saves))
  }

  function Found(s: State, id: string, now: int): Option<Session> {
    if id in s.memory.active && now < s.memory.active[id].expires then Some(s.memory.active[id]) else None
  }

  function AfterGet(s: State, id: string, now: int): State {
    if Found(s, id, now).Some? then s else s.(memory := s.memory.(active := s.memory.active - {id}))
  }

  function Deleted(s: State, id: string, saves: bool): State {
    Saved(s.(memory := s.memory.(active := s.memory.active - {id})), saves)
  }

  function Unmatched(active: map<string, Session>, sub: Subject): map<string, Session> {
    map k | k in active && !Matches(active[k].subject, sub) :: active[k]
  }

  /** At capacity every session is dropped and nothing is recorded. */
  function RevokedBy(s: State, sub: Subject, now: int, saves: bool): State {
    var t := Swept(s.memory, now);
    var after := if |t.revoked| >= CAPACITY then t.(active := map[])
                 else Table(Unmatched(t.active, sub), t.revoked[RevocationKey(sub) := now + SIXTY_DAYS]);
    Saved(s.(memory := after), saves)
  }

  /** A new process reads the file; it does not start unless it can save it again. */
  function Restarted(s: State, now: int): State
    requires s.disk.Some?
  {
    var t := Swept(s.disk.value, now);
    State(t, Some(t))
  }

  lemma {:induction false} PutAndRemove(active: map<string, Session>, id: string, v: Session)
    ensures active[id := v] - {id} == active - {id}
  {
  }

  class Sessions {
    var active: map<string, Session>
    var revoked: map<Key, int>
    var disk: Option<Table>

    function Data(): State
      reads this
    {
      State(Table(active, revoked), disk)
    }

    constructor ()
      ensures Data() == State(Table(map[], map[]), None)
    {
      active, revoked, disk := map[], map[], None;
    }

    /** Continues from a saved file, or from nothing when there is none yet. */
    constructor Persistent(file: Option<Table>, now: int)
      ensures Data() == Restarted(State(Table(map[], map[]), Some(if file.Some? then file.value else Table(map[], map[]))), now)
    {
      var read := if file.Some? then file.value else Table(map[], map[]);
      active, revoked := Alive(read.active, now), InForce(read.revoked, now);
      disk := Some(Table(Alive(read.active, now), InForce(read.revoked, now)));
    }

    method Sweep(now: int)
      modifies this`active, this`revoked
      ensures active == Alive(old(active), now) && revoked == InForce(old(revoked), now)
    {
      active := map k | k in active && now < active[k].expires :: active[k];
      revoked := map k | k in revoked && now < revoked[k] :: revoked[k];
    }

    /** Writes the file unless that fails. */
    method Save(saves: bool) returns (ok: bool)
      modifies this`disk
      ensures Data() == Saved(old(Data()), saves) && ok == !SaveFails(old(Data()), saves)
    {
      if disk.None? {
        return true;
      }
      if saves {
        disk := Some(Table(active, revoked));
      }
      ok := saves;
    }

    method AddFor(sub: Subject, scope: string, ttl: int, id: string, now: int,
          saves: bool) returns (added: Option<string>)
      modifies this
      ensures (added, Data()) == Added(old(Data()), sub, scope, ttl, id, now, saves)
    {
      hide Alive, InForce;
      Sweep(now);
      if ttl <= 0 || ttl > SIXTY_DAYS || sub.id == "" || sub.sessionId == "" || |active| >= CAPACITY || |revoked| >= CAPACITY {
        return None;
      }
      if Sid(sub.sessionId) in revoked {
        return None;
      }
      if Sub(sub.id) in revoked {
        return None;
      }
      PutAndRemove(active, id, Session(sub, scope, now + ttl));
      active := active[id := Session(sub, scope, now + ttl)];
      var ok := Save(saves);
      if !ok {
        active := active - {id};
        return None;
      }
      added := Some(id);
    }

    method Get(id: string, now: int) returns (v: Option<Session>)
      modifies this`active
      ensures v == Found(old(Data()), id, now) && Data() == AfterGet(old(Data()), id, now)
    {
      if id !in active || now >= active[id].expires {
        active := active - {id};
        return None;
      }
      v := Some(active[id]);
    }

    /** A failed save is a panic: the change stays in memory, the file keeps the old state. */
    method Delete(id: string, saves: bool) returns (panics: bool)
      modifies this
      ensures Data() == Deleted(old(Data()), id, saves) && panics == SaveFails(old(Data()), saves)
    {
      active := active - {id};
      var ok := Save(saves);
      panics := !ok;
    }

    method Revoke(sub: Subject, now: int, saves: bool) returns (panics: bool)
      modifies this
      ensures Data() == RevokedBy(old(Data()), sub, now, saves) && panics == SaveFails(old(Data()), saves)
    {
      Sweep(now);
      if |revoked| >= CAPACITY {
        active := map[];
      } else {
        var key := Sid(sub.sessionId);
        if sub.sessionId == "" {
          key := Sub(sub.id);
        }
        revoked := revoked[key := now + SIXTY_DAYS];
        active := map k | k in active && !Matches(active[k].subject, sub) :: active[k];
      }
      var ok := Save(saves);
      panics := !ok;
    }
  }
}
