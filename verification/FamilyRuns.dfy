/**
 Backup closure with requests in flight: entries are read, worked on and saved by many devices while other
 requests run and people join and leave in between. The tables stay acceptable all the same.
 */
module FamilyRuns {
  import opened Days
  import opened Rewards
  import opened Family
  import opened FamilyRewards
  import opened FamilyTheorems
  import opened Store
  import opened Backup
  import opened BackupTheorems
  import opened BackupRuns
  import P = FamilyProtocol

  /** One move of the whole family: a device goes on with its request, or another request runs. */
  datatype Move = Device(step: P.Step) | Request(op: Op)

  predicate IsEntryOp(op: Op) {
    op.CreateEntry? || op.EditEntry? || op.ActOnEntry?
  }

  /** Who works on an entry is signed in then, and a plan is checked against the people of then. */
  ghost predicate WorksNow(people: seq<Person>, c: Change) {
    match c
    case Act(actor, _, _, _, _) => SignedIn(people, actor)
    case Rewrite(_, _, _, roster, _, _) => roster == people
  }

  /** `earlier` are the people when a new entry was checked, which may be some moves before it is stored. */
  ghost predicate Possible(w: P.World, m: Move, earlier: seq<Person>) {
    match m
    case Request(op) => !IsEntryOp(op) && BackupRuns.Possible(w.db, op)
    case Device(step) =>
      && P.Enabled(w, step) && !step.Elsewhere?
      && (step.Work? ==> WorksNow(w.db.people, step.change))
      && (step.Create? ==> step.people == earlier && SignedIn(earlier, step.actor))
  }

  ghost function Next(w: P.World, m: Move, earlier: seq<Person>): P.World
    requires Possible(w, m, earlier) && Sound(w.db)
  {
    match m
    case Request(op) => w.(db := BackupRuns.Next(w.db, op))
    case Device(step) => P.Next(w, step)
  }

  // ---------------------------------------------------------------- what always holds

  /** Every version ever saved is acceptable among the people of now. */
  ghost predicate PastAccepted(w: P.World) {
    forall id, k :: id in w.past && 0 <= k < |w.past[id]| ==> EntryAccepted(w.past[id][k], Roles(w.db.people))
  }

  /** Every version ready to be saved may be saved among the people of now. */
  ghost predicate ReadyFits(people: seq<Person>, d: P.Device) {
    d.Ready? ==> Saveable(people, d.base, d.next) && d.next.id == d.base.id
  }

  ghost predicate AllReady(w: P.World) {
    forall n :: n in w.devices ==> ReadyFits(w.db.people, w.devices[n])
  }

  ghost predicate Good(w: P.World) {
    Healthy(w.db) && P.Sane(w) && PastAccepted(w) && AllReady(w)
  }

  lemma {:induction false} SaveableStays(before: seq<Person>, people: seq<Person>, base: Entry, e: Entry)
    requires Saveable(before, base, e) && RolesKept(Roles(before), Roles(people))
    ensures Saveable(people, base, e)
  {
    hide EntryValid, Roles;
    KnownStays(e, Roles(before), Roles(people));
  }

  lemma {:induction false} KnownStays(e: Entry, before: map<int, Role>, after: map<int, Role>)
    requires EntryKnown(e, before) && RolesKept(before, after)
    ensures EntryKnown(e, after)
  {
    forall i | 0 <= i < |e.draft.participants| ensures e.draft.participants[i] in after {
      var id := e.draft.participants[i];
      assert id in before;
    }
    forall i | 0 <= i < |e.draft.steps| && e.draft.steps[i].participant != 0 ensures e.draft.steps[i].participant in after {
      assert e.draft.steps[i].participant in before;
    }
  }

  /** Requests that are not about entries leave them alone, and everyone keeps their role. */
  lemma {:induction false} RequestLeaves(db: Db, op: Op)
    requires Healthy(db) && Sound(db) && BackupRuns.Possible(db, op) && !IsEntryOp(op)
    ensures BackupRuns.Next(db, op).entries == db.entries
    ensures RolesKept(Roles(db.people), Roles(BackupRuns.Next(db, op).people))
  {
    hide Healthy, Roles, ActiveChild, Inserted, Drawn, FindSession, OtherParent;
    match op {
      case Join(p) =>
        if Joined(db, p) != db {
          RolesAppended(db.people, p);
        }
      case Leave(at) =>
        if Left(db, at) != db {
          RolesReplaced(db.people, at, Left(db, at).people[at]);
        }
      case SaveProfile(child, profile, today) => ProfileKeeps(db, child, profile, today);
      case _ =>
    }
  }

  lemma {:induction false} RequestGood(w: P.World, op: Op)
    requires Good(w) && Sound(w.db) && BackupRuns.Possible(w.db, op) && !IsEntryOp(op)
    ensures Good(w.(db := BackupRuns.Next(w.db, op)))
  {
    hide Healthy, Roles, BackupRuns.Next, BackupRuns.Possible, P.Sane, EntryAccepted, Saveable, RolesKept;
    var db := BackupRuns.Next(w.db, op);
    var after := w.(db := db);
    StepKeepsHealthy(w.db, op);
    RequestLeaves(w.db, op);
    P.ReadSane(w, P.Elsewhere(db));
    forall id, k | id in after.past && 0 <= k < |after.past[id]|
      ensures EntryAccepted(after.past[id][k], Roles(db.people))
    {
      EntryStays(after.past[id][k], Roles(w.db.people), Roles(db.people));
    }
    forall n | n in after.devices ensures ReadyFits(db.people, after.devices[n]) {
      var d := after.devices[n];
      assert ReadyFits(w.db.people, d);
      if d.Ready? {
        SaveableStays(w.db.people, db.people, d.base, d.next);
      }
    }
  }

  /** A new version worked out among the people of now may be saved among them. */
  lemma {:induction false} WorkedSaveable(people: seq<Person>, base: Entry, c: Change)
    requires DistinctPeople(people) && EntryAccepted(base, Roles(people)) && WorksNow(people, c)
    requires After(base, c).0 == Accepted && (c.Act? ==> c.now != 0)
    ensures Saveable(people, base, After(base, c).1) && After(base, c).1.id == base.id
  {
    hide EntryAccepted, Saveable, Applied, Edited, SignedIn, Roles;
    match c {
      case Act(actor, command, today, now, _) => AppliedSaveable(people, base, actor, command, today, now);
      case Rewrite(actor, version, draft, roster, today, _) => EditedSaveable(people, base, actor, version, draft, today);
    }
  }

  lemma {:induction false} PastOf(w: P.World, base: Entry)
    requires PastAccepted(w) && P.WasSaved(w, base)
    ensures EntryAccepted(base, Roles(w.db.people))
  {
    hide EntryAccepted, Roles;
    var k :| 0 <= k < |w.past[base.id]| && w.past[base.id][k] == base;
    assert EntryAccepted(w.past[base.id][k], Roles(w.db.people));
  }

  lemma {:induction false} ReadGood(w: P.World, step: P.Step)
    requires Good(w) && (step.Load? || step.Work?) && P.Enabled(w, step)
    requires step.Work? ==> WorksNow(w.db.people, step.change)
    ensures Good(P.Next(w, step))
  {
    hide Healthy, EntryAccepted, Saveable, After, WorksNow, P.AllRemembered, P.PastStored, P.Apart, P.WasSaved, Roles;
    PeopleDistinct(w.db);
    P.ReadSane(w, step);
    var after := P.Next(w, step);
    forall n | n in after.devices ensures ReadyFits(after.db.people, after.devices[n]) {
      if n == step.n && step.Work? && After(w.devices[n].base, step.change).0 == Accepted {
        assert P.DeviceFits(w, w.devices[n]);
        PastOf(w, w.devices[n].base);
        WorkedSaveable(w.db.people, w.devices[n].base, step.change);
      } else if n != step.n {
        assert ReadyFits(w.db.people, w.devices[n]);
      }
    }
  }

  lemma {:induction false} SaveGood(w: P.World, n: int, now: int)
    requires Good(w) && P.Enabled(w, P.Save(n, now))
    ensures Good(P.Next(w, P.Save(n, now)))
  {
    hide Healthy, EntryAccepted, After, Roles, Candidates, AllInserted, P.AllRemembered, P.PastStored, P.Apart,
         P.WasSaved;
    hide P.DevicesFit, Follows;
    P.SaveSane(w, n, now);
    P.ReadyFits(w, n);
    P.SavedId(w, w.devices[n].base);
    var d, after := w.devices[n], P.Next(w, P.Save(n, now));
    assert ReadyFits(w.db.people, d);
    if SavedEntry(w.db, d.next, d.next.id, now).error == Accepted {
      P.SaveIsOnNewest(w, n, now);
      var at := FindEntry(w.db.entries, d.next.id).value;
      hide FindEntry;
      ReplacedEntry(w.db, d.next, d.next.id, now, at);
      P.RowRemembered(w, at);
      P.RememberedKeys(w, w.db.entries[at]);
      SavedAccepted(w, d.base, d.next, now);
    }
  }

  lemma {:induction false} SavedAccepted(w: P.World, base: Entry, e: Entry, now: int)
    requires Saveable(w.db.people, base, e) && e.id == base.id && base.id > 0 && now != 0
    requires PastAccepted(w) && P.WasSaved(w, base)
    ensures EntryAccepted(e.(version := base.version + 1, updated := now), Roles(w.db.people))
  {
    hide EntryValid, EntryKnown, Roles;
    PastOf(w, base);
    RestampValid(e, e.id, base.version + 1, e.created, now, Roles(w.db.people));
  }

  lemma {:induction false} CreateGood(w: P.World, step: P.Step)
    requires Good(w) && step.Create? && P.Enabled(w, step) && DistinctPeople(step.people)
    requires SignedIn(step.people, step.actor) && RolesKept(Roles(step.people), Roles(w.db.people))
    ensures Good(P.Next(w, step))
  {
    hide Healthy, EntryAccepted, Roles, Candidates, AllInserted, SignedIn, Created, Saveable, P.Sane, RolesKept,
         FindEntry;
    P.CreateSane(w, step);
    var after := P.Next(w, step);
    if after != w {
      var e := Created(step.actor, step.kind, step.draft, step.people, step.today).1;
      CreatedSaveable(step.people, step.actor, step.kind, step.draft, step.today);
      SaveableStays(step.people, w.db.people, NOTHING, e);
      AppendedEntry(w.db, e, step.newId, step.now);
      FirstAccepted(w.db.people, e, step.newId, step.now);
    }
  }

  lemma {:induction false} FirstAccepted(people: seq<Person>, e: Entry, newId: int, now: int)
    requires Saveable(people, NOTHING, e) && newId > 0 && now != 0
    ensures EntryAccepted(e.(id := newId, version := 1, created := now, updated := now), Roles(people))
  {
    hide EntryValid, EntryKnown, Roles;
    RestampValid(e, newId, 1, now, now, Roles(people));
  }

  // ---------------------------------------------------------------- runs

  /** A run of moves; a new entry is checked against the people of some earlier state. */
  ghost predicate Trace(ws: seq<P.World>, moves: seq<Move>, checked: seq<nat>) {
    && |ws| == |moves| + 1 && |checked| == |moves|
    && forall i :: 0 <= i < |moves| ==>
         && checked[i] <= i && Possible(ws[i], moves[i], ws[checked[i]].db.people)
         && (Sound(ws[i].db) ==> ws[i + 1] == Next(ws[i], moves[i], ws[checked[i]].db.people))
  }

  lemma {:induction false} MoveGood(w: P.World, m: Move, earlier: seq<Person>)
    requires Good(w) && Sound(w.db) && Possible(w, m, earlier)
    requires DistinctPeople(earlier) && RolesKept(Roles(earlier), Roles(w.db.people))
    ensures Good(Next(w, m, earlier))
    ensures RolesKept(Roles(w.db.people), Roles(Next(w, m, earlier).db.people))
  {
    hide Good, Roles, RolesKept, P.Enabled, BackupRuns.Possible, SignedIn, WorksNow;
    GoodHealthy(w);
    match m {
      case Request(op) =>
        RequestGood(w, op);
        RequestLeaves(w.db, op);
      case Device(step) =>
        match step {
          case Save(n, now) => SaveGood(w, n, now);
          case Create(_, _, _, _, _, _, _) => CreateGood(w, step);
          case _ => ReadGood(w, step);
        }
        DevicePeople(w, step);
    }
  }

  lemma {:induction false} GoodHealthy(w: P.World)
    requires Good(w)
    ensures Healthy(w.db) && Sound(w.db) && DistinctPeople(w.db.people)
  {
    hide P.Sane, PastAccepted, AllReady;
    Unfold(w.db);
    PeopleDistinct(w.db);
  }

  lemma {:induction false} DevicePeople(w: P.World, step: P.Step)
    requires P.Enabled(w, step) && !step.Elsewhere?
    ensures P.Next(w, step).db.people == w.db.people
    ensures RolesKept(Roles(w.db.people), Roles(P.Next(w, step).db.people))
  {
    hide Candidates, AllInserted, After, Created, FindEntry, Roles;
  }

  lemma {:induction false} KeptOn(a: map<int, Role>, b: map<int, Role>, c: map<int, Role>)
    requires RolesKept(a, b) && RolesKept(b, c)
    ensures RolesKept(a, c)
  {
  }

  lemma {:induction false} RunGood(ws: seq<P.World>, moves: seq<Move>, checked: seq<nat>, i: nat, k: nat)
    requires Trace(ws, moves, checked) && Good(ws[0]) && k <= i < |ws|
    ensures Good(ws[i]) && RolesKept(Roles(ws[k].db.people), Roles(ws[i].db.people))
    decreases i
  {
    hide Good, Possible, Next, Roles, Sound;
    if i > 0 {
      var earlier := ws[checked[i - 1]].db.people;
      RunGood(ws, moves, checked, i - 1, checked[i - 1]);
      RunGood(ws, moves, checked, i - 1, if k < i then k else i - 1);
      RunGood(ws, moves, checked, checked[i - 1], checked[i - 1]);
      GoodHealthy(ws[i - 1]);
      GoodHealthy(ws[checked[i - 1]]);
      MoveGood(ws[i - 1], moves[i - 1], earlier);
      if k < i {
        KeptOn(Roles(ws[k].db.people), Roles(ws[i - 1].db.people), Roles(ws[i].db.people));
      }
    }
  }

  /** Right after a restore: every row is the only version remembered of it, and no device is at work. */
  ghost predicate NothingInFlight(w: P.World) {
    && (forall k :: 0 <= k < |w.db.entries| ==>
          && w.db.entries[k].id in w.past && w.past[w.db.entries[k].id] == [w.db.entries[k]]
          && w.db.entries[k].id in w.changes && w.changes[w.db.entries[k].id] == [])
    && (forall id :: id in w.past ==> P.Stored(w.db.entries, id))
    && forall n :: n in w.devices ==> w.devices[n].Resting?
  }

  /** Profiles are saved on days of the clock, none after this one. */
  predicate SavedBy(moves: seq<Move>, n: nat, today: Day)
    requires n <= |moves|
  {
    forall k :: 0 <= k < n && moves[k].Request? && moves[k].op.SaveProfile? ==> moves[k].op.today <= today
  }

  lemma {:induction false} ProfilesMove(w: P.World, m: Move, earlier: seq<Person>, today: Day)
    requires Possible(w, m, earlier) && Sound(w.db) && ProfilesValid(w.db.people, today)
    requires m.Request? && m.op.SaveProfile? ==> m.op.today <= today
    ensures ProfilesValid(Next(w, m, earlier).db.people, today)
  {
    hide BackupRuns.Possible, BackupRuns.Next, P.Next, P.Enabled, ProfilesValid, WorksNow, SignedIn, Sound;
    match m {
      case Request(op) => ProfilesStep(w.db, op, today);
      case Device(step) => DevicePeople(w, step);
    }
  }

  lemma {:induction false} ProfilesRun(ws: seq<P.World>, moves: seq<Move>, checked: seq<nat>, i: nat, start: Day,
      today: Day)
    requires Trace(ws, moves, checked) && Good(ws[0]) && i < |ws|
    requires ProfilesValid(ws[0].db.people, start) && start <= today && SavedBy(moves, i, today)
    ensures ProfilesValid(ws[i].db.people, today)
  {
    hide Good, Possible, Next, ProfilesValid, Sound;
    if i == 0 {
      LaterProfiles(ws[0].db.people, start, today);
    } else {
      ProfilesRun(ws, moves, checked, i - 1, start, today);
      RunGood(ws, moves, checked, i - 1, i - 1);
      GoodHealthy(ws[i - 1]);
      ProfilesMove(ws[i - 1], moves[i - 1], ws[checked[i - 1]].db.people, today);
    }
  }

  /**
   From an accepted backup, however devices read, work and save while other requests run, profiles change and
   people come and go, the tables export to an accepted backup in every state, on any day up to which the
   clock has come.
   */
  lemma {:induction false} InterleavedClosure(ws: seq<P.World>, moves: seq<Move>, checked: seq<nat>, i: nat)
    requires Trace(ws, moves, checked) && Healthy(ws[0].db) && i < |ws|
    requires NothingInFlight(ws[0])
    ensures BackupValid(Export(ws[i].db))
    ensures forall start, today ::
              ProfilesValid(ws[0].db.people, start) && start <= today && SavedBy(moves, i, today) ==>
                ProfilesValid(Export(ws[i].db).people, today)
  {
    assert i <= |moves|;
    hide Trace, BackupValid, P.Sane, EntryAccepted, Roles, NothingInFlight, ProfilesValid, SavedBy;
    StartGood(ws[0]);
    forall start, today | ProfilesValid(ws[0].db.people, start) && start <= today && SavedBy(moves, i, today)
      ensures ProfilesValid(ws[i].db.people, today)
    {
      hide Good, Healthy;
      ProfilesRun(ws, moves, checked, i, start, today);
    }
    RunGood(ws, moves, checked, i, i);
    hide Good, Healthy;
    GoodHealthy(ws[i]);
    ExportValid(ws[i].db);
  }

  lemma {:induction false} ExportValid(db: Db)
    requires Healthy(db)
    ensures BackupValid(Export(db))
  {
    hide BackupValid;
  }

  lemma {:induction false} StartGood(w: P.World)
    requires Healthy(w.db)
    requires NothingInFlight(w)
    ensures Good(w)
  {
    hide Healthy, EntryAccepted, Roles, P.Sane;
    Unfold(w.db);
    P.RestoredSane(Export(w.db), w);
    forall id, k | id in w.past && 0 <= k < |w.past[id]| ensures EntryAccepted(w.past[id][k], Roles(w.db.people)) {
      assert P.Stored(w.db.entries, id);
      var i :| 0 <= i < |w.db.entries| && w.db.entries[i].id == id;
    }
  }
}
