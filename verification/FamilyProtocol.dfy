/**
 Many devices on one family: each request reads an entry, works on its copy and saves it, with the
 requests of all devices interleaved freely. The version check makes every save a step on the newest version.
 */
module FamilyProtocol {
  import opened Days
  import opened Rewards
  import opened Family
  import opened FamilyRewards
  import opened FamilyTheorems
  import opened Store
  import Backup

  /** A request on its way: nothing read yet, an entry read, or a new version ready to be saved. */
  datatype Device = Resting | Holding(base: Entry) | Ready(base: Entry, change: Change, next: Entry)

  /** The tables, every version ever saved of each entry, and the change that led to it. */
  datatype World = World(db: Db, past: map<int, seq<Entry>>, changes: map<int, seq<Change>>, devices: map<int, Device>)

  datatype Step =
    | Load(n: int, id: int)
    | Work(n: int, change: Change)
    | Save(n: int, now: int)
    | Create(actor: Principal, kind: Kind, draft: Draft, people: seq<Person>, today: Day, newId: int, now: int)
    | Elsewhere(db: Db)

  ghost predicate Enabled(w: World, step: Step) {
    match step
    case Load(n, id) => n in w.devices && FindEntry(w.db.entries, id).Some?
    case Work(n, change) => n in w.devices && w.devices[n].Holding? && (change.Act? ==> change.now != 0)
    case Save(n, now) => n in w.devices && w.devices[n].Ready? && now != 0
    case Create(_, _, _, _, _, newId, now) => newId > 0 && now != 0
    case Elsewhere(db) => db.entries == w.db.entries
  }

  /** The change as it is remembered, with the time of its save. */
  function SavedAt(c: Change, now: int): Change {
    match c
    case Act(actor, command, today, at, _) => Act(actor, command, today, at, now)
    case Rewrite(actor, version, draft, people, today, _) => Rewrite(actor, version, draft, people, today, now)
  }

  ghost function Next(w: World, step: Step): World
    requires Enabled(w, step)
  {
    match step
    case Load(n, id) =>
      w.(devices := w.devices[n := Holding(w.db.entries[FindEntry(w.db.entries, id).value])])
    case Work(n, change) =>
      var base := w.devices[n].base;
      var (error, after) := After(base, change);
      w.(devices := w.devices[n := if error == Accepted then Ready(base, change, after) else Resting])
    case Save(n, now) =>
      var d := w.devices[n];
      var saved := SavedEntry(w.db, d.next, d.next.id, now);
      var id := d.next.id;
      if saved.error != Accepted || id !in w.past || id !in w.changes then w.(devices := w.devices[n := Resting])
      else World(saved.db, w.past[id := w.past[id] + [saved.value]],
                 w.changes[id := w.changes[id] + [SavedAt(d.change, now)]], w.devices[n := Resting])
    case Create(actor, kind, draft, people, today, newId, now) =>
      var (error, e) := Created(actor, kind, draft, people, today);
      if error != Accepted || FindEntry(w.db.entries, newId).Some? then w
      else
        var saved := SavedEntry(w.db, e, newId, now);
        w.(db := saved.db, past := w.past[newId := [saved.value]], changes := w.changes[newId := []])
    case Elsewhere(db) => w.(db := db)
  }

  // ---------------------------------------------------------------- what always holds

  /** An entry's remembered versions are a proper history that ends in the stored row. */
  ghost predicate Remembered(w: World, e: Entry) {
    && e.id in w.past && e.id in w.changes && Chain(w.past[e.id], w.changes[e.id])
    && w.past[e.id][|w.past[e.id]| - 1] == e && w.past[e.id][0].id == e.id
  }

  /** What a device read is a version that was saved. */
  ghost predicate WasSaved(w: World, base: Entry) {
    base.id in w.past && base in w.past[base.id]
  }

  ghost predicate DeviceFits(w: World, d: Device) {
    && (d.Holding? ==> WasSaved(w, d.base))
    && (d.Ready? ==> WasSaved(w, d.base) && After(d.base, d.change) == (Accepted, d.next)
                     && (d.change.Act? ==> d.change.now != 0))
  }

  ghost predicate AllRemembered(w: World) {
    forall i :: 0 <= i < |w.db.entries| ==> Remembered(w, w.db.entries[i])
  }

  predicate Apart(entries: seq<Entry>) {
    forall i, j :: 0 <= i < j < |entries| ==> entries[i].id != entries[j].id
  }

  predicate Stored(entries: seq<Entry>, id: int) {
    exists i :: 0 <= i < |entries| && entries[i].id == id
  }

  /** Nothing is remembered of an entry that is not in the table. */
  ghost predicate PastStored(w: World) {
    forall id :: id in w.past ==> Stored(w.db.entries, id)
  }

  ghost predicate DevicesFit(w: World) {
    forall n :: n in w.devices ==> DeviceFits(w, w.devices[n])
  }

  ghost predicate Sane(w: World) {
    AllRemembered(w) && Apart(w.db.entries) && PastStored(w) && DevicesFit(w)
  }

  /** A version number names one version of a history. */
  lemma {:induction false} VersionNames(h: seq<Entry>, cs: seq<Change>, base: Entry)
    requires Chain(h, cs) && base in h && base.version == h[|h| - 1].version
    ensures base == h[|h| - 1]
  {
    hide Follows, EntryValid;
    var i :| 0 <= i < |h| && h[i] == base;
    ChainKeeps(h, cs, i, i);
    ChainKeeps(h, cs, |h| - 1, |h| - 1);
  }

  /** An accepted change keeps the entry's identity and version, which the save then moves on. */
  lemma {:induction false} AfterKeepsIdentity(e: Entry, c: Change)
    requires After(e, c).0 == Accepted
    ensures var next := After(e, c).1;
            next.id == e.id && next.version == e.version && next.author == e.author && next.created == e.created
  {
    hide CanEdit, EntryValid, PlanStaffed, CheckedIn, StepTaken, Repeated, StageReached;
  }

  lemma {:induction false} SavedFollows(e: Entry, c: Change, now: int)
    requires After(e, c).0 == Accepted && (c.Act? ==> c.now != 0)
    ensures Follows(e, SavedAt(c, now), After(e, c).1.(version := e.version + 1, updated := now))
  {
    hide Applied, Edited;
  }

  lemma {:induction false} ChainGrows(h: seq<Entry>, cs: seq<Change>, c: Change, next: Entry)
    requires Chain(h, cs) && Follows(h[|h| - 1], c, next)
    ensures Chain(h + [next], cs + [c])
  {
    hide Follows, Fresh;
  }

  /**
   A save that is accepted was computed from the newest version: the version the device read is the
   version in the table, whatever was saved in between. It pays exactly what the new version newly earns.
   */
  lemma {:induction false} SaveIsOnNewest(w: World, n: int, now: int)
    requires Sane(w) && n in w.devices && w.devices[n].Ready?
    requires SavedEntry(w.db, w.devices[n].next, w.devices[n].next.id, now).error == Accepted
    requires w.devices[n].next.id != 0
    ensures var (d, at) := (w.devices[n], FindEntry(w.db.entries, w.devices[n].next.id));
            && at.Some? && w.db.entries[at.value] == d.base
            && SavedEntry(w.db, d.next, d.next.id, now).value == d.next.(version := d.base.version + 1, updated := now)
            && Follows(d.base, SavedAt(d.change, now), SavedEntry(w.db, d.next, d.next.id, now).value)
            && SavedEntry(w.db, d.next, d.next.id, now).db.rewards
                 == AllInserted(w.db.people, w.db.rewards, Candidates(d.base, SavedEntry(w.db, d.next, d.next.id, now).value))
  {
    hide After, Follows, Chain, Candidates, AllInserted;
    var d := w.devices[n];
    assert DeviceFits(w, d);
    AfterKeepsIdentity(d.base, d.change);
    var at := FindEntry(w.db.entries, d.next.id).value;
    assert Remembered(w, w.db.entries[at]);
    VersionNames(w.past[d.base.id], w.changes[d.base.id], d.base);
    SavedFollows(d.base, d.change, now);
  }

  lemma {:induction false} SavedId(w: World, base: Entry)
    requires Sane(w) && WasSaved(w, base)
    ensures base.id > 0
  {
    hide EntryValid, Follows;
    var i :| 0 <= i < |w.db.entries| && w.db.entries[i].id == base.id;
    assert Remembered(w, w.db.entries[i]);
  }

  /** What devices hold stays saved when more versions are saved. */
  lemma {:induction false} DevicesStayFit(w: World, after: World)
    requires DevicesFit(w)
    requires forall id :: id in w.past ==> id in after.past && w.past[id] <= after.past[id]
    requires forall n :: n in after.devices ==> after.devices[n].Resting? || (n in w.devices && after.devices[n] == w.devices[n])
    ensures DevicesFit(after)
  {
    hide After;
    forall n | n in after.devices ensures DeviceFits(after, after.devices[n]) {
      var d := after.devices[n];
      if !d.Resting? {
        assert DeviceFits(w, d);
        var k :| 0 <= k < |w.past[d.base.id]| && w.past[d.base.id][k] == d.base;
        assert after.past[d.base.id][k] == d.base;
      }
    }
  }

  /** The world after a save that was accepted. */
  lemma {:induction false} AcceptedSave(w: World, n: int, now: int, at: nat, saved: Entry, change: Change, after: World)
    requires Sane(w) && n in w.devices && at < |w.db.entries|
    requires saved.id == w.db.entries[at].id && Follows(w.db.entries[at], change, saved)
    requires Remembered(w, w.db.entries[at])
    requires after.db.entries == w.db.entries[at := saved]
    requires after.past == w.past[saved.id := w.past[saved.id] + [saved]]
    requires after.changes == w.changes[saved.id := w.changes[saved.id] + [change]]
    requires after.devices == w.devices[n := Resting]
    ensures Sane(after)
  {
    hide Follows, Chain, DevicesFit, Remembered, AllRemembered, PastStored, Stored;
    SavedRemembered(w, at, saved, change, after);
    assert saved.id in w.past && saved.id in w.changes by { RememberedKeys(w, w.db.entries[at]); }
    DevicesStayFit(w, after);
    StillStored(w, at, saved, after);
  }

  lemma {:induction false} SavedRemembered(w: World, at: nat, saved: Entry, change: Change, after: World)
    requires AllRemembered(w) && Apart(w.db.entries) && at < |w.db.entries|
    requires saved.id == w.db.entries[at].id && Follows(w.db.entries[at], change, saved)
    requires Remembered(w, w.db.entries[at])
    requires after.db.entries == w.db.entries[at := saved]
    requires after.past == w.past[saved.id := w.past[saved.id] + [saved]]
    requires after.changes == w.changes[saved.id := w.changes[saved.id] + [change]]
    ensures AllRemembered(after)
  {
    hide Follows, Chain;
    ChainGrows(w.past[saved.id], w.changes[saved.id], change, saved);
    ChainNotEmpty(w.past[saved.id], w.changes[saved.id]);
    forall i | 0 <= i < |after.db.entries| ensures Remembered(after, after.db.entries[i]) {
      assert Remembered(w, w.db.entries[i]);
      assert i != at ==> w.db.entries[i].id != saved.id;
    }
  }

  lemma {:induction false} StillStored(w: World, at: nat, saved: Entry, after: World)
    requires PastStored(w) && at < |w.db.entries| && saved.id == w.db.entries[at].id
    requires after.db.entries == w.db.entries[at := saved]
    requires forall id :: id in after.past ==> id in w.past || id == saved.id
    ensures PastStored(after)
  {
    forall id | id in after.past ensures Stored(after.db.entries, id) {
      if id == saved.id {
        assert after.db.entries[at].id == id;
      } else {
        assert Stored(w.db.entries, id);
        var i :| 0 <= i < |w.db.entries| && w.db.entries[i].id == id;
        assert after.db.entries[i].id == id;
      }
    }
  }

  lemma {:induction false} SaveSane(w: World, n: int, now: int)
    requires Sane(w) && Enabled(w, Save(n, now))
    ensures Sane(Next(w, Save(n, now)))
  {
    hide After, Follows, Chain, Candidates, AllInserted, DeviceFits, Apart, PastStored, AllRemembered, DevicesFit,
         Remembered;
    var d := w.devices[n];
    var after := Next(w, Save(n, now));
    ReadyFits(w, n);
    SavedId(w, d.base);
    if SavedEntry(w.db, d.next, d.next.id, now).error == Accepted {
      SaveIsOnNewest(w, n, now);
      var at := FindEntry(w.db.entries, d.next.id).value;
      RowRemembered(w, at);
      assert d.next.id in w.past && d.next.id in w.changes by { RememberedKeys(w, w.db.entries[at]); }
      AcceptedSave(w, n, now, at, SavedEntry(w.db, d.next, d.next.id, now).value, SavedAt(d.change, now), after);
    } else {
      DevicesStayFit(w, after);
      SameRemembered(w, after);
    }
  }

  lemma {:induction false} RowRemembered(w: World, at: nat)
    requires AllRemembered(w) && at < |w.db.entries|
    ensures Remembered(w, w.db.entries[at])
  {
  }

  lemma {:induction false} RememberedKeys(w: World, e: Entry)
    requires Remembered(w, e)
    ensures e.id in w.past && e.id in w.changes
  {
  }

  lemma {:induction false} SameRemembered(w: World, after: World)
    requires after.db.entries == w.db.entries && after.past == w.past && after.changes == w.changes
    ensures AllRemembered(w) ==> AllRemembered(after)
    ensures PastStored(w) ==> PastStored(after)
  {
    hide Chain;
    if AllRemembered(w) {
      forall i | 0 <= i < |after.db.entries| ensures Remembered(after, after.db.entries[i]) {
        assert Remembered(w, w.db.entries[i]);
      }
    }
  }

  lemma {:induction false} ChainNotEmpty(h: seq<Entry>, cs: seq<Change>)
    requires Chain(h, cs)
    ensures |h| > 0
  {
  }

  lemma {:induction false} ReadyFits(w: World, n: int)
    requires Sane(w) && n in w.devices && w.devices[n].Ready?
    ensures WasSaved(w, w.devices[n].base) && w.devices[n].next.id == w.devices[n].base.id
  {
    hide After, Chain;
    assert DeviceFits(w, w.devices[n]);
    AfterKeepsIdentity(w.devices[n].base, w.devices[n].change);
  }

  lemma {:induction false} CreatedFresh(actor: Principal, kind: Kind, draft: Draft, people: seq<Person>,
      today: Day, newId: int, now: int)
    requires Created(actor, kind, draft, people, today).0 == Accepted && newId > 0
    ensures var e := Created(actor, kind, draft, people, today).1;
            e.id == 0 && Fresh(e.(id := newId, version := 1, created := now, updated := now))
  {
    hide StepValid, ParticipantsValid, WeekdaysValid, Blank, Roster, PlanStaffed, OwnSport;
  }

  /** The world after a new entry was stored. */
  lemma {:induction false} AcceptedCreate(w: World, saved: Entry, after: World)
    requires Sane(w) && Fresh(saved) && !Stored(w.db.entries, saved.id)
    requires after.db.entries == w.db.entries + [saved]
    requires after.past == w.past[saved.id := [saved]] && after.changes == w.changes[saved.id := []]
    requires after.devices == w.devices
    ensures Sane(after)
  {
    hide Follows, Chain, DevicesFit, Fresh;
    FirstVersion(saved);
    assert saved.id !in w.past;
    forall i | 0 <= i < |after.db.entries| ensures Remembered(after, after.db.entries[i]) {
      if i < |w.db.entries| {
        assert Remembered(w, w.db.entries[i]);
        assert w.db.entries[i].id != saved.id;
      }
    }
    DevicesStayFit(w, after);
    forall id | id in after.past ensures Stored(after.db.entries, id) {
      if id == saved.id {
        assert after.db.entries[|w.db.entries|].id == id;
      } else {
        assert Stored(w.db.entries, id);
        var i :| 0 <= i < |w.db.entries| && w.db.entries[i].id == id;
        assert after.db.entries[i].id == id;
      }
    }
    assert forall i :: 0 <= i < |w.db.entries| ==> w.db.entries[i].id != saved.id;
  }

  lemma {:induction false} FirstVersion(saved: Entry)
    requires Fresh(saved)
    ensures Chain([saved], [])
  {
  }

  lemma {:induction false} CreateSane(w: World, step: Step)
    requires Sane(w) && step.Create? && Enabled(w, step)
    ensures Sane(Next(w, step))
  {
    hide Follows, Candidates, AllInserted, DeviceFits, Created, Fresh, Sane;
    var after := Next(w, step);
    if after != w {
      CreatedFresh(step.actor, step.kind, step.draft, step.people, step.today, step.newId, step.now);
      var e := Created(step.actor, step.kind, step.draft, step.people, step.today).1;
      var saved := e.(id := step.newId, version := 1, created := step.now, updated := step.now);
      AcceptedCreate(w, saved, after);
    }
  }

  lemma {:induction false} LoadedFits(w: World, step: Step)
    requires Sane(w) && step.Load? && Enabled(w, step)
    ensures DevicesFit(Next(w, step))
  {
    hide After, Chain;
    var after := Next(w, step);
    var at := FindEntry(w.db.entries, step.id).value;
    assert Remembered(w, w.db.entries[at]);
    ChainNotEmpty(w.past[step.id], w.changes[step.id]);
    forall n | n in after.devices ensures DeviceFits(after, after.devices[n]) {
      assert n != step.n ==> DeviceFits(w, w.devices[n]);
    }
  }

  lemma {:induction false} WorkedFits(w: World, step: Step)
    requires Sane(w) && step.Work? && Enabled(w, step)
    ensures DevicesFit(Next(w, step))
  {
    hide After, Remembered;
    var after := Next(w, step);
    forall n | n in after.devices ensures DeviceFits(after, after.devices[n]) {
      assert n in w.devices && DeviceFits(w, w.devices[n]);
    }
  }

  lemma {:induction false} ReadSane(w: World, step: Step)
    requires Sane(w) && (step.Load? || step.Work? || step.Elsewhere?) && Enabled(w, step)
    ensures Sane(Next(w, step))
  {
    hide After, AllRemembered, PastStored, Apart, DevicesFit;
    SameRemembered(w, Next(w, step));
    match step {
      case Load(_, _) => LoadedFits(w, step);
      case Work(_, _) => WorkedFits(w, step);
      case Elsewhere(_) => DevicesStayFit(w, Next(w, step));
    }
  }

  ghost predicate Trace(ws: seq<World>, steps: seq<Step>) {
    |ws| == |steps| + 1 && forall i :: 0 <= i < |steps| ==>
      Enabled(ws[i], steps[i]) && ws[i + 1] == Next(ws[i], steps[i])
  }

  lemma {:induction false} AlwaysSane(ws: seq<World>, steps: seq<Step>, i: nat)
    requires Trace(ws, steps) && Sane(ws[0]) && i < |ws|
    ensures Sane(ws[i])
  {
    hide Sane, Enabled, Next;
    if i > 0 {
      AlwaysSane(ws, steps, i - 1);
      match steps[i - 1] {
        case Save(n, now) => SaveSane(ws[i - 1], n, now);
        case Create(_, _, _, _, _, _, _) => CreateSane(ws[i - 1], steps[i - 1]);
        case _ => ReadSane(ws[i - 1], steps[i - 1]);
      }
    }
  }

  /**
   No device's work is lost: whatever the interleaving, the saved versions of an entry form one chain in
   which each version is the accepted outcome of one change on the version before it, its events extend
   all earlier events, and the last version is the row in the table. If the chain begins with the first
   save, every version has the discipline of a history.
   */
  lemma {:induction false} NothingLost(ws: seq<World>, steps: seq<Step>, i: nat, at: nat, k: nat, j: nat)
    requires Trace(ws, steps) && Sane(ws[0]) && i < |ws| && at < |ws[i].db.entries|
    ensures var e := ws[i].db.entries[at];
            && e.id in ws[i].past && e.id in ws[i].changes && Chain(ws[i].past[e.id], ws[i].changes[e.id])
            && ws[i].past[e.id][|ws[i].past[e.id]| - 1] == e
    ensures var h := ws[i].past[ws[i].db.entries[at].id];
            k <= j < |h| ==>
              && h[k].events <= h[j].events && EntryValid(h[j]) && h[j].version == h[0].version + j
              && (h[k].events != [] ==> h[j].draft.steps == h[k].draft.steps)
              && (Fresh(h[0]) ==> Disciplined(h[j]))
  {
    hide Chain, Disciplined, Enabled, Next, Fresh, EntryValid;
    AlwaysSane(ws, steps, i);
    var e := ws[i].db.entries[at];
    assert Remembered(ws[i], e);
    var h, cs := ws[i].past[e.id], ws[i].changes[e.id];
    if k <= j < |h| {
      ChainKeeps(h, cs, k, j);
      if Fresh(h[0]) {
        HistoryIsChain(h, cs);
        HistoryKeeps(h, cs, k, j);
      }
    }
  }

  lemma {:induction false} StepRemembers(w: World, step: Step, id: int)
    requires Sane(w) && Enabled(w, step) && id in w.past && id in w.changes
    ensures var after := Next(w, step);
            && id in after.past && id in after.changes
            && w.past[id] <= after.past[id] && w.changes[id] <= after.changes[id]
  {
    hide After, Candidates, AllInserted, Created, AllRemembered, DevicesFit;
    assert Stored(w.db.entries, id);
  }

  /** What was saved stays saved: later states only append to the versions and changes of an entry. */
  lemma {:induction false} SavedForGood(ws: seq<World>, steps: seq<Step>, i: nat, j: nat, id: int)
    requires Trace(ws, steps) && Sane(ws[0]) && i <= j < |ws| && id in ws[i].past && id in ws[i].changes
    ensures id in ws[j].past && id in ws[j].changes
    ensures ws[i].past[id] <= ws[j].past[id] && ws[i].changes[id] <= ws[j].changes[id]
    decreases j
  {
    hide Sane, Enabled, Next;
    if i < j {
      SavedForGood(ws, steps, i, j - 1, id);
      AlwaysSane(ws, steps, j - 1);
      StepRemembers(ws[j - 1], steps[j - 1], id);
    }
  }

  /** An accepted save is the next version of its entry, then and in every later state. */
  lemma {:induction false} AcceptedStays(ws: seq<World>, steps: seq<Step>, i: nat, j: nat)
    requires Trace(ws, steps) && Sane(ws[0]) && i < j < |ws| && steps[i].Save?
    requires var d := ws[i].devices[steps[i].n];
             SavedEntry(ws[i].db, d.next, d.next.id, steps[i].now).error == Accepted
    ensures var d := ws[i].devices[steps[i].n];
            var saved := SavedEntry(ws[i].db, d.next, d.next.id, steps[i].now).value;
            && saved.id in ws[i].past && saved.id in ws[j].past
            && ws[i].past[saved.id] + [saved] <= ws[j].past[saved.id]
  {
    hide Chain, After, Candidates, AllInserted, Follows, DevicesFit, PastStored, Apart;
    var w, n := ws[i], steps[i].n;
    AlwaysSane(ws, steps, i);
    ReadyFits(w, n);
    SavedId(w, w.devices[n].base);
    SaveIsOnNewest(w, n, steps[i].now);
    var at := FindEntry(w.db.entries, w.devices[n].next.id).value;
    RowRemembered(w, at);
    RememberedKeys(w, w.db.entries[at]);
    assert ws[i + 1] == Next(w, steps[i]);
    hide Next, Enabled, Sane;
    SavedForGood(ws, steps, i + 1, j, w.devices[n].next.id);
  }

  /** The protocol may start from any accepted backup: each row is then the only version remembered of it. */
  lemma {:induction false} RestoredSane(b: Backup.Backup, w: World)
    requires Backup.FamilyValid(b) && w.db.entries == b.entries
    requires forall i :: 0 <= i < |b.entries| ==>
               && b.entries[i].id in w.past && w.past[b.entries[i].id] == [b.entries[i]]
               && b.entries[i].id in w.changes && w.changes[b.entries[i].id] == []
    requires forall id :: id in w.past ==> Stored(b.entries, id)
    requires forall n :: n in w.devices ==> w.devices[n].Resting?
    ensures Sane(w)
  {
    hide EntryValid, Backup.Roles;
    forall i | 0 <= i < |w.db.entries| ensures Remembered(w, w.db.entries[i]) {
      assert Backup.EntryAccepted(b.entries[i], Backup.Roles(b.people));
    }
  }
}
