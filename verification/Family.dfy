/**
 A family entry: a plan with its progress. Commands append events and switch flags, edits replace
 the plan, and the events of an entry follow rules that every command keeps.
 */
module Family {
  import opened Days
  import opened Rewards

  datatype Principal = Principal(id: int, role: Role)

  datatype Kind = Adventure | Habit | Value | Skill | Proposal | Council | Memory | Sport | OtherKind

  datatype EventKind = Checkin | Step | Stage | Reflection | Repeat | OtherEvent

  /** Files, clock times and sport figures are taken as already judged. */
  datatype Judged = Absent | Present(valid: bool)

  datatype PlannedStep = PlannedStep(title: string, participant: int)

  datatype Draft = Draft(
    sport: Judged, title: string, description: string, day: Day, participants: seq<int>,
    steps: seq<PlannedStep>, weekdays: seq<int>, reminder: Judged, easyVersion: string,
    value: string, agreement: string, nextActivity: string, photo: Judged, audio: Judged)

  datatype Event = Event(actor: int, kind: EventKind, day: Day, step: int, note: string, easy: bool, created: int)

  datatype Entry = Entry(
    id: int, version: int, kind: Kind, author: int, created: int, updated: int,
    archived: bool, approved: bool, draft: Draft, events: seq<Event>)

  datatype Action = Archive | Restore | Approve | Progress(kind: EventKind)

  datatype Command = Command(version: int, action: Action, day: Day, step: int, note: string, easy: bool)

  const MAX_EVENTS := 10000

  predicate IsParent(p: Principal) {
    p.id > 0 && p.role.Parent?
  }

  predicate IsMember(p: Principal) {
    p.id > 0 && (p.role.Parent? || p.role.Child?)
  }

  predicate CanEdit(e: Entry, p: Principal) {
    IsMember(p) && (IsParent(p) || (if e.kind.Sport? then e.draft.participants == [p.id] else e.author == p.id))
  }

  predicate IsSpace(c: char) {
    c == ' ' || c == '\t' || c == '\n' || c == '\r'
  }

  function TrimLeft(s: string): string {
    if s != [] && IsSpace(s[0]) then TrimLeft(s[1..]) else s
  }

  function TrimRight(s: string): string {
    if s != [] && IsSpace(s[|s| - 1]) then TrimRight(s[..|s| - 1]) else s
  }

  function Trim(s: string): (t: string)
    ensures |t| <= |s|
  {
    TrimLeftShorter(s);
    TrimRightShorter(TrimLeft(s));
    TrimRight(TrimLeft(s))
  }

  lemma {:induction false} TrimLeftShorter(s: string)
    ensures |TrimLeft(s)| <= |s|
  {
    if s != [] && IsSpace(s[0]) {
      TrimLeftShorter(s[1..]);
    }
  }

  lemma {:induction false} TrimRightShorter(s: string)
    ensures |TrimRight(s)| <= |s|
  {
    if s != [] && IsSpace(s[|s| - 1]) {
      TrimRightShorter(s[..|s| - 1]);
    }
  }

  predicate Blank(s: string) {
    Trim(s) == ""
  }

  // ---------------------------------------------------------------- valid entries

  predicate SportValid(e: Entry) {
    if e.kind.Sport?
    then e.draft.sport == Present(true) && |e.draft.participants| == 1 && ValidDay(e.draft.day)
    else e.draft.sport.Absent?
  }

  predicate TextsValid(e: Entry) {
    var d := e.draft;
    && !Blank(d.title) && |d.title| <= 160
    && |d.description| <= 4000 && |d.agreement| <= 4000 && |d.nextActivity| <= 4000 && |d.easyVersion| <= 4000
    && (e.kind.Value? ==> !Blank(d.value) && !Blank(d.description))
    && |d.value| <= 100
  }

  predicate NeedsDay(k: Kind) {
    k.Memory? || k.Council? || k.Adventure? || k.Proposal?
  }

  predicate HasSteps(k: Kind) {
    k.Adventure? || k.Proposal?
  }

  predicate PlanValid(e: Entry) {
    var d := e.draft;
    && (d.day == NO_DAY || ValidDay(d.day)) && (NeedsDay(e.kind) ==> d.day != NO_DAY)
    && |d.participants| <= 50 && |d.steps| <= 30 && |e.events| <= MAX_EVENTS
    && (HasSteps(e.kind) ==> d.steps != [])
    && (e.kind.Habit? ==> 0 < |d.weekdays| <= 7)
    && d.reminder != Present(false)
    && (!e.kind.Memory? ==> d.photo.Absent? && d.audio.Absent?)
    && d.photo != Present(false) && d.audio != Present(false)
  }

  predicate ParticipantsValid(ids: seq<int>) {
    && (forall i :: 0 <= i < |ids| ==> ids[i] > 0)
    && forall i, j :: 0 <= i < j < |ids| ==> ids[i] != ids[j]
  }

  predicate StepValid(step: PlannedStep, participants: seq<int>) {
    && !Blank(step.title) && |step.title| <= 500 && step.participant >= 0
    && (step.participant > 0 && participants != [] ==> step.participant in participants)
  }

  predicate WeekdaysValid(days: seq<int>) {
    && (forall i :: 0 <= i < |days| ==> 0 <= days[i] <= 6)
    && forall i, j :: 0 <= i < j < |days| ==> days[i] != days[j]
  }

  predicate EventValid(v: Event, steps: int) {
    && v.actor > 0 && ValidDay(v.day) && |v.note| <= 2000 && v.created != 0
    && !v.kind.OtherEvent?
    && (v.kind.Step? ==> 0 <= v.step < steps)
    && (v.kind.Stage? ==> 1 <= v.step <= 4)
  }

  ghost predicate EntryValid(e: Entry) {
    && SportValid(e) && !e.kind.OtherKind? && TextsValid(e) && PlanValid(e)
    && ParticipantsValid(e.draft.participants)
    && (forall i :: 0 <= i < |e.draft.steps| ==> StepValid(e.draft.steps[i], e.draft.participants))
    && WeekdaysValid(e.draft.weekdays)
    && forall i :: 0 <= i < |e.events| ==> EventValid(e.events[i], |e.draft.steps|)
  }

  /** Checks participants one by one, remembering who was seen. */
  method CheckParticipants(ids: seq<int>) returns (ok: bool, seen: set<int>)
    ensures ok <==> ParticipantsValid(ids)
    ensures ok ==> forall id :: id in seen <==> id in ids
  {
    seen := {};
    for i := 0 to |ids|
      invariant forall id :: id in seen <==> id in ids[..i]
      invariant ParticipantsValid(ids[..i])
    {
      if ids[i] <= 0 || ids[i] in seen {
        return false, seen;
      }
      seen := seen + {ids[i]};
    }
    assert ids[..|ids|] == ids;
    ok := true;
  }

  method CheckWeekdays(weekdays: seq<int>) returns (ok: bool)
    ensures ok <==> WeekdaysValid(weekdays)
  {
    var days: set<int> := {};
    for i := 0 to |weekdays|
      invariant forall d :: d in days <==> d in weekdays[..i]
      invariant WeekdaysValid(weekdays[..i])
    {
      if weekdays[i] < 0 || weekdays[i] > 6 || weekdays[i] in days {
        return false;
      }
      days := days + {weekdays[i]};
    }
    assert weekdays[..|weekdays|] == weekdays;
    ok := true;
  }

  method Validate(e: Entry) returns (ok: bool)
    ensures ok <==> EntryValid(e)
  {
    if !SportValid(e) || e.kind.OtherKind? || !TextsValid(e) || !PlanValid(e) {
      return false;
    }
    hide SportValid, TextsValid, PlanValid, ParticipantsValid, WeekdaysValid, Blank;
    var ids := e.draft.participants;
    var seen;
    ok, seen := CheckParticipants(ids);
    if !ok {
      return;
    }
    var steps := e.draft.steps;
    for i := 0 to |steps|
      invariant forall j :: 0 <= j < i ==> StepValid(steps[j], ids)
    {
      if Blank(steps[i].title) || |steps[i].title| > 500 || steps[i].participant < 0 {
        return false;
      }
      if steps[i].participant > 0 && |ids| > 0 && steps[i].participant !in seen {
        return false;
      }
    }
    ok := CheckWeekdays(e.draft.weekdays);
    if !ok {
      return;
    }
    for i := 0 to |e.events|
      invariant forall j :: 0 <= j < i ==> EventValid(e.events[j], |steps|)
    {
      if !EventValid(e.events[i], |steps|) {
        return false;
      }
    }
    ok := true;
  }

  // ---------------------------------------------------------------- commands

  predicate CheckedIn(events: seq<Event>, actor: int, day: Day) {
    exists i :: 0 <= i < |events| && events[i].kind.Checkin? && events[i].actor == actor && events[i].day == day
  }

  predicate StepTaken(events: seq<Event>, step: int) {
    exists i :: 0 <= i < |events| && events[i].kind.Step? && events[i].step == step
  }

  predicate Repeated(events: seq<Event>, actor: int) {
    exists i :: 0 <= i < |events| && events[i].kind.Repeat? && events[i].actor == actor
  }

  /** The highest stage an actor has reached. */
  function StageReached(events: seq<Event>, actor: int): int {
    if events == [] then 0
    else
      var before, v := StageReached(events[..|events| - 1], actor), events[|events| - 1];
      if v.kind.Stage? && v.actor == actor && v.step > before then v.step else before
  }

  function EventFor(actor: Principal, c: Command, now: int): Event
    requires c.action.Progress?
  {
    Event(actor.id, c.action.kind, c.day, c.step, Trim(c.note), c.easy, now)
  }

  /** What a progress command comes to, once the entry is open for progress. */
  function Progressed(e: Entry, actor: Principal, c: Command, now: int): (Error, Entry)
    requires c.action.Progress?
  {
    var after := e.(events := e.events + [EventFor(actor, c, now)]);
    match c.action.kind
    case Checkin =>
      if !e.kind.Habit? && !e.kind.Value? then (InvalidInput, e)
      else if CheckedIn(e.events, actor.id, c.day) then (Accepted, e) else (Accepted, after)
    case Step =>
      if !HasSteps(e.kind) || c.step < 0 || c.step >= |e.draft.steps| then (InvalidInput, e)
      else if e.draft.steps[c.step].participant > 0 && e.draft.steps[c.step].participant != actor.id then (Forbidden, e)
      else if StepTaken(e.events, c.step) then (Accepted, e) else (Accepted, after)
    case Stage =>
      if !e.kind.Skill? then (InvalidInput, e)
      else if c.step != StageReached(e.events, actor.id) + 1 || c.step > 4 then (Conflict, e)
      else (Accepted, after)
    case Reflection => if Blank(c.note) then (InvalidInput, e) else (Accepted, after)
    case Repeat => if Repeated(e.events, actor.id) then (Accepted, e) else (Accepted, after)
    case OtherEvent => (InvalidInput, e)
  }

  function Applied(e: Entry, actor: Principal, c: Command, today: Day, now: int): (Error, Entry) {
    if !IsMember(actor) then (Forbidden, e)
    else if c.version != e.version then (Conflict, e)
    else match c.action
      case Archive => if CanEdit(e, actor) then (Accepted, e.(archived := true)) else (Forbidden, e)
      case Restore => if CanEdit(e, actor) then (Accepted, e.(archived := false)) else (Forbidden, e)
      case Approve =>
        if !IsParent(actor) then (Forbidden, e)
        else if !e.kind.Proposal? || e.archived then (Conflict, e)
        else (Accepted, e.(approved := true))
      case Progress(kind) =>
        if e.archived || (e.kind.Proposal? && !e.approved) then (Conflict, e)
        else if !ValidDay(c.day) || c.day > today then (InvalidInput, e)
        else if |c.note| > 2000 || |e.events| >= MAX_EVENTS then (InvalidInput, e)
        else if !kind.Reflection? && !kind.Repeat? && e.draft.participants != [] && actor.id !in e.draft.participants
        then (Forbidden, e)
        else Progressed(e, actor, c, now)
  }

  predicate Roster(people: seq<Person>, id: int) {
    exists i :: 0 <= i < |people| && people[i].id == id && people[i].active && InFamily(people[i].role)
  }

  predicate PlanStaffed(d: Draft, people: seq<Person>) {
    && (forall i :: 0 <= i < |d.participants| ==> Roster(people, d.participants[i]))
    && forall i :: 0 <= i < |d.steps| ==> d.steps[i].participant > 0 ==> Roster(people, d.steps[i].participant)
  }

  ghost predicate Acceptable(e: Entry, people: seq<Person>, today: Day) {
    !(e.kind.Sport? && e.draft.day > today) && EntryValid(e) && PlanStaffed(e.draft, people)
  }

  predicate OwnSport(e: Entry, actor: Principal) {
    e.kind.Sport? && !IsParent(actor) ==> e.draft.participants == [actor.id]
  }

  ghost function Created(actor: Principal, kind: Kind, draft: Draft, people: seq<Person>, today: Day): (Error, Entry) {
    var k := if !IsParent(actor) && kind.Adventure? then Proposal else kind;
    var e := Entry(0, 0, k, actor.id, 0, 0, false, false, draft.(title := Trim(draft.title)), []);
    if !IsMember(actor) || !OwnSport(e, actor) then (Forbidden, e)
    else if !Acceptable(e, people, today) then (InvalidInput, e)
    else (Accepted, e)
  }

  ghost function Edited(e: Entry, actor: Principal, version: int, draft: Draft, people: seq<Person>,
      today: Day): (Error, Entry) {
    var after := e.(draft := draft.(title := Trim(draft.title)),
                    approved := e.approved && !(e.kind.Proposal? && !IsParent(actor)));
    if !IsMember(actor) || !CanEdit(e, actor) then (Forbidden, e)
    else if e.version != version || e.archived then (Conflict, e)
    else if e.events != [] && e.draft.steps != draft.steps then (Conflict, e)
    else if !OwnSport(after, actor) then (Forbidden, e)
    else if !Acceptable(after, people, today) then (InvalidInput, e)
    else (Accepted, after)
  }

  /** An entry read from the table while one request works on it. */
  class LiveEntry {
    const id: int
    const version: int
    const kind: Kind
    const author: int
    const created: int
    const updated: int
    var archived: bool
    var approved: bool
    var draft: Draft
    var events: seq<Event>

    constructor (e: Entry)
      ensures Row() == e
    {
      id, version, kind, author, created, updated := e.id, e.version, e.kind, e.author, e.created, e.updated;
      archived, approved, draft, events := e.archived, e.approved, e.draft, e.events;
    }

    function Row(): Entry
      reads this
    {
      Entry(id, version, kind, author, created, updated, archived, approved, draft, events)
    }

    method Apply(actor: Principal, c: Command, today: Day, now: int) returns (error: Error)
      modifies this`archived, this`approved, this`events
      ensures (error, Row()) == Applied(old(Row()), actor, c, today, now)
    {
      if !IsMember(actor) {
        return Forbidden;
      }
      if c.version != version {
        return Conflict;
      }
      match c.action {
        case Archive =>
          if !CanEdit(Row(), actor) { return Forbidden; }
          archived := true;
          return Accepted;
        case Restore =>
          if !CanEdit(Row(), actor) { return Forbidden; }
          archived := false;
          return Accepted;
        case Approve =>
          if !IsParent(actor) { return Forbidden; }
          if !kind.Proposal? || archived { return Conflict; }
          approved := true;
          return Accepted;
        case Progress(k) =>
          if archived || (kind.Proposal? && !approved) { return Conflict; }
          if !ValidDay(c.day) || c.day > today { return InvalidInput; }
          if |c.note| > 2000 { return InvalidInput; }
          if |events| >= MAX_EVENTS { return InvalidInput; }
          if !k.Reflection? && !k.Repeat? && |draft.participants| > 0 && actor.id !in draft.participants {
            return Forbidden;
          }
          error := Advance(actor, c, now);
      }
    }

    /** Appends a progress event unless the same progress is already recorded. */
    method Advance(actor: Principal, c: Command, now: int) returns (error: Error)
      requires c.action.Progress?
      modifies this`events
      ensures (error, Row()) == Progressed(old(Row()), actor, c, now)
    {
      match c.action.kind {
        case Checkin =>
          if !kind.Habit? && !kind.Value? { return InvalidInput; }
          for i := 0 to |events|
            invariant events == old(events)
            invariant forall j :: 0 <= j < i ==>
                        !(events[j].kind.Checkin? && events[j].actor == actor.id && events[j].day == c.day)
          {
            if events[i].kind.Checkin? && events[i].day == c.day && events[i].actor == actor.id {
              return Accepted;
            }
          }
        case Step =>
          if !HasSteps(kind) || c.step < 0 || c.step >= |draft.steps| { return InvalidInput; }
          if draft.steps[c.step].participant > 0 && draft.steps[c.step].participant != actor.id { return Forbidden; }
          for i := 0 to |events|
            invariant events == old(events)
            invariant forall j :: 0 <= j < i ==> !(events[j].kind.Step? && events[j].step == c.step)
          {
            if events[i].kind.Step? && events[i].step == c.step { return Accepted; }
          }
        case Stage =>
          if !kind.Skill? { return InvalidInput; }
          var stage := 0;
          for i := 0 to |events|
            invariant events == old(events)
            invariant stage == StageReached(events[..i], actor.id)
          {
            assert events[..i + 1][..i] == events[..i];
            if events[i].kind.Stage? && events[i].actor == actor.id && events[i].step > stage {
              stage := events[i].step;
            }
          }
          assert events[..|events|] == events;
          if c.step != stage + 1 || c.step > 4 { return Conflict; }
        case Reflection =>
          if Trim(c.note) == "" { return InvalidInput; }
        case Repeat =>
          for i := 0 to |events|
            invariant events == old(events)
            invariant forall j :: 0 <= j < i ==> !(events[j].kind.Repeat? && events[j].actor == actor.id)
          {
            if events[i].kind.Repeat? && events[i].actor == actor.id { return Accepted; }
          }
        case OtherEvent => return InvalidInput;
      }
      events := events + [EventFor(actor, c, now)];
      error := Accepted;
    }

    /** Replaces the plan, unless progress already depends on its steps; tells whether it may be saved. */
    method Edit(actor: Principal, expected: int, newDraft: Draft, people: seq<Person>,
          today: Day) returns (error: Error)
      modifies this`approved, this`draft
      ensures error == Edited(old(Row()), actor, expected, newDraft, people, today).0
      ensures error == Accepted ==> Row() == Edited(old(Row()), actor, expected, newDraft, people, today).1
    {
      if !IsMember(actor) || !CanEdit(Row(), actor) { return Forbidden; }
      if version != expected || archived { return Conflict; }
      if |events| > 0 {
        if |draft.steps| != |newDraft.steps| { return Conflict; }
        for i := 0 to |draft.steps|
          invariant draft.steps[..i] == newDraft.steps[..i]
        {
          if draft.steps[i] != newDraft.steps[i] { return Conflict; }
        }
        assert draft.steps[..|draft.steps|] == draft.steps && newDraft.steps[..|draft.steps|] == newDraft.steps;
      }
      draft := newDraft.(title := Trim(newDraft.title));
      if kind.Proposal? && !IsParent(actor) {
        approved := false;
      }
      if kind.Sport? && !IsParent(actor) && (|draft.participants| != 1 || draft.participants[0] != actor.id) {
        return Forbidden;
      }
      var ok := CheckPlan(Row(), people, today);
      error := if ok then Accepted else InvalidInput;
    }
  }

  /** Validates an entry and that everyone named in it is an active member of the family. */
  method CheckPlan(e: Entry, people: seq<Person>, today: Day) returns (ok: bool)
    ensures ok <==> Acceptable(e, people, today)
  {
    if e.kind.Sport? && e.draft.day > today {
      return false;
    }
    ok := Validate(e);
    if !ok {
      return;
    }
    hide EntryValid, Roster;
    var ids := e.draft.participants;
    for i := 0 to |ids|
      invariant forall j :: 0 <= j < i ==> Roster(people, ids[j])
    {
      if !Roster(people, ids[i]) { return false; }
    }
    var steps := e.draft.steps;
    for i := 0 to |steps|
      invariant forall j :: 0 <= j < i ==> steps[j].participant > 0 ==> Roster(people, steps[j].participant)
    {
      if steps[i].participant > 0 && !Roster(people, steps[i].participant) { return false; }
    }
  }
}
