/**
 The family's tables and the transactions on them. Each method is one transaction: when it reports
 an error, the tables are as they were.
 */
module Store {
  import opened Days
  import opened MathTypes
  import opened MathWork
  import opened MathSession
  import opened Rewards
  import opened Family
  import opened FamilyRewards

  datatype ReadingLevel = Phrases | Sentences | Advanced | OtherLevel

  datatype ReadingStart = ReadingStart(id: string, participant: int, level: ReadingLevel, created: int)

  datatype Db = Db(people: seq<Person>, sessions: seq<SessionRow>, rewards: seq<Reward>,
                   entries: seq<Entry>, starts: seq<ReadingStart>)

  /** What a transaction answers and leaves behind. */
  datatype Outcome<T> = Outcome(error: Error, value: T, db: Db)

  const READING_DAILY_STARS := 30
  const READING_STARTS := 20
  const HOURS_24 := 86400

  // ---------------------------------------------------------------- lookups

  predicate ActiveChild(people: seq<Person>, id: int) {
    exists i :: 0 <= i < |people| && people[i].id == id && people[i].active && people[i].role.Child?
  }

  predicate Active(s: SessionRow) {
    !s.closed && |s.answers| < |s.questions|
  }

  function FindSession(sessions: seq<SessionRow>, id: string, owner: int): (at: Option<nat>)
    ensures at.Some? ==> at.value < |sessions| && sessions[at.value].id == id && sessions[at.value].participant == owner
    ensures at.None? ==> forall i :: 0 <= i < |sessions| ==> !(sessions[i].id == id && sessions[i].participant == owner)
  {
    if sessions == [] then None
    else
      var last := |sessions| - 1;
      if sessions[last].id == id && sessions[last].participant == owner then Some(last)
      else FindSession(sessions[..last], id, owner)
  }

  /** The newest session of a child that still has questions to answer. */
  function FindActive(sessions: seq<SessionRow>, owner: int): (at: Option<nat>)
    ensures at.Some? ==>
      && at.value < |sessions| && sessions[at.value].participant == owner && Active(sessions[at.value])
      && forall i :: 0 <= i < |sessions| && sessions[i].participant == owner && Active(sessions[i]) ==>
           sessions[i].created <= sessions[at.value].created
    ensures at.None? ==> forall i :: 0 <= i < |sessions| ==> !(sessions[i].participant == owner && Active(sessions[i]))
  {
    if sessions == [] then None
    else
      var last := |sessions| - 1;
      var before := FindActive(sessions[..last], owner);
      if sessions[last].participant == owner && Active(sessions[last])
         && (before.None? || sessions[before.value].created <= sessions[last].created)
      then Some(last)
      else before
  }

  function FindEntry(entries: seq<Entry>, id: int): (at: Option<nat>)
    ensures at.Some? ==> at.value < |entries| && entries[at.value].id == id
    ensures at.None? ==> forall i :: 0 <= i < |entries| ==> entries[i].id != id
  {
    if entries == [] then None
    else if entries[|entries| - 1].id == id then Some(|entries| - 1)
    else FindEntry(entries[..|entries| - 1], id)
  }

  function FindReward(rs: seq<Reward>, key: RewardKey): (at: Option<nat>)
    ensures at.Some? ==> at.value < |rs| && KeyOf(rs[at.value]) == key
    ensures at.None? <==> key !in Keys(rs)
  {
    if rs == [] then None
    else if KeyOf(rs[|rs| - 1]) == key then Some(|rs| - 1)
    else
      assert rs == rs[..|rs| - 1] + [rs[|rs| - 1]];
      FindReward(rs[..|rs| - 1], key)
  }

  /** The stars one participant earned from one source on one day. */
  function LedgerStars(rs: seq<Reward>, source: Source, participant: int, day: Day): int {
    if rs == [] then 0
    else
      var r := rs[|rs| - 1];
      LedgerStars(rs[..|rs| - 1], source, participant, day)
      + if r.source == source && r.participant == participant && r.day == day then r.stars else 0
  }

  // ---------------------------------------------------------------- the ledger

  /** Adds a row for an active member of the family unless its key is taken. */
  function Inserted(people: seq<Person>, rs: seq<Reward>, r: Reward): seq<Reward> {
    if Roster(people, r.participant) && KeyOf(r) !in Keys(rs) then rs + [r] else rs
  }

  function AllInserted(people: seq<Person>, rs: seq<Reward>, more: seq<Reward>): seq<Reward> {
    if more == [] then rs
    else Inserted(people, AllInserted(people, rs, more[..|more| - 1]), more[|more| - 1])
  }

  function OperationText(op: Operation): string {
    match op
    case Plus => "+" case Minus => "-" case Multiply => "*" case Divide => ":" case OtherOperation => ""
  }

  function MathReward(s: SessionRow, index: nat): Reward
    requires index < |s.answers|
  {
    Reward(MathSource, AnswerOf(s.id, index, 0), s.participant, s.answers[index].day, s.answers[index].stars, 0,
           "Математика " + OperationText(s.settings.operation))
  }

  // ---------------------------------------------------------------- math

  function StartedMath(db: Db, row: SessionRow, allowed: bool): Outcome<SessionRow> {
    if !ActiveChild(db.people, row.participant) then Outcome(Forbidden, row, db)
    else
      var active := FindActive(db.sessions, row.participant);
      if active.Some? then Outcome(Accepted, db.sessions[active.value], db)
      else if !allowed then Outcome(Forbidden, row, db)
      else if exists i :: 0 <= i < |db.sessions| && db.sessions[i].id == row.id then Outcome(Failed, row, db)
      else Outcome(Accepted, row, db.(sessions := db.sessions + [row]))
  }

  predicate Sound(db: Db) {
    forall i :: 0 <= i < |db.sessions| ==> Runnable(db.sessions[i])
  }

  /** The answer judged, its stars cut to what is left of the day, and the ledger row for them. */
  function AnsweredMath(db: Db, owner: int, id: string, index: int, values: map<Key, int>, today: Day): (Error, Db)
    requires Sound(db)
  {
    if !ActiveChild(db.people, owner) then (Forbidden, db)
    else
      var at := FindSession(db.sessions, id, owner);
      if at.None? then (NotFound, db)
      else
        var row := db.sessions[at.value];
        var (error, after) := AfterSubmit(row, index, values, today);
        if error != Accepted || |after.answers| == |row.answers| then (error, db)
        else
          var saved := AwardedRow(after, index, LedgerStars(db.rewards, MathSource, owner, today));
          (Accepted, db.(
             sessions := db.sessions[at.value := saved],
             rewards := if saved.answers[index].stars == 0 then db.rewards
                        else Inserted(db.people, db.rewards, MathReward(saved, index))))
  }

  function FinishedMath(db: Db, owner: int, id: string): (Error, Db) {
    var at := FindSession(db.sessions, id, owner);
    if at.None? then (NotFound, db)
    else (Accepted, db.(sessions := db.sessions[at.value := db.sessions[at.value].(closed := true)]))
  }

  // ---------------------------------------------------------------- reading

  function ReadingStars(level: ReadingLevel): nat {
    match level
    case Phrases => 6 case Sentences => 9 case Advanced => 12 case OtherLevel => 0
  }

  function ReadingTitle(level: ReadingLevel): string {
    match level
    case Phrases => "Чтение · уровень 1"
    case Sentences => "Чтение · уровень 2"
    case Advanced => "Чтение · уровень 3"
    case OtherLevel => "Чтение · уровень -1"
  }

  predicate CompletionValid(id: string, level: ReadingLevel) {
    HexId(id) && ReadingStars(level) != 0
  }

  function ReadingReward(owner: int, id: string, level: ReadingLevel, earned: int, today: Day): Reward {
    var left := if READING_DAILY_STARS - earned > 0 then READING_DAILY_STARS - earned else 0;
    Reward(ReadingSource, LessonOf(id), owner, today,
           if ReadingStars(level) < left then ReadingStars(level) else left, 0, ReadingTitle(level))
  }

  predicate StartedAs(starts: seq<ReadingStart>, id: string, owner: int, level: ReadingLevel) {
    exists i :: 0 <= i < |starts| && starts[i].id == id && starts[i].participant == owner && starts[i].level == level
  }

  /** The starts left when those of one lesson of one child are gone. */
  function StartsWithout(starts: seq<ReadingStart>, id: string, owner: int): seq<ReadingStart> {
    if starts == [] then []
    else
      var last := starts[|starts| - 1];
      StartsWithout(starts[..|starts| - 1], id, owner) + if last.id == id && last.participant == owner then [] else [last]
  }

  /** The starts left when those a child made before a moment are gone. */
  function StartsSince(starts: seq<ReadingStart>, owner: int, since: int): seq<ReadingStart> {
    if starts == [] then []
    else
      var last := starts[|starts| - 1];
      StartsSince(starts[..|starts| - 1], owner, since) + if last.participant == owner && last.created < since then [] else [last]
  }

  function StartCount(starts: seq<ReadingStart>, owner: int): nat {
    if starts == [] then 0
    else StartCount(starts[..|starts| - 1], owner) + if starts[|starts| - 1].participant == owner then 1 else 0
  }

  function FindStart(starts: seq<ReadingStart>, id: string): (at: Option<nat>)
    ensures at.Some? ==> at.value < |starts| && starts[at.value].id == id
    ensures at.None? ==> forall i :: 0 <= i < |starts| ==> starts[i].id != id
  {
    if starts == [] then None
    else if starts[|starts| - 1].id == id then Some(|starts| - 1)
    else FindStart(starts[..|starts| - 1], id)
  }

  /** A lesson is paid once: repeating it returns the row it was paid with, on any later day. */
  function CompletedReading(db: Db, owner: int, id: string, level: ReadingLevel, hosted: bool,
        today: Day): Outcome<Reward> {
    var unpaid := ReadingReward(owner, id, level, 0, today);
    if !CompletionValid(id, level) then Outcome(InvalidInput, unpaid, db)
    else if !ActiveChild(db.people, owner) then Outcome(Forbidden, unpaid, db)
    else
      var at := FindReward(db.rewards, RewardKey(ReadingSource, LessonOf(id), owner));
      if at.Some? then
        var saved := db.rewards[at.value];
        if saved.title != ReadingTitle(level) then Outcome(Conflict, unpaid, db) else Outcome(Accepted, saved, db)
      else if hosted && !StartedAs(db.starts, id, owner, level) then Outcome(Forbidden, unpaid, db)
      else
        var reward := ReadingReward(owner, id, level, LedgerStars(db.rewards, ReadingSource, owner, today), today);
        Outcome(Accepted, reward, db.(rewards := Inserted(db.people, db.rewards, reward),
                                      starts := StartsWithout(db.starts, id, owner)))
  }

  function StartedReading(db: Db, owner: int, id: string, level: ReadingLevel, allowed: bool, now: int): (Error, Db) {
    if !CompletionValid(id, level) then (InvalidInput, db)
    else if !ActiveChild(db.people, owner) then (Failed, db)
    else
      var at := FindStart(db.starts, id);
      if at.Some? then
        (if db.starts[at.value].participant != owner || db.starts[at.value].level != level then Conflict else Accepted, db)
      else if !allowed then (Forbidden, db)
      else
        var recent := StartsSince(db.starts, owner, now - HOURS_24);
        if StartCount(recent, owner) >= READING_STARTS then (Conflict, db)
        else (Accepted, db.(starts := recent + [ReadingStart(id, owner, level, now)]))
  }

  // ---------------------------------------------------------------- family entries

  /** Saves an entry as its next version, unless another save came first, and pays what it newly earns. */
  function SavedEntry(db: Db, e: Entry, newId: int, now: int): Outcome<Entry> {
    if e.id == 0 then
      if FindEntry(db.entries, newId).Some? then Outcome(Failed, e, db)
      else
        var saved := e.(id := newId, version := 1, created := now, updated := now);
        Outcome(Accepted, saved, db.(entries := db.entries + [saved],
                                     rewards := AllInserted(db.people, db.rewards, Candidates(NOTHING, saved))))
    else
      var at := FindEntry(db.entries, e.id);
      if at.None? then Outcome(NotFound, e, db)
      else
        var before := db.entries[at.value];
        if before.version != e.version then Outcome(Conflict, e, db)
        else
          var saved := e.(version := e.version + 1, updated := now, author := before.author, created := before.created);
          Outcome(Accepted, saved, db.(entries := db.entries[at.value := saved],
                                       rewards := AllInserted(db.people, db.rewards, Candidates(before, saved))))
  }

  function WithProfile(p: Person, id: int, profile: Profile): Person {
    if p.id == id && p.active && p.role.Child? then p.(profile := profile) else p
  }

  function WithProfiles(people: seq<Person>, id: int, profile: Profile): seq<Person> {
    seq(|people|, i requires 0 <= i < |people| => WithProfile(people[i], id, profile))
  }

  /** A parent saves the learning profile of an active child. */
  function ProfileSaved(db: Db, id: int, profile: Profile, today: Day): (Error, Db) {
    if !ProfileValid(profile, today) then (InvalidInput, db)
    else if !ActiveChild(db.people, id) then (NotFound, db)
    else (Accepted, db.(people := WithProfiles(db.people, id, profile)))
  }

  class Tables {
    var people: seq<Person>
    var sessions: seq<SessionRow>
    var rewards: seq<Reward>
    var entries: seq<Entry>
    var starts: seq<ReadingStart>

    function Data(): Db
      reads this
    {
      Db(people, sessions, rewards, entries, starts)
    }

    constructor (db: Db)
      ensures Data() == db
    {
      people, sessions, rewards, entries, starts := db.people, db.sessions, db.rewards, db.entries, db.starts;
    }

    method InsertActivityReward(r: Reward)
      modifies this`rewards
      ensures rewards == Inserted(people, old(rewards), r)
    {
      if Roster(people, r.participant) && FindReward(rewards, KeyOf(r)).None? {
        rewards := rewards + [r];
      }
    }

    method CreateMathSession(row: SessionRow, allowed: bool) returns (e: Error, session: SessionRow)
      modifies this`sessions
      ensures Outcome(e, session, Data()) == StartedMath(old(Data()), row, allowed)
    {
      session := row;
      if !ActiveChild(people, row.participant) {
        return Forbidden, session;
      }
      var active := FindActive(sessions, row.participant);
      if active.Some? {
        return Accepted, sessions[active.value];
      }
      if !allowed {
        return Forbidden, session;
      }
      if exists i :: 0 <= i < |sessions| && sessions[i].id == row.id {
        return Failed, session;
      }
      sessions := sessions + [session];
      e := Accepted;
    }

    method AnswerMath(owner: int, id: string, index: int, values: map<Key, int>, today: Day) returns (e: Error)
      requires Sound(Data())
      modifies this`sessions, this`rewards
      ensures (e, Data()) == AnsweredMath(old(Data()), owner, id, index, values, today)
    {
      hide Expected, Workable, Roster, FindSession, NominalStars;
      if !ActiveChild(people, owner) {
        return Forbidden;
      }
      var at := FindSession(sessions, id, owner);
      if at.None? {
        return NotFound;
      }
      var session := new Session(sessions[at.value]);
      var count := |session.answers|;
      ghost var after := AfterSubmit(sessions[at.value], index, values, today).1;
      e := session.Submit(index, values, today);
      assert session.Row() == after;
      if e != Accepted {
        return;
      }
      if |session.answers| > count {
        var earned := LedgerStars(rewards, MathSource, owner, session.answers[index].day);
        var stars := session.AwardAnswer(index, earned);
        if stars != 0 {
          InsertActivityReward(MathReward(session.Row(), index));
        }
        sessions := sessions[at.value := session.Row()];
      }
    }

    method FinishMath(owner: int, id: string) returns (e: Error)
      modifies this`sessions
      ensures (e, Data()) == FinishedMath(old(Data()), owner, id)
    {
      var at := FindSession(sessions, id, owner);
      if at.None? {
        return NotFound;
      }
      sessions := sessions[at.value := sessions[at.value].(closed := true)];
      e := Accepted;
    }

    method SaveLearningProfile(id: int, profile: Profile, today: Day) returns (e: Error)
      modifies this`people
      ensures (e, Data()) == ProfileSaved(old(Data()), id, profile, today)
    {
      if !ProfileValid(profile, today) {
        return InvalidInput;
      }
      e := NotFound;
      ghost var was := people;
      for i := 0 to |people|
        invariant |people| == |was|
        invariant forall j :: i <= j < |was| ==> people[j] == was[j]
        invariant forall j :: 0 <= j < i ==> people[j] == WithProfile(was[j], id, profile)
        invariant e == if exists j :: 0 <= j < i && was[j].id == id && was[j].active && was[j].role.Child?
                       then Accepted else NotFound
      {
        if people[i].id == id && people[i].active && people[i].role.Child? {
          people := people[i := people[i].(profile := profile)];
          e := Accepted;
        }
      }
      assert people == WithProfiles(was, id, profile);
      assert e == NotFound ==> people == was;
    }

    method CompleteReading(owner: int, id: string, level: ReadingLevel, hosted: bool, today: Day)
      returns (e: Error, reward: Reward)
      modifies this`rewards, this`starts
      ensures Outcome(e, reward, Data()) == CompletedReading(old(Data()), owner, id, level, hosted, today)
    {
      hide Roster, HexId;
      reward := ReadingReward(owner, id, level, 0, today);
      if !CompletionValid(id, level) {
        return InvalidInput, reward;
      }
      if !ActiveChild(people, owner) {
        return Forbidden, reward;
      }
      var at := FindReward(rewards, RewardKey(ReadingSource, LessonOf(id), owner));
      if at.Some? {
        if rewards[at.value].title != ReadingTitle(level) {
          return Conflict, reward;
        }
        return Accepted, rewards[at.value];
      }
      if hosted && !StartedAs(starts, id, owner, level) {
        return Forbidden, reward;
      }
      var earned := LedgerStars(rewards, ReadingSource, owner, reward.day);
      reward := ReadingReward(owner, id, level, earned, today);
      InsertActivityReward(reward);
      starts := StartsWithout(starts, id, owner);
      e := Accepted;
    }

    method StartReading(owner: int, id: string, level: ReadingLevel, allowed: bool, now: int) returns (e: Error)
      modifies this`starts
      ensures (e, Data()) == StartedReading(old(Data()), owner, id, level, allowed, now)
    {
      if !CompletionValid(id, level) {
        return InvalidInput;
      }
      if !ActiveChild(people, owner) {
        return Failed;
      }
      var at := FindStart(starts, id);
      if at.Some? {
        if starts[at.value].participant != owner || starts[at.value].level != level {
          return Conflict;
        }
        return Accepted;
      }
      if !allowed {
        return Forbidden;
      }
      var recent := StartsSince(starts, owner, now - HOURS_24);
      if StartCount(recent, owner) >= READING_STARTS {
        return Conflict;
      }
      starts := recent + [ReadingStart(id, owner, level, now)];
      e := Accepted;
    }

    method SaveFamilyEntry(e: Entry, newId: int, now: int) returns (error: Error, saved: Entry)
      modifies this`entries, this`rewards
      ensures Outcome(error, saved, Data()) == SavedEntry(old(Data()), e, newId, now)
    {
      hide Roster, Candidates;
      saved := e;
      var before := NOTHING;
      if e.id != 0 {
        var at := FindEntry(entries, e.id);
        if at.None? {
          return NotFound, saved;
        }
        before := entries[at.value];
        if before.version != e.version {
          return Conflict, saved;
        }
        saved := e.(version := e.version + 1, updated := now, author := before.author, created := before.created);
        entries := entries[at.value := saved];
      } else {
        if FindEntry(entries, newId).Some? {
          return Failed, saved;
        }
        saved := e.(id := newId, version := 1, created := now, updated := now);
        entries := entries + [saved];
      }
      var candidates := FamilyRewardCandidates(before, saved);
      PayAll(candidates);
      error := Accepted;
    }

    method PayAll(more: seq<Reward>)
      modifies this`rewards
      ensures rewards == AllInserted(people, old(rewards), more)
    {
      for i := 0 to |more|
        invariant rewards == AllInserted(people, old(rewards), more[..i])
      {
        assert more[..i + 1][..i] == more[..i];
        InsertActivityReward(more[i]);
      }
      assert more[..|more|] == more;
    }
  }
}
