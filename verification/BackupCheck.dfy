/** The checks an import runs, in their own order and with their own tables, decide exactly `BackupValid`. */
module BackupCheck {
  import opened Days
  import opened MathSession
  import opened Rewards
  import opened Family
  import opened Store
  import opened Backup

  method ReadRoles(people: seq<Person>) returns (roles: map<int, Role>)
    ensures roles == Roles(people)
  {
    roles := map[];
    for i := 0 to |people|
      invariant roles == Roles(people[..i])
    {
      assert people[..i + 1][..i] == people[..i];
      roles := roles[people[i].id := people[i].role];
    }
    assert people[..|people|] == people;
  }

  // ---------------------------------------------------------------- family entries

  method ValidateEntry(e: Entry, roles: map<int, Role>) returns (ok: bool)
    ensures ok <==> EntryAccepted(e, roles)
  {
    hide EntryValid;
    if e.id <= 0 || e.version <= 0 || e.author !in roles || e.created == 0 || e.updated == 0 {
      return false;
    }
    ok := Family.Validate(e);
    if !ok {
      return;
    }
    for i := 0 to |e.draft.participants|
      invariant forall j :: 0 <= j < i ==> e.draft.participants[j] in roles
    {
      if e.draft.participants[i] !in roles { return false; }
    }
    for i := 0 to |e.draft.steps|
      invariant forall j :: 0 <= j < i ==> e.draft.steps[j].participant != 0 ==> e.draft.steps[j].participant in roles
    {
      if e.draft.steps[i].participant != 0 && e.draft.steps[i].participant !in roles { return false; }
    }
    for i := 0 to |e.events|
      invariant forall j :: 0 <= j < i ==> e.events[j].actor in roles
    {
      if e.events[i].actor !in roles { return false; }
    }
  }

  method ValidateFamily(b: Backup) returns (ok: bool)
    ensures ok <==> FamilyValid(b)
  {
    hide EntryAccepted;
    var roles := ReadRoles(b.people);
    var ids: set<int> := {};
    for i := 0 to |b.entries|
      invariant forall j :: 0 <= j < i ==> EntryAccepted(b.entries[j], roles)
      invariant DistinctEntries(b.entries[..i])
      invariant forall id :: id in ids <==> exists j :: 0 <= j < i && b.entries[j].id == id
    {
      if b.entries[i].id in ids {
        return false;
      }
      ids := ids + {b.entries[i].id};
      ok := ValidateEntry(b.entries[i], roles);
      if !ok {
        return;
      }
    }
    assert b.entries[..|b.entries|] == b.entries;
    ok := true;
  }

  // ---------------------------------------------------------------- sessions

  /** One more session with a new id, and a new owner if it has questions left. */
  lemma {:induction false} DistinctWith(sessions: seq<SessionRow>, n: nat)
    requires n < |sessions| && SessionsDistinct(sessions[..n])
    ensures SessionsDistinct(sessions[..n + 1]) <==>
              forall j :: 0 <= j < n ==>
                && sessions[j].id != sessions[n].id
                && !(Active(sessions[j]) && Active(sessions[n]) && sessions[j].participant == sessions[n].participant)
  {
    hide Active;
    var more := sessions[..n + 1];
    if SessionsDistinct(more) {
      forall j | 0 <= j < n
        ensures sessions[j].id != sessions[n].id
        ensures !(Active(sessions[j]) && Active(sessions[n]) && sessions[j].participant == sessions[n].participant)
      {
        assert more[j] == sessions[j] && more[n] == sessions[n];
      }
    }
  }

  /** A broken beginning is not mended by more sessions. */
  lemma {:induction false} DistinctPrefix(sessions: seq<SessionRow>, n: nat)
    requires n <= |sessions| && SessionsDistinct(sessions)
    ensures SessionsDistinct(sessions[..n])
  {
    hide Active;
  }

  method ValidateSessions(b: Backup, roles: map<int, Role>) returns (ok: bool, sessions: map<string, SessionRow>)
    requires roles == Roles(b.people)
    ensures ok <==> SessionsValid(b)
    ensures ok ==> forall i :: 0 <= i < |b.sessions| ==> b.sessions[i].id in sessions && sessions[b.sessions[i].id] == b.sessions[i]
    ensures ok ==> forall id :: id in sessions ==> sessions[id] in b.sessions && sessions[id].id == id
  {
    hide SessionValid, Roles, SessionsDistinct, Active;
    sessions := map[];
    var activeOwners: set<int> := {};
    NoneDistinct(b.sessions);
    for i := 0 to |b.sessions|
      invariant forall j :: 0 <= j < i ==> SessionAccepted(b.version, roles, b.sessions[j])
      invariant SessionsDistinct(b.sessions[..i])
      invariant forall j :: 0 <= j < i ==> b.sessions[j].id in sessions && sessions[b.sessions[j].id] == b.sessions[j]
      invariant forall id :: id in sessions ==> sessions[id].id == id && exists j :: 0 <= j < i && b.sessions[j] == sessions[id]
      invariant forall p :: p in activeOwners <==> exists j :: 0 <= j < i && Active(b.sessions[j]) && b.sessions[j].participant == p
    {
      var s := b.sessions[i];
      DistinctWith(b.sessions, i);
      if SessionsDistinct(b.sessions) {
        DistinctPrefix(b.sessions, i + 1);
      }
      if s.id in sessions || !IsChild(roles, s.participant) {
        return false, sessions;
      }
      ok := MathSession.Validate(s);
      if !ok {
        return;
      }
      if Active(s) {
        if s.participant in activeOwners {
          return false, sessions;
        }
        activeOwners := activeOwners + {s.participant};
      }
      if (b.version < 4 && s.rewardVersion != 0) || (b.version < 5 && s.rewardVersion == 3) {
        return false, sessions;
      }
      sessions := sessions[s.id := s];
    }
    assert b.sessions[..|b.sessions|] == b.sessions;
    ok := true;
  }

  lemma {:induction false} NoneDistinct(sessions: seq<SessionRow>)
    ensures SessionsDistinct(sessions[..0])
  {
  }

  // ---------------------------------------------------------------- the ledger

  method ReadEntries(entries: seq<Entry>) returns (byId: map<int, Entry>)
    ensures forall id :: EntryKind(entries, id) == if id in byId then byId[id].kind else OtherKind
  {
    byId := map[];
    for i := 0 to |entries|
      invariant forall id :: EntryKind(entries[..i], id) == if id in byId then byId[id].kind else OtherKind
    {
      assert entries[..i + 1][..i] == entries[..i];
      byId := byId[entries[i].id := entries[i]];
    }
    assert entries[..|entries|] == entries;
  }

  lemma {:induction false} PaidByLookup(b: Backup, sessions: map<string, SessionRow>, r: Reward)
    requires forall i :: 0 <= i < |b.sessions| ==> b.sessions[i].id in sessions && sessions[b.sessions[i].id] == b.sessions[i]
    requires forall id :: id in sessions ==> sessions[id] in b.sessions && sessions[id].id == id
    ensures Paid(b.sessions, r) <==> r.key.AnswerOf? && r.key.session in sessions && Pays(sessions[r.key.session], r)
  {
    if r.key.AnswerOf? && r.key.session in sessions && Pays(sessions[r.key.session], r) {
      var i :| 0 <= i < |b.sessions| && b.sessions[i] == sessions[r.key.session];
    }
  }

  method ValidateReward(b: Backup, roles: map<int, Role>, sessions: map<string, SessionRow>, byId: map<int,
      Entry>, r: Reward)
    returns (ok: bool)
    requires roles == Roles(b.people)
    requires forall i :: 0 <= i < |b.sessions| ==> b.sessions[i].id in sessions && sessions[b.sessions[i].id] == b.sessions[i]
    requires forall id :: id in sessions ==> sessions[id] in b.sessions && sessions[id].id == id
    requires forall id :: EntryKind(b.entries, id) == if id in byId then byId[id].kind else OtherKind
    ensures ok <==> RewardValid(b.version, roles, b.sessions, b.entries, r)
  {
    hide Roles, EntryKind, Paid, LessonFits;
    if r.participant !in roles || !InFamily(roles[r.participant]) || !ValidDay(r.day) || |r.title| > 160 {
      return false;
    }
    match r.source {
      case MathSource =>
        PaidByLookup(b, sessions, r);
        ok := r.key.AnswerOf? && r.key.session in sessions && Pays(sessions[r.key.session], r);
      case ReadingSource =>
        var valid := false;
        var levels := [Phrases, Sentences, Advanced];
        for i := 0 to 3
          invariant valid <==> exists j :: 0 <= j < i && LessonFits(r, levels[j])
        {
          if LessonFits(r, levels[i]) {
            valid := true;
          }
        }
        assert levels[0] == Phrases && levels[1] == Sentences && levels[2] == Advanced;
        ok := b.version >= 5 && IsChild(roles, r.participant) && valid && r.smiles == 0;
      case SportSource =>
        ok := r.key == DayOf(r.day) && (r.stars == 10 || (b.version >= 4 && r.stars == 30)) && r.smiles == 2;
      case HabitSource =>
        ok := && r.key.CheckinOf? && r.key.day == r.day
              && r.key.entry in byId && byId[r.key.entry].kind.Habit? && r.stars == 5 && r.smiles == 1;
      case AdventureSource =>
        ok := && r.key.EntryOf? && r.key.entry in byId
              && (byId[r.key.entry].kind.Adventure? || byId[r.key.entry].kind.Proposal?)
              && (r.stars == 20 || (b.version >= 4 && r.stars == 40)) && r.smiles == 3;
      case OtherSource =>
        ok := false;
    }
  }

  method ValidateLedger(b: Backup, roles: map<int, Role>, sessions: map<string, SessionRow>)
    returns (ok: bool, seen: set<RewardKey>)
    requires roles == Roles(b.people)
    requires forall i :: 0 <= i < |b.sessions| ==> b.sessions[i].id in sessions && sessions[b.sessions[i].id] == b.sessions[i]
    requires forall id :: id in sessions ==> sessions[id] in b.sessions && sessions[id].id == id
    ensures ok <==> LedgerValid(b)
    ensures ok ==> seen == Keys(b.rewards)
  {
    hide RewardValid, Roles, EntryKind;
    var byId := ReadEntries(b.entries);
    seen := {};
    for i := 0 to |b.rewards|
      invariant forall j :: 0 <= j < i ==> RewardValid(b.version, roles, b.sessions, b.entries, b.rewards[j])
      invariant DistinctRewards(b.rewards[..i])
      invariant forall key :: key in seen <==> exists j :: 0 <= j < i && KeyOf(b.rewards[j]) == key
    {
      var r := b.rewards[i];
      if KeyOf(r) in seen {
        return false, seen;
      }
      seen := seen + {KeyOf(r)};
      ok := ValidateReward(b, roles, sessions, byId, r);
      if !ok {
        return;
      }
    }
    assert b.rewards[..|b.rewards|] == b.rewards;
    ok := true;
  }

  method ValidatePaid(b: Backup, seen: set<RewardKey>) returns (ok: bool)
    requires seen == Keys(b.rewards)
    ensures ok <==> AnswersPaid(b)
  {
    for i := 0 to |b.sessions|
      invariant forall j :: 0 <= j < i ==> SessionPaid(b.sessions[j], seen)
    {
      var s := b.sessions[i];
      for k := 0 to |s.answers|
        invariant forall m :: 0 <= m < k ==> s.answers[m].stars > 0 ==> AnswerKey(s, s.answers[m].index) in seen
      {
        if s.answers[k].stars > 0 && AnswerKey(s, s.answers[k].index) !in seen {
          return false;
        }
      }
    }
    ok := true;
  }

  // ---------------------------------------------------------------- daily budgets

  function At(m: map<(int, Day), int>, participant: int, day: Day): int {
    if (participant, day) in m then m[(participant, day)] else 0
  }

  ghost predicate StarsNotNegative(s: SessionRow) {
    forall i :: 0 <= i < |s.answers| ==> s.answers[i].stars >= 0
  }

  lemma {:induction false} AnswerStarsGrow(answers: seq<AnswerRow>, n: nat, day: Day)
    requires n <= |answers| && forall i :: 0 <= i < |answers| ==> answers[i].stars >= 0
    ensures 0 <= AnswerStars(answers[..n], day) <= AnswerStars(answers, day)
    decreases |answers|
  {
    if n < |answers| {
      AnswerStarsGrow(answers[..|answers| - 1], n, day);
      assert answers[..|answers| - 1][..n] == answers[..n];
    } else {
      assert answers[..n] == answers;
      if n > 0 {
        AnswerStarsGrow(answers[..n - 1], n - 1, day);
        assert answers[..n - 1][..n - 1] == answers[..n - 1];
      }
    }
  }

  lemma {:induction false} MathStarsGrow(sessions: seq<SessionRow>, n: nat, scale: Scale, participant: int, day: Day)
    requires n <= |sessions| && forall i :: 0 <= i < |sessions| ==> StarsNotNegative(sessions[i])
    ensures MathStars(sessions[..n], scale, participant, day) <= MathStars(sessions, scale, participant, day)
    decreases |sessions|
  {
    if n < |sessions| {
      var s := sessions[|sessions| - 1];
      MathStarsGrow(sessions[..|sessions| - 1], n, scale, participant, day);
      assert sessions[..|sessions| - 1][..n] == sessions[..n];
      AnswerStarsGrow(s.answers, 0, day);
    } else {
      assert sessions[..n] == sessions;
    }
  }

  /** A budget broken within the first answers of the next session is broken by the whole. */
  lemma {:induction false} BrokenStaysBroken(sessions: seq<SessionRow>, n: nat, k: nat, scale: Scale,
      participant: int, day: Day)
    requires n < |sessions| && k <= |sessions[n].answers|
    requires forall i :: 0 <= i < |sessions| ==> StarsNotNegative(sessions[i])
    ensures MathStars(sessions[..n], scale, participant, day)
              + SessionStars(sessions[n].(answers := sessions[n].answers[..k]), scale, participant, day)
            <= MathStars(sessions, scale, participant, day)
  {
    AnswerStarsGrow(sessions[n].answers, k, day);
    MathStarsGrow(sessions, n + 1, scale, participant, day);
    assert sessions[..n + 1][..n] == sessions[..n];
  }

  ghost predicate Tallies(daily: map<(int, Day), int>, sessions: seq<SessionRow>, scale: Scale) {
    forall participant, day :: At(daily, participant, day) == MathStars(sessions, scale, participant, day)
  }

  /** The tally with the first answers of one more session. */
  ghost predicate TalliesPart(daily: map<(int, Day), int>, sessions: seq<SessionRow>, s: SessionRow, k: nat,
        scale: Scale)
    requires k <= |s.answers|
  {
    forall participant, day :: At(daily, participant, day)
      == MathStars(sessions, scale, participant, day) + SessionStars(s.(answers := s.answers[..k]), scale, participant, day)
  }

  lemma {:induction false} TallyOne(daily: map<(int, Day), int>, sessions: seq<SessionRow>, s: SessionRow,
      k: nat, scale: Scale)
    requires k < |s.answers| && TalliesPart(daily, sessions, s, k, scale) && Counts(scale, s.rewardVersion)
    ensures var (p, a) := (s.participant, s.answers[k]);
            TalliesPart(daily[(p, a.day) := At(daily, p, a.day) + a.stars], sessions, s, k + 1, scale)
  {
    assert s.answers[..k + 1][..k] == s.answers[..k];
  }

  lemma {:induction false} TallySkips(daily: map<(int, Day), int>, sessions: seq<SessionRow>, s: SessionRow,
      k: nat, m: nat, scale: Scale)
    requires k <= |s.answers| && m <= |s.answers| && TalliesPart(daily, sessions, s, k, scale)
             && !Counts(scale, s.rewardVersion)
    ensures TalliesPart(daily, sessions, s, m, scale)
  {
    forall participant, day ensures At(daily, participant, day)
      == MathStars(sessions, scale, participant, day) + SessionStars(s.(answers := s.answers[..m]), scale, participant, day)
    {
      assert SessionStars(s.(answers := s.answers[..k]), scale, participant, day) == 0;
    }
  }

  lemma {:induction false} TallyWhole(daily: map<(int, Day), int>, sessions: seq<SessionRow>, n: nat, scale: Scale)
    requires n < |sessions| && TalliesPart(daily, sessions[..n], sessions[n], |sessions[n].answers|, scale)
    ensures Tallies(daily, sessions[..n + 1], scale)
  {
    assert sessions[..n + 1][..n] == sessions[..n];
    var s := sessions[n];
    assert s.(answers := s.answers[..|s.answers|]) == s;
  }

  lemma {:induction false} TallyNone(daily: map<(int, Day), int>, sessions: seq<SessionRow>, s: SessionRow,
        scale: Scale)
    requires Tallies(daily, sessions, scale)
    ensures TalliesPart(daily, sessions, s, 0, scale)
  {
    assert s.answers[..0] == [];
  }

  ghost predicate AllAtMost(daily: map<(int, Day), int>, limit: int) {
    forall participant, day :: At(daily, participant, day) <= limit
  }

  lemma {:induction false} StillAtMost(daily: map<(int, Day), int>, participant: int, day: Day, stars: int, limit: int)
    requires AllAtMost(daily, limit) && stars <= limit
    ensures AllAtMost(daily[(participant, day) := stars], limit)
  {
    var after := daily[(participant, day) := stars];
    forall p, d ensures At(after, p, d) <= limit {
      assert At(daily, p, d) <= limit;
    }
  }

  /** Adds one session's answers to the tallies, stopping at the first broken budget. */
  method TallySession(sessions: seq<SessionRow>, n: nat, daily0: map<(int, Day), int>, previous0: map<(int, Day), int>)
    returns (ok: bool, daily: map<(int, Day), int>, previous: map<(int, Day), int>)
    requires n < |sessions| && forall i :: 0 <= i < |sessions| ==> StarsNotNegative(sessions[i])
    requires Tallies(daily0, sessions[..n], Budgeted) && Tallies(previous0, sessions[..n], Previous)
    requires AllAtMost(daily0, MATH_DAILY_STARS) && AllAtMost(previous0, PREVIOUS_MATH_DAILY_STARS)
    ensures !ok ==> !MathBudgetKept(sessions)
    ensures ok ==> Tallies(daily, sessions[..n + 1], Budgeted) && Tallies(previous, sessions[..n + 1], Previous)
    ensures ok ==> AllAtMost(daily, MATH_DAILY_STARS) && AllAtMost(previous, PREVIOUS_MATH_DAILY_STARS)
  {
    hide Tallies, TalliesPart, MathStars, SessionStars, StarsNotNegative;
    daily, previous := daily0, previous0;
    var s := sessions[n];
    TallyNone(daily, sessions[..n], s, Budgeted);
    TallyNone(previous, sessions[..n], s, Previous);
    if s.rewardVersion < 2 {
      TallySkips(daily, sessions[..n], s, 0, |s.answers|, Budgeted);
      TallySkips(previous, sessions[..n], s, 0, |s.answers|, Previous);
    } else {
      for k := 0 to |s.answers|
        invariant TalliesPart(daily, sessions[..n], s, k, Budgeted)
        invariant TalliesPart(previous, sessions[..n], s, k, Previous)
        invariant AllAtMost(daily, MATH_DAILY_STARS) && AllAtMost(previous, PREVIOUS_MATH_DAILY_STARS)
      {
        var a := s.answers[k];
        TallyOne(daily, sessions[..n], s, k, Budgeted);
        ghost var before, previousBefore := daily, previous;
        daily := daily[(s.participant, a.day) := At(daily, s.participant, a.day) + a.stars];
        if s.rewardVersion == 2 {
          TallyOne(previous, sessions[..n], s, k, Previous);
          previous := previous[(s.participant, a.day) := At(previous, s.participant, a.day) + a.stars];
          if At(previous, s.participant, a.day) > PREVIOUS_MATH_DAILY_STARS {
            Broken(sessions, n, k + 1, Previous, previous, s.participant, a.day);
            return false, daily, previous;
          }
          StillAtMost(previousBefore, s.participant, a.day, At(previous, s.participant, a.day), PREVIOUS_MATH_DAILY_STARS);
        } else {
          TallySkips(previous, sessions[..n], s, k, k + 1, Previous);
        }
        if At(daily, s.participant, a.day) > MATH_DAILY_STARS {
          Broken(sessions, n, k + 1, Budgeted, daily, s.participant, a.day);
          return false, daily, previous;
        }
        StillAtMost(before, s.participant, a.day, At(daily, s.participant, a.day), MATH_DAILY_STARS);
      }
    }
    TallyWhole(daily, sessions, n, Budgeted);
    TallyWhole(previous, sessions, n, Previous);
    ok := true;
  }

  lemma {:induction false} Broken(sessions: seq<SessionRow>, n: nat, k: nat, scale: Scale, tally: map<(int,
      Day), int>, participant: int, day: Day)
    requires n < |sessions| && k <= |sessions[n].answers|
    requires forall i :: 0 <= i < |sessions| ==> StarsNotNegative(sessions[i])
    requires TalliesPart(tally, sessions[..n], sessions[n], k, scale) && !scale.AllScales?
    requires At(tally, participant, day) > if scale.Previous? then PREVIOUS_MATH_DAILY_STARS else MATH_DAILY_STARS
    ensures !MathBudgetKept(sessions)
  {
    hide StarsNotNegative;
    BrokenStaysBroken(sessions, n, k, scale, participant, day);
    assert !MathWithin(sessions, participant, day);
  }

  method ValidateMathBudget(sessions: seq<SessionRow>) returns (ok: bool)
    requires forall i :: 0 <= i < |sessions| ==> StarsNotNegative(sessions[i])
    ensures ok <==> MathBudgetKept(sessions)
  {
    hide StarsNotNegative;
    var daily: map<(int, Day), int> := map[];
    var previous: map<(int, Day), int> := map[];
    for n := 0 to |sessions|
      invariant Tallies(daily, sessions[..n], Budgeted) && Tallies(previous, sessions[..n], Previous)
      invariant AllAtMost(daily, MATH_DAILY_STARS) && AllAtMost(previous, PREVIOUS_MATH_DAILY_STARS)
    {
      ok, daily, previous := TallySession(sessions, n, daily, previous);
      if !ok {
        return;
      }
    }
    ok := true;
    assert sessions[..|sessions|] == sessions;
    forall participant, day ensures MathWithin(sessions, participant, day) {
      assert At(daily, participant, day) <= MATH_DAILY_STARS;
      assert At(previous, participant, day) <= PREVIOUS_MATH_DAILY_STARS;
    }
  }

  lemma {:induction false} LedgerStarsGrow(rs: seq<Reward>, n: nat, participant: int, day: Day)
    requires n <= |rs|
    requires forall i :: 0 <= i < |rs| && rs[i].source.ReadingSource? ==> rs[i].stars >= 0
    ensures LedgerStars(rs[..n], ReadingSource, participant, day) <= LedgerStars(rs, ReadingSource, participant, day)
    decreases |rs|
  {
    if n < |rs| {
      LedgerStarsGrow(rs[..|rs| - 1], n, participant, day);
      assert rs[..|rs| - 1][..n] == rs[..n];
    } else {
      assert rs[..n] == rs;
    }
  }

  method ValidateReadingBudget(rs: seq<Reward>) returns (ok: bool)
    requires forall i :: 0 <= i < |rs| && rs[i].source.ReadingSource? ==> rs[i].stars >= 0
    ensures ok <==> ReadingBudgetKept(rs)
  {
    var readingDaily: map<(int, Day), int> := map[];
    for n := 0 to |rs|
      invariant forall p, d :: At(readingDaily, p, d) == LedgerStars(rs[..n], ReadingSource, p, d)
      invariant AllAtMost(readingDaily, READING_DAILY_STARS)
    {
      var r := rs[n];
      assert rs[..n + 1][..n] == rs[..n];
      if r.source.ReadingSource? {
        readingDaily := readingDaily[(r.participant, r.day) := At(readingDaily, r.participant, r.day) + r.stars];
        if At(readingDaily, r.participant, r.day) > READING_DAILY_STARS {
          LedgerStarsGrow(rs, n + 1, r.participant, r.day);
          assert !ReadingWithin(rs, r.participant, r.day);
          return false;
        }
      }
    }
    ok := true;
    assert rs[..|rs|] == rs;
    forall participant, day ensures ReadingWithin(rs, participant, day) {
      assert At(readingDaily, participant, day) <= READING_DAILY_STARS;
    }
  }

  // ---------------------------------------------------------------- the whole backup

  lemma {:induction false} AcceptedNotNegative(version: int, roles: map<int, Role>, s: SessionRow)
    requires SessionAccepted(version, roles, s)
    ensures StarsNotNegative(s)
  {
    hide Runnable, Judge, WellFormed, QuestionValid, HexId;
    forall i | 0 <= i < |s.answers| ensures s.answers[i].stars >= 0 {
      assert AnswerValid(s, i);
    }
  }

  method ValidateLearning(b: Backup) returns (ok: bool)
    ensures ok <==> LearningValid(b)
  {
    hide SessionsValid, LedgerValid, AnswersPaid, MathBudgetKept, ReadingBudgetKept, Roles, Keys;
    if b.version < 3 && (|b.sessions| > 0 || |b.rewards| > 0) {
      return false;
    }
    var roles := ReadRoles(b.people);
    var sessions;
    ok, sessions := ValidateSessions(b, roles);
    if !ok {
      return;
    }
    var seen;
    ok, seen := ValidateLedger(b, roles, sessions);
    if !ok {
      return;
    }
    ok := ValidatePaid(b, seen);
    if !ok {
      return;
    }
    NothingNegative(b);
    ok := ValidateMathBudget(b.sessions);
    if !ok {
      return;
    }
    ok := ValidateReadingBudget(b.rewards);
  }

  lemma {:induction false} NothingNegative(b: Backup)
    requires SessionsValid(b) && LedgerValid(b)
    ensures forall i :: 0 <= i < |b.sessions| ==> StarsNotNegative(b.sessions[i])
    ensures forall i :: 0 <= i < |b.rewards| && b.rewards[i].source.ReadingSource? ==> b.rewards[i].stars >= 0
  {
    hide SessionAccepted, StarsNotNegative;
    forall i | 0 <= i < |b.sessions| ensures StarsNotNegative(b.sessions[i]) {
      AcceptedNotNegative(b.version, Roles(b.people), b.sessions[i]);
    }
    forall i | 0 <= i < |b.rewards| && b.rewards[i].source.ReadingSource? ensures b.rewards[i].stars >= 0 {
      assert RewardValid(b.version, Roles(b.people), b.sessions, b.entries, b.rewards[i]);
    }
  }

  method ValidatePin(pin: string) returns (ok: bool)
    ensures ok <==> PinValid(pin)
  {
    if |pin| != 6 {
      return false;
    }
    for i := 0 to |pin|
      invariant forall j :: 0 <= j < i ==> '0' <= pin[j] <= '9'
    {
      if pin[i] < '0' || pin[i] > '9' {
        return false;
      }
    }
    ok := true;
  }

  method Validate(b: Backup, today: Day) returns (ok: bool)
    ensures ok <==> BackupValid(b) && ProfilesValid(b.people, today)
  {
    hide FamilyValid, LearningValid, PinValid;
    if b.version != 1 && b.version != 2 && b.version != 3 && b.version != 4 && b.version != 5 && b.version != CURRENT_VERSION {
      return false;
    }
    var hasParent := false;
    for i := 0 to |b.people|
      invariant forall j :: 0 <= j < i ==> PersonValid(b.people[j]) && ProfileValid(b.people[j].profile, today)
      invariant hasParent <==> exists j :: 0 <= j < i && b.people[j].active && b.people[j].role.Parent?
    {
      var p := b.people[i];
      if !ProfileValid(p.profile, today) || p.id <= 0 || p.name == "" || p.role.OtherRole? {
        return false;
      }
      if p.pin != "" {
        ok := ValidatePin(p.pin);
        if !ok {
          return;
        }
      }
      hasParent := hasParent || (p.active && p.role.Parent?);
    }
    if !hasParent {
      return false;
    }
    ok := ValidateFamily(b);
    if !ok {
      return;
    }
    ok := ValidateLearning(b);
  }
}
