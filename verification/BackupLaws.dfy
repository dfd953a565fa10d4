/**
 What an accepted backup means for the family: what each ledger row may pay, how the rows add up to smiles and
 stars, and that no more is paid than was earned.
 */
module BackupLaws {
  import opened Days
  import opened MathTypes
  import opened MathWork
  import opened MathSession
  import opened Rewards
  import opened Family
  import opened Store
  import opened Backup
  import opened LedgerTheorems

  /** The smiles of one participant. */
  function Smiles(rs: seq<Reward>, participant: int): int {
    if rs == [] then 0
    else
      var r := rs[|rs| - 1];
      Smiles(rs[..|rs| - 1], participant) + if r.participant == participant then r.smiles else 0
  }

  /** How many rows of a source a participant has. */
  function RowsOf(rs: seq<Reward>, source: Source, participant: int): nat {
    if rs == [] then 0
    else
      var r := rs[|rs| - 1];
      RowsOf(rs[..|rs| - 1], source, participant) + if r.source == source && r.participant == participant then 1 else 0
  }

  /** The answer that a math row names. */
  predicate Names(r: Reward, s: SessionRow, index: int) {
    r.source == MathSource && r.key.AnswerOf? && r.key.session == s.id && r.key.index == index
  }

  /** What a row of each source says in an accepted backup of a version. */
  predicate RowMeans(version: int, sessions: seq<SessionRow>, entries: seq<Entry>, r: Reward) {
    match r.source
    case MathSource =>
      r.smiles == 0 && exists i, j :: 0 <= i < |sessions| && 0 <= j < |sessions[i].answers| && RowPays(r, sessions[i], j)
    case ReadingSource =>
      && r.smiles == 0 && version >= 5 && r.key.LessonOf? && HexId(r.key.lesson) && r.stars >= 0
      && ((r.title == "Чтение · уровень 1" && r.stars <= 6) || (r.title == "Чтение · уровень 2" && r.stars <= 9)
          || (r.title == "Чтение · уровень 3" && r.stars <= 12))
    case SportSource =>
      r.smiles == 2 && r.key == DayOf(r.day) && (r.stars == 10 || (r.stars == 30 && version >= 4))
    case HabitSource =>
      && r.smiles == 1 && r.stars == 5
      && exists i :: 0 <= i < |entries| && entries[i].kind == Habit && r.key == CheckinOf(entries[i].id, r.day)
    case AdventureSource =>
      && r.smiles == 3 && (r.stars == 20 || (r.stars == 40 && version >= 4))
      && exists i :: 0 <= i < |entries| && (entries[i].kind == Adventure || entries[i].kind == Proposal)
                     && r.key == EntryOf(entries[i].id)
    case OtherSource => false
  }

  /** A math row pays a right answer of this session what the answer earned, on the day it was given. */
  predicate RowPays(r: Reward, s: SessionRow, j: int)
    requires 0 <= j < |s.answers|
  {
    && Names(r, s, j) && s.participant == r.participant && s.answers[j].correct
    && r.stars == s.answers[j].stars && r.day == s.answers[j].day
  }

  lemma {:induction false} KindFound(entries: seq<Entry>, id: int)
    ensures EntryKind(entries, id) != OtherKind ==>
              exists i :: 0 <= i < |entries| && entries[i].id == id && entries[i].kind == EntryKind(entries, id)
  {
    if entries != [] && entries[|entries| - 1].id != id {
      var rest := entries[..|entries| - 1];
      KindFound(rest, id);
      if EntryKind(rest, id) != OtherKind {
        var i :| 0 <= i < |rest| && rest[i].id == id && rest[i].kind == EntryKind(rest, id);
        assert entries[i] == rest[i];
      }
    }
  }

  lemma {:induction false} RoleFound(people: seq<Person>, id: int)
    ensures id in Roles(people) ==>
              exists i :: 0 <= i < |people| && people[i].id == id && people[i].role == Roles(people)[id]
  {
    if people != [] && people[|people| - 1].id != id {
      var rest := people[..|people| - 1];
      RoleFound(rest, id);
      if id in Roles(rest) {
        var i :| 0 <= i < |rest| && rest[i].id == id && rest[i].role == Roles(rest)[id];
        assert people[i] == rest[i];
      }
    }
  }

  predicate Someone(people: seq<Person>, id: int, child: bool) {
    exists i :: 0 <= i < |people| && people[i].id == id && (people[i].role == Child || (people[i].role == Parent && !child))
  }

  /**
   Every row of an accepted backup is one of a parent or child, dated by a day, and pays what its source pays;
   lessons are paid to children only.
   */
  lemma {:induction false} EveryRow(b: Backup, k: nat)
    requires BackupValid(b) && k < |b.rewards|
    ensures var r := b.rewards[k];
            && Someone(b.people, r.participant, r.source == ReadingSource)
            && 0 <= r.day <= LAST_DAY && |r.title| <= 160
            && RowMeans(b.version, b.sessions, b.entries, r)
  {
    hide SessionsValid, AnswersPaid, FamilyValid, PeopleValid, MathBudgetKept, ReadingBudgetKept, Roles, DistinctRewards,
         EntryKind, HexId;
    var r := b.rewards[k];
    assert RewardValid(b.version, Roles(b.people), b.sessions, b.entries, r);
    RoleFound(b.people, r.participant);
    match r.source {
      case MathSource =>
        var i :| 0 <= i < |b.sessions| && Pays(b.sessions[i], r);
        assert RowPays(r, b.sessions[i], r.key.index);
      case HabitSource => KindFound(b.entries, r.key.entry);
      case AdventureSource => KindFound(b.entries, r.key.entry);
      case _ =>
    }
  }

  /** A backup that is accepted holds no row twice: one sport a day, one check-in a day, one share of a plan. */
  lemma {:induction false} NothingTwice(b: Backup, j: nat, k: nat)
    requires BackupValid(b) && j < k < |b.rewards|
    ensures var (r, t) := (b.rewards[j], b.rewards[k]);
            r.source == t.source && r.participant == t.participant ==>
              && r.key != t.key && (r.source == SportSource ==> r.day != t.day)
  {
    hide SessionsValid, AnswersPaid, FamilyValid, PeopleValid, MathBudgetKept, ReadingBudgetKept, RewardValid;
    EveryRow(b, j);
    EveryRow(b, k);
    assert KeyOf(b.rewards[j]) != KeyOf(b.rewards[k]);
  }

  lemma {:induction false} SmilesOfRows(version: int, sessions: seq<SessionRow>, entries: seq<Entry>, rs: seq<Reward>,
      participant: int)
    requires forall k :: 0 <= k < |rs| ==> RowMeans(version, sessions, entries, rs[k])
    ensures Smiles(rs, participant)
         == 2 * RowsOf(rs, SportSource, participant) + RowsOf(rs, HabitSource, participant)
            + 3 * RowsOf(rs, AdventureSource, participant)
  {
    hide HexId;
    if rs != [] {
      SmilesOfRows(version, sessions, entries, rs[..|rs| - 1], participant);
      assert RowMeans(version, sessions, entries, rs[|rs| - 1]);
    }
  }

  /** In an accepted backup everyone's smiles are two per sport, one per check-in and three per share of a plan. */
  lemma {:induction false} SmilesTotal(b: Backup, participant: int)
    requires BackupValid(b)
    ensures Smiles(b.rewards, participant)
         == 2 * RowsOf(b.rewards, SportSource, participant) + RowsOf(b.rewards, HabitSource, participant)
            + 3 * RowsOf(b.rewards, AdventureSource, participant)
  {
    hide BackupValid, RowMeans;
    forall k: nat | k < |b.rewards| ensures RowMeans(b.version, b.sessions, b.entries, b.rewards[k]) {
      EveryRow(b, k);
    }
    SmilesOfRows(b.version, b.sessions, b.entries, b.rewards, participant);
  }

  predicate Unfinished(s: SessionRow) {
    !s.closed && |s.answers| < |s.questions|
  }

  /** Who is in the family of an accepted backup, what its version allows, and that a child has one thing unfinished. */
  lemma {:induction false} Accepted(b: Backup)
    requires BackupValid(b)
    ensures 1 <= b.version <= 6
    ensures exists i :: 0 <= i < |b.people| && b.people[i].active && b.people[i].role == Parent
    ensures forall i :: 0 <= i < |b.people| ==>
              var p := b.people[i];
              && p.id > 0 && p.name != "" && p.role != OtherRole
              && (p.pin == "" || (|p.pin| == 6 && forall j :: 0 <= j < 6 ==> '0' <= p.pin[j] <= '9'))
    ensures b.version < 3 ==> b.sessions == [] && b.rewards == []
    ensures forall i :: 0 <= i < |b.sessions| ==>
              && (b.version < 4 ==> b.sessions[i].rewardVersion == 0)
              && (b.version < 5 ==> b.sessions[i].rewardVersion != 3)
    ensures forall i, j :: 0 <= i < j < |b.sessions| ==>
              && b.sessions[i].id != b.sessions[j].id
              && (Unfinished(b.sessions[i]) && Unfinished(b.sessions[j]) ==>
                    b.sessions[i].participant != b.sessions[j].participant)
    ensures forall i, j :: 0 <= i < j < |b.entries| ==> b.entries[i].id != b.entries[j].id
  {
    hide LedgerValid, AnswersPaid, MathBudgetKept, ReadingBudgetKept, SessionValid, EntryAccepted, Roles;
    forall i | 0 <= i < |b.sessions|
      ensures b.version < 4 ==> b.sessions[i].rewardVersion == 0
      ensures b.version < 5 ==> b.sessions[i].rewardVersion != 3
    {
      assert SessionAccepted(b.version, Roles(b.people), b.sessions[i]);
    }
  }

  predicate Present(people: seq<Person>, id: int) {
    exists i :: 0 <= i < |people| && people[i].id == id
  }

  /** Everyone whom an entry of an accepted backup mentions is in the backup. */
  lemma {:induction false} EveryoneKnown(b: Backup, k: nat)
    requires BackupValid(b) && k < |b.entries|
    ensures var e := b.entries[k];
            && e.id > 0 && e.version > 0 && e.created != 0 && e.updated != 0 && EntryValid(e)
            && Present(b.people, e.author)
            && (forall i :: 0 <= i < |e.draft.participants| ==> Present(b.people, e.draft.participants[i]))
            && (forall i :: 0 <= i < |e.draft.steps| && e.draft.steps[i].participant != 0 ==>
                  Present(b.people, e.draft.steps[i].participant))
            && forall i :: 0 <= i < |e.events| ==> Present(b.people, e.events[i].actor)
  {
    hide LearningValid, PeopleValid, EntryValid, Roles;
    assert EntryAccepted(b.entries[k], Roles(b.people));
    forall id | id in Roles(b.people) ensures Present(b.people, id) {
      RoleFound(b.people, id);
    }
    hide Present;
  }

  // ---------------------------------------------------------------- stars for answers

  /** What the ledger pays for one answer, over all rows that name it, and how many rows do. */
  function PaidFor(rs: seq<Reward>, s: SessionRow, j: int): int {
    if rs == [] then 0
    else PaidFor(rs[..|rs| - 1], s, j) + if Names(rs[|rs| - 1], s, j) then rs[|rs| - 1].stars else 0
  }

  function Naming(rs: seq<Reward>, s: SessionRow, j: int): nat {
    if rs == [] then 0
    else Naming(rs[..|rs| - 1], s, j) + if Names(rs[|rs| - 1], s, j) then 1 else 0
  }

  /** What the ledger pays for the first n answers of a session that were given on a day. */
  function PaidInSession(rs: seq<Reward>, s: SessionRow, n: nat, day: Day): int
    requires n <= |s.answers|
  {
    if n == 0 then 0
    else PaidInSession(rs, s, n - 1, day) + if s.answers[n - 1].day == day then PaidFor(rs, s, n - 1) else 0
  }

  function PaidInSessions(rs: seq<Reward>, sessions: seq<SessionRow>, participant: int, day: Day): int {
    if sessions == [] then 0
    else
      var s := sessions[|sessions| - 1];
      PaidInSessions(rs, sessions[..|sessions| - 1], participant, day)
      + if s.participant == participant then PaidInSession(rs, s, |s.answers|, day) else 0
  }

  lemma {:induction false} PaidMore(rs: seq<Reward>, r: Reward, s: SessionRow, n: nat, day: Day)
    requires n <= |s.answers|
    ensures PaidInSession(rs + [r], s, n, day)
         == PaidInSession(rs, s, n, day)
            + if r.source == MathSource && r.key.AnswerOf? && r.key.session == s.id && 0 <= r.key.index < n
                 && s.answers[r.key.index].day == day then r.stars else 0
  {
    if n > 0 {
      PaidMore(rs, r, s, n - 1, day);
      assert (rs + [r])[..|rs + [r]| - 1] == rs;
    }
  }

  lemma {:induction false} PaidMoreInAll(rs: seq<Reward>, r: Reward, sessions: seq<SessionRow>, participant: int, day: Day)
    requires forall i, j :: 0 <= i < j < |sessions| ==> sessions[i].id != sessions[j].id
    ensures r.source != MathSource || !r.key.AnswerOf? ==>
              PaidInSessions(rs + [r], sessions, participant, day) == PaidInSessions(rs, sessions, participant, day)
    ensures r.source == MathSource && r.key.AnswerOf? && (forall i :: 0 <= i < |sessions| ==> sessions[i].id != r.key.session) ==>
              PaidInSessions(rs + [r], sessions, participant, day) == PaidInSessions(rs, sessions, participant, day)
    ensures forall i, j :: 0 <= i < |sessions| && 0 <= j < |sessions[i].answers| && RowPays(r, sessions[i], j) ==>
              PaidInSessions(rs + [r], sessions, participant, day)
              == PaidInSessions(rs, sessions, participant, day)
                 + if r.participant == participant && r.day == day then r.stars else 0
  {
    hide PaidInSession;
    if sessions != [] {
      var s := sessions[|sessions| - 1];
      var rest := sessions[..|sessions| - 1];
      PaidMoreInAll(rs, r, rest, participant, day);
      PaidMore(rs, r, s, |s.answers|, day);
      forall i, j | 0 <= i < |sessions| && 0 <= j < |sessions[i].answers| && RowPays(r, sessions[i], j)
        ensures PaidInSessions(rs + [r], sessions, participant, day)
             == PaidInSessions(rs, sessions, participant, day)
                + if r.participant == participant && r.day == day then r.stars else 0
      {
        if i < |rest| {
          assert rest[i] == sessions[i] && RowPays(r, rest[i], j) && s.id != r.key.session;
        } else {
          assert forall k :: 0 <= k < |rest| ==> rest[k].id != r.key.session;
        }
      }
    }
  }

  lemma {:induction false} NoRowsNothing(s: SessionRow, n: nat, day: Day)
    requires n <= |s.answers|
    ensures PaidInSession([], s, n, day) == 0
  {
    if n > 0 {
      NoRowsNothing(s, n - 1, day);
    }
  }

  lemma {:induction false} NoRowsInAll(sessions: seq<SessionRow>, participant: int, day: Day)
    ensures PaidInSessions([], sessions, participant, day) == 0
  {
    if sessions != [] {
      var s := sessions[|sessions| - 1];
      NoRowsInAll(sessions[..|sessions| - 1], participant, day);
      NoRowsNothing(s, |s.answers|, day);
    }
  }

  lemma {:induction false} LedgerByAnswers(b: Backup, n: nat, participant: int, day: Day)
    requires BackupValid(b) && n <= |b.rewards|
    ensures LedgerStars(b.rewards[..n], MathSource, participant, day)
         == PaidInSessions(b.rewards[..n], b.sessions, participant, day)
  {
    hide BackupValid, PaidInSessions, RowPays;
    if n == 0 {
      NoRowsInAll(b.sessions, participant, day);
    } else {
      var r := b.rewards[n - 1];
      LedgerByAnswers(b, n - 1, participant, day);
      assert b.rewards[..n] == b.rewards[..n - 1] + [r];
      EveryRow(b, n - 1);
      IdsApart(b);
      PaidMoreInAll(b.rewards[..n - 1], r, b.sessions, participant, day);
      if r.source == MathSource {
        var i, j :| 0 <= i < |b.sessions| && 0 <= j < |b.sessions[i].answers| && RowPays(r, b.sessions[i], j);
        assert RowPays(r, b.sessions[i], j);
      }
    }
  }

  lemma {:induction false} IdsApart(b: Backup)
    requires BackupValid(b)
    ensures forall i, j :: 0 <= i < j < |b.sessions| ==> b.sessions[i].id != b.sessions[j].id
    ensures SessionsValid(b) && LedgerValid(b) && AnswersPaid(b)
  {
    hide LedgerValid, AnswersPaid, FamilyValid, PeopleValid, MathBudgetKept, ReadingBudgetKept, SessionAccepted;
  }

  /** A row that names an answer pays its stars. */
  lemma {:induction false} NamedPays(b: Backup, k: nat, i: nat, j: nat)
    requires BackupValid(b) && k < |b.rewards| && i < |b.sessions| && j < |b.sessions[i].answers|
    requires Names(b.rewards[k], b.sessions[i], j)
    ensures b.rewards[k].stars == b.sessions[i].answers[j].stars
  {
    EveryRow(b, k);
    IdsApart(b);
    hide BackupValid, SessionsValid, LedgerValid, AnswersPaid;
    var r := b.rewards[k];
    var m, l :| 0 <= m < |b.sessions| && 0 <= l < |b.sessions[m].answers| && RowPays(r, b.sessions[m], l);
    assert m == i && l == j;
  }

  /** All rows that name an answer pay its stars. */
  lemma {:induction false} PaidByCount(b: Backup, n: nat, i: nat, j: nat)
    requires BackupValid(b) && n <= |b.rewards| && i < |b.sessions| && j < |b.sessions[i].answers|
    ensures PaidFor(b.rewards[..n], b.sessions[i], j) == Naming(b.rewards[..n], b.sessions[i], j) * b.sessions[i].answers[j].stars
  {
    hide BackupValid, Names;
    if n > 0 {
      PaidByCount(b, n - 1, i, j);
      assert b.rewards[..n][..n - 1] == b.rewards[..n - 1];
      if Names(b.rewards[n - 1], b.sessions[i], j) {
        NamedPays(b, n - 1, i, j);
        Distribute(Naming(b.rewards[..n - 1], b.sessions[i], j), b.rewards[n - 1].stars);
      }
    }
  }

  lemma {:induction false} Distribute(k: int, x: int)
    ensures (k + 1) * x == k * x + x
  {
  }

  lemma {:induction false} NamedAtLeastOnce(b: Backup, i: nat, j: nat)
    requires BackupValid(b) && i < |b.sessions| && j < |b.sessions[i].answers| && b.sessions[i].answers[j].stars > 0
    ensures Naming(b.rewards, b.sessions[i], j) >= 1
  {
    hide BackupValid;
    IdsApart(b);
    var k := RowOfAnswer(b, i, j);
    NamedBy(b.rewards, b.sessions[i], j, k);
  }

  lemma {:induction false} NamedBy(rs: seq<Reward>, s: SessionRow, j: int, k: nat)
    requires k < |rs| && Names(rs[k], s, j)
    ensures Naming(rs, s, j) >= 1
  {
    if k < |rs| - 1 {
      NamedBy(rs[..|rs| - 1], s, j, k);
    }
  }

  /** Every answer with stars given by this participant on this day is named by one row alone. */
  ghost predicate NamedOnce(b: Backup, participant: int, day: Day) {
    forall i, j | 0 <= i < |b.sessions| && 0 <= j < |b.sessions[i].answers| ::
      var (t, a) := (b.sessions[i], b.sessions[i].answers[j]);
      t.participant == participant && a.day == day && a.stars > 0 ==> Naming(b.rewards, t, j) == 1
  }

  predicate NamedOnceIn(b: Backup, i: nat, n: nat, day: Day)
    requires i < |b.sessions| && n <= |b.sessions[i].answers|
  {
    forall j :: 0 <= j < n && b.sessions[i].answers[j].day == day && b.sessions[i].answers[j].stars > 0 ==>
      Naming(b.rewards, b.sessions[i], j) == 1
  }

  lemma {:induction false} OneAnswerPaid(b: Backup, i: nat, j: nat)
    requires BackupValid(b) && i < |b.sessions| && j < |b.sessions[i].answers|
    ensures b.sessions[i].answers[j].stars >= 0
    ensures PaidFor(b.rewards, b.sessions[i], j) >= b.sessions[i].answers[j].stars
    ensures PaidFor(b.rewards, b.sessions[i], j) == b.sessions[i].answers[j].stars <==>
              b.sessions[i].answers[j].stars == 0 || Naming(b.rewards, b.sessions[i], j) == 1
  {
    hide BackupValid;
    assert b.rewards[..|b.rewards|] == b.rewards;
    PaidByCount(b, |b.rewards|, i, j);
    IdsApart(b);
    AnswerIndex(b, i, j);
    var stars, n := b.sessions[i].answers[j].stars, Naming(b.rewards, b.sessions[i], j);
    if stars > 0 {
      NamedAtLeastOnce(b, i, j);
      Times(n, stars);
    }
  }

  lemma {:induction false} Times(n: int, x: int)
    requires n >= 1 && x > 0
    ensures n * x >= x && (n * x == x <==> n == 1)
  {
    if n > 1 {
      assert n * x == x + (n - 1) * x && (n - 1) * x > 0;
    }
  }

  lemma {:induction false} SessionPaidIff(b: Backup, i: nat, n: nat, day: Day)
    requires BackupValid(b) && i < |b.sessions| && n <= |b.sessions[i].answers|
    ensures PaidInSession(b.rewards, b.sessions[i], n, day) >= AnswerStars(b.sessions[i].answers[..n], day)
    ensures PaidInSession(b.rewards, b.sessions[i], n, day) == AnswerStars(b.sessions[i].answers[..n], day)
       <==> NamedOnceIn(b, i, n, day)
  {
    hide BackupValid, PaidFor, Naming;
    if n > 0 {
      SessionPaidIff(b, i, n - 1, day);
      OneAnswerPaid(b, i, n - 1);
      assert b.sessions[i].answers[..n][..n - 1] == b.sessions[i].answers[..n - 1];
    }
  }

  ghost predicate NamedOnceUpTo(b: Backup, n: nat, participant: int, day: Day)
    requires n <= |b.sessions|
  {
    forall i: nat :: i < n && b.sessions[i].participant == participant ==>
      NamedOnceIn(b, i, |b.sessions[i].answers|, day)
  }

  lemma {:induction false} SessionsPaidIff(b: Backup, n: nat, participant: int, day: Day)
    requires BackupValid(b) && n <= |b.sessions|
    ensures PaidInSessions(b.rewards, b.sessions[..n], participant, day) >= MathStars(b.sessions[..n], AllScales, participant, day)
    ensures PaidInSessions(b.rewards, b.sessions[..n], participant, day) == MathStars(b.sessions[..n], AllScales, participant, day)
       <==> NamedOnceUpTo(b, n, participant, day)
  {
    hide BackupValid, NamedOnceIn, PaidInSession, AnswerStars;
    if n > 0 {
      SessionsPaidIff(b, n - 1, participant, day);
      var s := b.sessions[n - 1];
      SessionPaidIff(b, n - 1, |s.answers|, day);
      assert s.answers[..|s.answers|] == s.answers;
      assert b.sessions[..n][..n - 1] == b.sessions[..n - 1];
    }
  }

  /**
   In an accepted backup the ledger's math stars of a day are never less than those of the answers given that
   day, and they are the same if and only if no answer with stars is named by two rows, spelled differently.
   */
  lemma {:induction false} LedgerExactIff(b: Backup, participant: int, day: Day)
    requires BackupValid(b)
    ensures LedgerStars(b.rewards, MathSource, participant, day) >= MathStars(b.sessions, AllScales, participant, day)
    ensures LedgerStars(b.rewards, MathSource, participant, day) == MathStars(b.sessions, AllScales, participant, day)
       <==> NamedOnce(b, participant, day)
  {
    hide BackupValid, PaidInSessions, MathStars, LedgerStars, Naming;
    assert b.rewards[..|b.rewards|] == b.rewards && b.sessions[..|b.sessions|] == b.sessions;
    LedgerByAnswers(b, |b.rewards|, participant, day);
    SessionsPaidIff(b, |b.sessions|, participant, day);
    if NamedOnceUpTo(b, |b.sessions|, participant, day) {
      forall i, j | 0 <= i < |b.sessions| && 0 <= j < |b.sessions[i].answers|
                    && b.sessions[i].participant == participant && b.sessions[i].answers[j].day == day
                    && b.sessions[i].answers[j].stars > 0
        ensures Naming(b.rewards, b.sessions[i], j) == 1
      {
        assert NamedOnceIn(b, i, |b.sessions[i].answers|, day);
      }
    }
  }

  lemma {:induction false} DistinctSpelling(rs: seq<Reward>, s: SessionRow, j: int)
    requires DistinctRewards(rs) && forall k :: 0 <= k < |rs| && Names(rs[k], s, j) ==> rs[k].key == AnswerOf(s.id, j, 0)
    requires forall k :: 0 <= k < |rs| && Names(rs[k], s, j) ==> rs[k].participant == s.participant
    ensures Naming(rs, s, j) <= 1
  {
    if rs != [] {
      var rest, r := rs[..|rs| - 1], rs[|rs| - 1];
      DistinctSpelling(rest, s, j);
      if Names(r, s, j) {
        forall k | 0 <= k < |rest| ensures !Names(rest[k], s, j) {
          assert KeyOf(rs[k]) != KeyOf(rs[|rs| - 1]);
        }
        NamedByNone(rest, s, j);
      }
    }
  }

  lemma {:induction false} NamedByNone(rs: seq<Reward>, s: SessionRow, j: int)
    requires forall k :: 0 <= k < |rs| ==> !Names(rs[k], s, j)
    ensures Naming(rs, s, j) == 0
  {
    if rs != [] {
      NamedByNone(rs[..|rs| - 1], s, j);
    }
  }

  /** With rows spelled as the server spells them, the ledger pays each day exactly what its answers earned. */
  lemma {:induction false} LedgerExact(b: Backup, participant: int, day: Day)
    requires BackupValid(b)
    requires forall k :: 0 <= k < |b.rewards| && b.rewards[k].source == MathSource && b.rewards[k].key.AnswerOf? ==>
               b.rewards[k].key.spelling == 0
    ensures LedgerStars(b.rewards, MathSource, participant, day) == MathStars(b.sessions, AllScales, participant, day)
  {
    hide BackupValid, Naming, MathStars, LedgerStars;
    LedgerExactIff(b, participant, day);
    IdsApart(b);
    forall i, j | 0 <= i < |b.sessions| && 0 <= j < |b.sessions[i].answers| && b.sessions[i].answers[j].stars > 0
      ensures Naming(b.rewards, b.sessions[i], j) == 1
    {
      NamedAtLeastOnce(b, i, j);
      forall k | 0 <= k < |b.rewards| && Names(b.rewards[k], b.sessions[i], j)
        ensures b.rewards[k].participant == b.sessions[i].participant
      {
        EveryRow(b, k);
        var m, l :| 0 <= m < |b.sessions| && 0 <= l < |b.sessions[m].answers| && RowPays(b.rewards[k], b.sessions[m], l);
        assert m == i;
      }
      DistinctSpelling(b.rewards, b.sessions[i], j);
    }
  }

  /** An answer of an accepted backup earned stars only if it holds the expected values of its question. */
  lemma {:induction false} EarnedAnswers(b: Backup, i: nat, j: nat)
    requires BackupValid(b) && i < |b.sessions| && j < |b.sessions[i].answers|
    ensures var (s, a) := (b.sessions[i], b.sessions[i].answers[j]);
            && Someone(b.people, s.participant, true)
            && j < |s.questions| && Workable(s.questions[j], s.settings)
            && a.index == j && 0 <= a.day <= LAST_DAY
            && (a.correct <==> a.values == Expected(s.questions[j], s.settings))
            && 0 <= a.stars <= (if a.correct then NominalStars(s.settings, s.rewardVersion) else 0)
            && (s.rewardVersion == 0 && a.correct ==> a.stars == NominalStars(s.settings, 0))
  {
    hide LedgerValid, AnswersPaid, FamilyValid, PeopleValid, MathBudgetKept, ReadingBudgetKept, Roles, Expected,
         NominalStars, QuestionValid, HexId, WellFormed;
    var s := b.sessions[i];
    assert SessionAccepted(b.version, Roles(b.people), s);
    RoleFound(b.people, s.participant);
    assert AnswerValid(s, j);
  }

  // ---------------------------------------------------------------- an answer paid twice

  const ONE_SUM := Settings(Plus, Easy, Input, ResultOnly, false)

  lemma {:induction false} OneAndOne()
    ensures Workable(Question(1, 1, []), ONE_SUM) && Expected(Question(1, 1, []), ONE_SUM) == map[Answer := 2]
  {
    assert Fields(Question(1, 1, []), ONE_SUM) == [Field(Answer, 1, 0)];
    assert KeysOf(Fields(Question(1, 1, []), ONE_SUM)) == {Answer};
  }

  /** An accepted backup whose ledger pays one answer twice: the second row spells the answer's index otherwise. */
  lemma {:induction false} PaidTwice(day: Day) returns (b: Backup)
    requires 0 <= day <= LAST_DAY
    ensures BackupValid(b)
    ensures LedgerStars(b.rewards, MathSource, 2, day) == 4 && MathStars(b.sessions, AllScales, 2, day) == 2
  {
    var q := Question(1, 1, []);
    OneAndOne();
    var a := AnswerRow(0, map[Answer := 2], true, 2, day);
    var s := SessionRow(3, true, seq(32, i => 'a'), 2, ONE_SUM, seq(8, i => q), [a], 1);
    var row := Reward(MathSource, AnswerOf(s.id, 0, 0), 2, day, 2, 0, "");
    var again := row.(key := AnswerOf(s.id, 0, 1));
    var people := [Person(1, Parent, true, "Ann", "", NO_PROFILE), Person(2, Child, true, "Bob", "", NO_PROFILE)];
    b := Backup(CURRENT_VERSION, people, [s], [row, again], []);
    PaidTwicePeople(people);
    PaidTwiceSession(s, a);
    PaidTwiceLedger(b, s, row, again);
    PaidTwiceBudget(b, s, a);
  }

  lemma {:induction false} PaidTwicePeople(people: seq<Person>)
    requires people == [Person(1, Parent, true, "Ann", "", NO_PROFILE), Person(2, Child, true, "Bob", "", NO_PROFILE)]
    ensures PeopleValid(people) && Roles(people) == map[1 := Parent, 2 := Child]
  {
    assert people[..1] == [people[0]] && [people[0]][..0] == [];
    assert Roles([people[0]]) == map[1 := Parent] by { assert Roles([]) == map[]; }
    assert people[0].active && people[0].role.Parent?;
  }

  lemma {:induction false} PaidTwiceSession(s: SessionRow, a: AnswerRow)
    requires 0 <= a.day <= LAST_DAY && a == AnswerRow(0, map[Answer := 2], true, 2, a.day)
    requires s == SessionRow(3, true, seq(32, i => 'a'), 2, ONE_SUM, seq(8, i => Question(1, 1, [])), [a], 1)
    ensures SessionValid(s) && !Active(s)
  {
    OneAndOne();
    hide Fields, Expected;
    assert AnswerValid(s, 0);
  }

  lemma {:induction false} PaidTwiceLedger(b: Backup, s: SessionRow, row: Reward, again: Reward)
    requires Roles(b.people) == map[1 := Parent, 2 := Child] && b.sessions == [s] && b.rewards == [row, again]
    requires s.participant == 2 && |s.answers| == 1 && s.answers[0].index == 0 && s.answers[0].correct
    requires s.answers[0].stars == 2 && 0 <= s.answers[0].day <= LAST_DAY
    requires row == Reward(MathSource, AnswerOf(s.id, 0, 0), 2, s.answers[0].day, 2, 0, "")
    requires again == row.(key := AnswerOf(s.id, 0, 1))
    ensures LedgerValid(b) && AnswersPaid(b)
    ensures LedgerStars(b.rewards, MathSource, 2, s.answers[0].day) == 4 && ReadingBudgetKept(b.rewards)
  {
    hide Roles;
    assert Pays(b.sessions[0], row) && Pays(b.sessions[0], again);
    assert KeyOf(b.rewards[0]) == AnswerKey(s, 0);
    TwoRows(row, again, MathSource, 2, s.answers[0].day);
    forall participant, day ensures ReadingWithin(b.rewards, participant, day) {
      TwoRows(row, again, ReadingSource, participant, day);
    }
  }

  lemma {:induction false} TwoRows(r: Reward, t: Reward, source: Source, participant: int, day: Day)
    requires t == r.(key := t.key)
    ensures LedgerStars([r, t], source, participant, day)
         == if r.source == source && r.participant == participant && r.day == day then 2 * r.stars else 0
  {
    assert [r, t][..1] == [r] && [r][..0] == [];
    assert LedgerStars([], source, participant, day) == 0;
    assert LedgerStars([r], source, participant, day)
        == if r.source == source && r.participant == participant && r.day == day then r.stars else 0;
  }

  lemma {:induction false} PaidTwiceBudget(b: Backup, s: SessionRow, a: AnswerRow)
    requires b.sessions == [s] && s.answers == [a] && a.stars == 2 && s.participant == 2 && s.rewardVersion == 3
    ensures MathBudgetKept(b.sessions) && MathStars(b.sessions, AllScales, 2, a.day) == 2
  {
    OneSession(s, a, AllScales, 2, a.day);
    forall participant, day ensures MathWithin(b.sessions, participant, day) {
      OneSession(s, a, Budgeted, participant, day);
      OneSession(s, a, Previous, participant, day);
    }
  }

  lemma {:induction false} OneSession(s: SessionRow, a: AnswerRow, scale: Scale, participant: int, day: Day)
    requires s.answers == [a] && s.rewardVersion == 3
    ensures MathStars([s], scale, participant, day)
         == if scale != Previous && s.participant == participant && a.day == day then a.stars else 0
  {
    assert [s][..0] == [] && [a][..0] == [];
    assert MathStars([], scale, participant, day) == 0 && AnswerStars([], day) == 0;
    assert AnswerStars([a], day) == if a.day == day then a.stars else 0;
  }

  // ---------------------------------------------------------------- daily budgets

  function StarsOn(answers: seq<AnswerRow>, n: nat, day: Day): int
    requires n <= |answers|
  {
    if n == 0 then 0 else StarsOn(answers, n - 1, day) + if answers[n - 1].day == day then answers[n - 1].stars else 0
  }

  /** The stars of a participant's answers on a day in the first n trainings, those of these scales only. */
  function DayStars(sessions: seq<SessionRow>, n: nat, scales: set<int>, participant: int, day: Day): int
    requires n <= |sessions|
  {
    if n == 0 then 0
    else
      var s := sessions[n - 1];
      DayStars(sessions, n - 1, scales, participant, day)
      + if s.participant == participant && s.rewardVersion in scales then StarsOn(s.answers, |s.answers|, day) else 0
  }

  /** What the first n rows of a ledger pay a participant on a day from one source. */
  function PaidOn(rs: seq<Reward>, n: nat, source: Source, participant: int, day: Day): int
    requires n <= |rs|
  {
    if n == 0 then 0
    else
      var r := rs[n - 1];
      PaidOn(rs, n - 1, source, participant, day)
      + if r.source == source && r.participant == participant && r.day == day then r.stars else 0
  }

  lemma {:induction false} StarsOnAre(answers: seq<AnswerRow>, n: nat, day: Day)
    requires n <= |answers|
    ensures AnswerStars(answers[..n], day) == StarsOn(answers, n, day)
  {
    if n > 0 {
      StarsOnAre(answers, n - 1, day);
      assert answers[..n][..n - 1] == answers[..n - 1];
    }
  }

  lemma {:induction false} PaidOnIs(rs: seq<Reward>, n: nat, source: Source, participant: int, day: Day)
    requires n <= |rs|
    ensures LedgerStars(rs[..n], source, participant, day) == PaidOn(rs, n, source, participant, day)
  {
    if n > 0 {
      PaidOnIs(rs, n - 1, source, participant, day);
      assert rs[..n][..n - 1] == rs[..n - 1];
    }
  }

  lemma {:induction false} DayStarsAre(sessions: seq<SessionRow>, n: nat, participant: int, day: Day)
    requires n <= |sessions|
    requires forall i :: 0 <= i < |sessions| ==> sessions[i].rewardVersion in {0, 2, 3}
    ensures MathStars(sessions[..n], AllScales, participant, day) == DayStars(sessions, n, {0, 2, 3}, participant, day)
    ensures MathStars(sessions[..n], Budgeted, participant, day) == DayStars(sessions, n, {2, 3}, participant, day)
    ensures MathStars(sessions[..n], Previous, participant, day) == DayStars(sessions, n, {2}, participant, day)
  {
    hide AnswerStars, StarsOn;
    if n > 0 {
      DayStarsAre(sessions, n - 1, participant, day);
      assert sessions[..n][..n - 1] == sessions[..n - 1];
      var answers := sessions[n - 1].answers;
      StarsOnAre(answers, |answers|, day);
      assert answers[..|answers|] == answers;
    }
  }

  lemma {:induction false} ScalesKnown(b: Backup)
    requires BackupValid(b)
    ensures forall i :: 0 <= i < |b.sessions| ==> b.sessions[i].rewardVersion in {0, 2, 3}
  {
    hide LedgerValid, AnswersPaid, FamilyValid, PeopleValid, MathBudgetKept, ReadingBudgetKept, QuestionValid, HexId,
         AnswerValid, Workable, IsChild;
    forall i | 0 <= i < |b.sessions| ensures b.sessions[i].rewardVersion in {0, 2, 3} {
      assert SessionAccepted(b.version, Roles(b.people), b.sessions[i]);
    }
  }

  /**
   In an accepted backup no day holds more than forty stars of a participant's answers, the first scale aside, nor
   more than thirty of the previous scale, nor more than thirty stars of reading.
   */
  lemma {:induction false} BudgetsKept(b: Backup, participant: int, day: Day)
    requires BackupValid(b)
    ensures DayStars(b.sessions, |b.sessions|, {2, 3}, participant, day) <= 40
    ensures DayStars(b.sessions, |b.sessions|, {2}, participant, day) <= 30
    ensures PaidOn(b.rewards, |b.rewards|, ReadingSource, participant, day) <= 30
  {
    ScalesKnown(b);
    DayStarsAre(b.sessions, |b.sessions|, participant, day);
    PaidOnIs(b.rewards, |b.rewards|, ReadingSource, participant, day);
    assert b.sessions[..|b.sessions|] == b.sessions && b.rewards[..|b.rewards|] == b.rewards;
    hide SessionsValid, LedgerValid, AnswersPaid, FamilyValid, PeopleValid, MathStars, DayStars, LedgerStars, PaidOn;
    assert MathWithin(b.sessions, participant, day) && ReadingWithin(b.rewards, participant, day);
  }
}
