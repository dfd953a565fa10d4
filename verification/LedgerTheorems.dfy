/**
 The ledger covers the answers: in an accepted backup every answer's stars have a row of their own, so
 the ledger's sum for a day is never below the stars of the day's answers.
 */
module LedgerTheorems {
  import opened Days
  import opened MathSession
  import opened Rewards
  import opened Store
  import opened Backup
  import opened BackupCheck

  /** The ledger sum of one participant's day, counting only rows with the given keys. */
  function KeyedStars(rs: seq<Reward>, keys: set<RewardKey>, participant: int, day: Day): int {
    if rs == [] then 0
    else
      var r := rs[|rs| - 1];
      KeyedStars(rs[..|rs| - 1], keys, participant, day)
      + if r.source.MathSource? && KeyOf(r) in keys && r.participant == participant && r.day == day then r.stars else 0
  }

  ghost predicate MathNotNegative(rs: seq<Reward>) {
    forall i :: 0 <= i < |rs| && rs[i].source.MathSource? ==> rs[i].stars >= 0
  }

  lemma {:induction false} KeyedWithin(rs: seq<Reward>, keys: set<RewardKey>, participant: int, day: Day)
    requires MathNotNegative(rs)
    ensures 0 <= KeyedStars(rs, keys, participant, day) <= LedgerStars(rs, MathSource, participant, day)
  {
    if rs != [] {
      KeyedWithin(rs[..|rs| - 1], keys, participant, day);
    }
  }

  lemma {:induction false} KeyedUnion(rs: seq<Reward>, a: set<RewardKey>, b: set<RewardKey>, participant: int, day: Day)
    requires a !! b
    ensures KeyedStars(rs, a + b, participant, day) == KeyedStars(rs, a, participant, day) + KeyedStars(rs, b, participant, day)
  {
    if rs != [] {
      KeyedUnion(rs[..|rs| - 1], a, b, participant, day);
    }
  }

  lemma {:induction false} KeyedNone(rs: seq<Reward>, key: RewardKey, participant: int, day: Day)
    requires key !in Keys(rs)
    ensures KeyedStars(rs, {key}, participant, day) == 0
  {
    if rs != [] {
      assert KeyOf(rs[|rs| - 1]) in Keys(rs);
      forall r | r in rs[..|rs| - 1] ensures KeyOf(r) in Keys(rs) {
      }
      KeyedNone(rs[..|rs| - 1], key, participant, day);
    }
  }

  /** Keys are distinct, so one key selects one row. */
  lemma {:induction false} KeyedOne(rs: seq<Reward>, i: nat, participant: int, day: Day)
    requires i < |rs| && rs[i].source.MathSource? && DistinctRewards(rs)
    ensures KeyedStars(rs, {KeyOf(rs[i])}, participant, day)
         == if rs[i].participant == participant && rs[i].day == day then rs[i].stars else 0
  {
    var last := |rs| - 1;
    if i == last {
      KeyedNone(rs[..last], KeyOf(rs[i]), participant, day);
    } else {
      KeyedOne(rs[..last], i, participant, day);
      assert KeyOf(rs[last]) != KeyOf(rs[i]);
    }
  }

  // ---------------------------------------------------------------- answers and their rows

  ghost predicate Learns(b: Backup) {
    SessionsValid(b) && LedgerValid(b) && AnswersPaid(b)
  }

  function SessionKeys(s: SessionRow, n: nat): set<RewardKey> {
    set j | 0 <= j < n :: AnswerKey(s, j)
  }

  function AllKeys(sessions: seq<SessionRow>): set<RewardKey> {
    if sessions == [] then {}
    else AllKeys(sessions[..|sessions| - 1]) + SessionKeys(sessions[|sessions| - 1], |sessions[|sessions| - 1].answers|)
  }

  lemma {:induction false} AllKeysNamed(sessions: seq<SessionRow>, key: RewardKey)
    requires key in AllKeys(sessions)
    ensures key.key.AnswerOf? && exists i :: 0 <= i < |sessions| && sessions[i].id == key.key.session
  {
    var last := |sessions| - 1;
    if key in AllKeys(sessions[..last]) {
      AllKeysNamed(sessions[..last], key);
      var i :| 0 <= i < last && sessions[..last][i].id == key.key.session;
      assert sessions[i].id == key.key.session;
    } else {
      assert sessions[last].id == key.key.session;
    }
  }

  lemma {:induction false} RowOfAnswer(b: Backup, i: nat, j: nat) returns (k: nat)
    requires Learns(b) && i < |b.sessions| && j < |b.sessions[i].answers| && b.sessions[i].answers[j].stars > 0
    ensures k < |b.rewards| && KeyOf(b.rewards[k]) == AnswerKey(b.sessions[i], j)
    ensures b.rewards[k].stars == b.sessions[i].answers[j].stars && b.rewards[k].day == b.sessions[i].answers[j].day
  {
    hide SessionValid, Roles;
    var s := b.sessions[i];
    assert SessionPaid(s, Keys(b.rewards));
    AnswerIndex(b, i, j);
    var r :| r in b.rewards && KeyOf(r) == AnswerKey(s, j);
    k :| 0 <= k < |b.rewards| && b.rewards[k] == r;
    assert RewardValid(b.version, Roles(b.people), b.sessions, b.entries, b.rewards[k]);
    var m :| 0 <= m < |b.sessions| && Pays(b.sessions[m], r);
    assert m == i;
  }

  lemma {:induction false} AnswerIndex(b: Backup, i: nat, j: nat)
    requires SessionsValid(b) && i < |b.sessions| && j < |b.sessions[i].answers|
    ensures b.sessions[i].answers[j].index == j && b.sessions[i].answers[j].stars >= 0
  {
    hide Roles, Runnable, Judge, WellFormed, QuestionValid, HexId;
    assert SessionAccepted(b.version, Roles(b.people), b.sessions[i]);
    assert AnswerValid(b.sessions[i], j);
  }

  /** One answer's row carries its stars. */
  lemma {:induction false} AnswerCovered(b: Backup, i: nat, j: nat, participant: int, day: Day)
    requires Learns(b) && i < |b.sessions| && j < |b.sessions[i].answers|
    ensures MathNotNegative(b.rewards)
    ensures var (s, a) := (b.sessions[i], b.sessions[i].answers[j]);
            KeyedStars(b.rewards, {AnswerKey(s, j)}, participant, day)
            >= if s.participant == participant && a.day == day then a.stars else 0
  {
    hide SessionsValid, LedgerValid, AnswersPaid, SessionValid, Roles;
    RowsNotNegative(b);
    AnswerIndex(b, i, j);
    if b.sessions[i].answers[j].stars > 0 {
      var k := RowOfAnswer(b, i, j);
      assert DistinctRewards(b.rewards) by { RewardsDistinct(b); }
      KeyedOne(b.rewards, k, participant, day);
    } else {
      KeyedWithin(b.rewards, {AnswerKey(b.sessions[i], j)}, participant, day);
    }
  }

  lemma {:induction false} RewardsDistinct(b: Backup)
    requires LedgerValid(b)
    ensures DistinctRewards(b.rewards)
  {
  }

  lemma {:induction false} RowsNotNegative(b: Backup)
    requires SessionsValid(b) && LedgerValid(b)
    ensures MathNotNegative(b.rewards)
  {
    hide SessionsValid, Roles;
    forall k | 0 <= k < |b.rewards| && b.rewards[k].source.MathSource? ensures b.rewards[k].stars >= 0 {
      var r := b.rewards[k];
      assert RewardValid(b.version, Roles(b.people), b.sessions, b.entries, r);
      var m :| 0 <= m < |b.sessions| && Pays(b.sessions[m], r);
      AnswerIndex(b, m, r.key.index);
    }
  }

  lemma {:induction false} SessionCovered(b: Backup, i: nat, n: nat, participant: int, day: Day)
    requires Learns(b) && i < |b.sessions| && n <= |b.sessions[i].answers|
    ensures var s := b.sessions[i];
            KeyedStars(b.rewards, SessionKeys(s, n), participant, day)
            >= if s.participant == participant then AnswerStars(s.answers[..n], day) else 0
  {
    hide Learns;
    var s := b.sessions[i];
    if n == 0 {
      assert SessionKeys(s, n) == {};
      assert s.answers[..0] == [];
      RowsOf(b);
      KeyedWithin(b.rewards, {}, participant, day);
    } else {
      SessionCovered(b, i, n - 1, participant, day);
      AnswerCovered(b, i, n - 1, participant, day);
      assert SessionKeys(s, n) == SessionKeys(s, n - 1) + {AnswerKey(s, n - 1)};
      KeyedUnion(b.rewards, SessionKeys(s, n - 1), {AnswerKey(s, n - 1)}, participant, day);
      assert s.answers[..n][..n - 1] == s.answers[..n - 1];
    }
  }

  lemma {:induction false} RowsOf(b: Backup)
    requires Learns(b)
    ensures MathNotNegative(b.rewards) && SessionsDistinct(b.sessions)
  {
    RowsNotNegative(b);
  }

  lemma {:induction false} SessionsCovered(b: Backup, n: nat, participant: int, day: Day)
    requires Learns(b) && n <= |b.sessions|
    ensures KeyedStars(b.rewards, AllKeys(b.sessions[..n]), participant, day)
            >= MathStars(b.sessions[..n], AllScales, participant, day)
  {
    hide Learns, SessionKeys;
    RowsOf(b);
    if n == 0 {
      KeyedWithin(b.rewards, AllKeys(b.sessions[..0]), participant, day);
    } else {
      var s, before := b.sessions[n - 1], b.sessions[..n - 1];
      var own := SessionKeys(s, |s.answers|);
      SessionsCovered(b, n - 1, participant, day);
      SessionCovered(b, n - 1, |s.answers|, participant, day);
      assert s.answers[..|s.answers|] == s.answers;
      assert b.sessions[..n][..n - 1] == before;
      assert AllKeys(before) !! own by {
        KeysApart(b, n - 1);
      }
      KeyedUnion(b.rewards, AllKeys(before), own, participant, day);
    }
  }

  lemma {:induction false} KeysApart(b: Backup, n: nat)
    requires n < |b.sessions| && SessionsDistinct(b.sessions)
    ensures AllKeys(b.sessions[..n]) !! SessionKeys(b.sessions[n], |b.sessions[n].answers|)
  {
    forall key | key in AllKeys(b.sessions[..n]) ensures key !in SessionKeys(b.sessions[n], |b.sessions[n].answers|) {
      AllKeysNamed(b.sessions[..n], key);
      var i :| 0 <= i < n && b.sessions[..n][i].id == key.key.session;
      assert b.sessions[i].id != b.sessions[n].id;
    }
  }

  /** The ledger's math stars of a day are at least the stars of the day's answers. */
  lemma {:induction false} LedgerCovers(b: Backup, participant: int, day: Day)
    requires Learns(b)
    ensures LedgerStars(b.rewards, MathSource, participant, day) >= MathStars(b.sessions, AllScales, participant, day)
  {
    hide Learns, MathStars;
    RowsOf(b);
    SessionsCovered(b, |b.sessions|, participant, day);
    assert b.sessions[..|b.sessions|] == b.sessions;
    KeyedWithin(b.rewards, AllKeys(b.sessions), participant, day);
  }

  /** Every scale counts some of the answers. */
  lemma {:induction false} ScaleWithinAll(sessions: seq<SessionRow>, scale: Scale, participant: int, day: Day)
    requires forall i :: 0 <= i < |sessions| ==> StarsNotNegative(sessions[i])
    ensures 0 <= MathStars(sessions, scale, participant, day) <= MathStars(sessions, AllScales, participant, day)
  {
    hide StarsNotNegative;
    if sessions != [] {
      var s := sessions[|sessions| - 1];
      ScaleWithinAll(sessions[..|sessions| - 1], scale, participant, day);
      assert 0 <= AnswerStars(s.answers, day) by { AnswersNotNegative(s, day); }
    }
  }

  lemma {:induction false} AnswersNotNegative(s: SessionRow, day: Day)
    requires StarsNotNegative(s)
    ensures 0 <= AnswerStars(s.answers, day)
  {
    AnswerStarsGrow(s.answers, 0, day);
  }

  // ---------------------------------------------------------------- changing one session

  lemma {:induction false} ReplacedSum(sessions: seq<SessionRow>, at: nat, s: SessionRow, scale: Scale,
      participant: int, day: Day)
    requires at < |sessions|
    ensures MathStars(sessions[at := s], scale, participant, day)
         == MathStars(sessions, scale, participant, day)
            - SessionStars(sessions[at], scale, participant, day) + SessionStars(s, scale, participant, day)
  {
    hide SessionStars;
    var last := |sessions| - 1;
    if at == last {
      assert sessions[at := s][..last] == sessions[..last];
    } else {
      ReplacedSum(sessions[..last], at, s, scale, participant, day);
      assert sessions[at := s][..last] == sessions[..last][at := s];
    }
  }

  lemma {:induction false} AppendedSum(sessions: seq<SessionRow>, s: SessionRow, scale: Scale, participant: int,
        day: Day)
    ensures MathStars(sessions + [s], scale, participant, day)
         == MathStars(sessions, scale, participant, day) + SessionStars(s, scale, participant, day)
  {
    assert (sessions + [s])[..|sessions|] == sessions;
  }

  /** What one more answer adds to a session's sum. */
  lemma {:induction false} AnswerAdded(s: SessionRow, a: AnswerRow, scale: Scale, participant: int, day: Day)
    ensures SessionStars(s.(answers := s.answers + [a]), scale, participant, day)
         == SessionStars(s, scale, participant, day)
            + if Counts(scale, s.rewardVersion) && s.participant == participant && a.day == day then a.stars else 0
  {
    assert (s.answers + [a])[..|s.answers|] == s.answers;
  }

  lemma {:induction false} RowAdded(rs: seq<Reward>, r: Reward, source: Source, participant: int, day: Day)
    ensures LedgerStars(rs + [r], source, participant, day)
         == LedgerStars(rs, source, participant, day)
            + if r.source == source && r.participant == participant && r.day == day then r.stars else 0
  {
    assert (rs + [r])[..|rs|] == rs;
  }
}
