/** Which contents the server accepts as a backup: families, sessions, ledger and daily budgets together. */
module Backup {
  import opened Days
  import opened MathSession
  import opened Rewards
  import opened Family
  import opened Store

  datatype Backup = Backup(version: int, people: seq<Person>, sessions: seq<SessionRow>,
                           rewards: seq<Reward>, entries: seq<Entry>)

  const CURRENT_VERSION := 6

  function Export(db: Db): Backup {
    Backup(CURRENT_VERSION, db.people, db.sessions, db.rewards, db.entries)
  }

  /** The role of each id, the last row winning. */
  function Roles(people: seq<Person>): map<int, Role> {
    if people == [] then map[]
    else Roles(people[..|people| - 1])[people[|people| - 1].id := people[|people| - 1].role]
  }

  predicate IsChild(roles: map<int, Role>, id: int) {
    id in roles && roles[id].Child?
  }

  // ---------------------------------------------------------------- family entries

  predicate EntryKnown(e: Entry, roles: map<int, Role>) {
    && e.author in roles
    && (forall i :: 0 <= i < |e.draft.participants| ==> e.draft.participants[i] in roles)
    && (forall i :: 0 <= i < |e.draft.steps| ==> e.draft.steps[i].participant != 0 ==> e.draft.steps[i].participant in roles)
    && forall i :: 0 <= i < |e.events| ==> e.events[i].actor in roles
  }

  ghost predicate EntryAccepted(e: Entry, roles: map<int, Role>) {
    e.id > 0 && e.version > 0 && e.created != 0 && e.updated != 0 && EntryValid(e) && EntryKnown(e, roles)
  }

  ghost predicate DistinctEntries(entries: seq<Entry>) {
    forall i, j :: 0 <= i < j < |entries| ==> entries[i].id != entries[j].id
  }

  ghost predicate FamilyValid(b: Backup) {
    && (forall i :: 0 <= i < |b.entries| ==> EntryAccepted(b.entries[i], Roles(b.people)))
    && DistinctEntries(b.entries)
  }

  // ---------------------------------------------------------------- sessions

  ghost predicate SessionAccepted(version: int, roles: map<int, Role>, s: SessionRow) {
    && IsChild(roles, s.participant) && SessionValid(s)
    && !(version < 4 && s.rewardVersion != 0) && !(version < 5 && s.rewardVersion == 3)
  }

  /** Session ids are distinct and a child has at most one session with questions left. */
  ghost predicate SessionsDistinct(sessions: seq<SessionRow>) {
    forall i, j :: 0 <= i < j < |sessions| ==>
      && sessions[i].id != sessions[j].id
      && !(Active(sessions[i]) && Active(sessions[j]) && sessions[i].participant == sessions[j].participant)
  }

  ghost predicate SessionsValid(b: Backup) {
    && (forall i :: 0 <= i < |b.sessions| ==> SessionAccepted(b.version, Roles(b.people), b.sessions[i]))
    && SessionsDistinct(b.sessions)
  }

  // ---------------------------------------------------------------- the ledger

  /** The row pays exactly what its answer earned. */
  predicate Pays(s: SessionRow, r: Reward) {
    && r.key.AnswerOf? && s.id == r.key.session && s.participant == r.participant
    && 0 <= r.key.index < |s.answers|
    && s.answers[r.key.index].correct
    && r.stars == s.answers[r.key.index].stars && r.smiles == 0 && r.day == s.answers[r.key.index].day
  }

  predicate Paid(sessions: seq<SessionRow>, r: Reward) {
    exists i :: 0 <= i < |sessions| && Pays(sessions[i], r)
  }

  predicate LessonFits(r: Reward, level: ReadingLevel) {
    && r.key.LessonOf? && CompletionValid(r.key.lesson, level)
    && r.title == ReadingTitle(level) && 0 <= r.stars <= ReadingStars(level)
  }

  /** The kind of the entry with an id, the last row winning. */
  function EntryKind(entries: seq<Entry>, id: int): Kind {
    if entries == [] then OtherKind
    else if entries[|entries| - 1].id == id then entries[|entries| - 1].kind
    else EntryKind(entries[..|entries| - 1], id)
  }

  predicate ReadingValid(version: int, roles: map<int, Role>, r: Reward) {
    && version >= 5 && IsChild(roles, r.participant) && r.smiles == 0
    && (LessonFits(r, Phrases) || LessonFits(r, Sentences) || LessonFits(r, Advanced))
  }

  predicate FamilyRewardValid(version: int, entries: seq<Entry>, r: Reward) {
    match r.source
    case SportSource =>
      r.key == DayOf(r.day) && (r.stars == 10 || (version >= 4 && r.stars == 30)) && r.smiles == 2
    case HabitSource =>
      && r.key.CheckinOf? && r.key.day == r.day && EntryKind(entries, r.key.entry).Habit?
      && r.stars == 5 && r.smiles == 1
    case AdventureSource =>
      && r.key.EntryOf? && HasSteps(EntryKind(entries, r.key.entry))
      && (r.stars == 20 || (version >= 4 && r.stars == 40)) && r.smiles == 3
    case _ => false
  }

  predicate RewardValid(version: int, roles: map<int, Role>, sessions: seq<SessionRow>, entries: seq<Entry>,
        r: Reward) {
    && r.participant in roles && InFamily(roles[r.participant]) && ValidDay(r.day) && |r.title| <= 160
    && match r.source
       case MathSource => Paid(sessions, r)
       case ReadingSource => ReadingValid(version, roles, r)
       case _ => FamilyRewardValid(version, entries, r)
  }

  ghost predicate LedgerValid(b: Backup) {
    && (forall i :: 0 <= i < |b.rewards| ==>
          RewardValid(b.version, Roles(b.people), b.sessions, b.entries, b.rewards[i]))
    && DistinctRewards(b.rewards)
  }

  function AnswerKey(s: SessionRow, index: int): RewardKey {
    RewardKey(MathSource, AnswerOf(s.id, index, 0), s.participant)
  }

  /** Every answer that earned stars has its ledger row. */
  predicate SessionPaid(s: SessionRow, keys: set<RewardKey>) {
    forall j :: 0 <= j < |s.answers| ==> s.answers[j].stars > 0 ==> AnswerKey(s, s.answers[j].index) in keys
  }

  ghost predicate AnswersPaid(b: Backup) {
    forall i :: 0 <= i < |b.sessions| ==> SessionPaid(b.sessions[i], Keys(b.rewards))
  }

  // ---------------------------------------------------------------- daily budgets

  /** Which sessions a sum counts: all, those under a daily budget, or those under the previous budget. */
  datatype Scale = AllScales | Budgeted | Previous

  predicate Counts(scale: Scale, version: int) {
    match scale
    case AllScales => true
    case Budgeted => version >= 2
    case Previous => version == 2
  }

  function AnswerStars(answers: seq<AnswerRow>, day: Day): int {
    if answers == [] then 0
    else
      var a := answers[|answers| - 1];
      AnswerStars(answers[..|answers| - 1], day) + if a.day == day then a.stars else 0
  }

  /** What one session contributes to the stars of a child's day. */
  function SessionStars(s: SessionRow, scale: Scale, participant: int, day: Day): int {
    if Counts(scale, s.rewardVersion) && s.participant == participant then AnswerStars(s.answers, day) else 0
  }

  function MathStars(sessions: seq<SessionRow>, scale: Scale, participant: int, day: Day): int {
    if sessions == [] then 0
    else
      MathStars(sessions[..|sessions| - 1], scale, participant, day)
      + SessionStars(sessions[|sessions| - 1], scale, participant, day)
  }

  predicate MathWithin(sessions: seq<SessionRow>, participant: int, day: Day) {
    && MathStars(sessions, Budgeted, participant, day) <= MATH_DAILY_STARS
    && MathStars(sessions, Previous, participant, day) <= PREVIOUS_MATH_DAILY_STARS
  }

  ghost predicate MathBudgetKept(sessions: seq<SessionRow>) {
    forall participant, day :: MathWithin(sessions, participant, day)
  }

  predicate ReadingWithin(rs: seq<Reward>, participant: int, day: Day) {
    LedgerStars(rs, ReadingSource, participant, day) <= READING_DAILY_STARS
  }

  ghost predicate ReadingBudgetKept(rs: seq<Reward>) {
    forall participant, day :: ReadingWithin(rs, participant, day)
  }

  // ---------------------------------------------------------------- the whole backup

  ghost predicate LearningValid(b: Backup) {
    && (b.version < 3 ==> b.sessions == [] && b.rewards == [])
    && SessionsValid(b) && LedgerValid(b) && AnswersPaid(b)
    && MathBudgetKept(b.sessions) && ReadingBudgetKept(b.rewards)
  }

  /** Six digits. */
  predicate PinValid(pin: string) {
    |pin| == 6 && forall i :: 0 <= i < |pin| ==> '0' <= pin[i] <= '9'
  }

  predicate PersonValid(p: Person) {
    p.id > 0 && p.name != "" && !p.role.OtherRole? && (p.pin == "" || PinValid(p.pin))
  }

  predicate ProfilesValid(people: seq<Person>, today: Day) {
    forall i :: 0 <= i < |people| ==> ProfileValid(people[i].profile, today)
  }

  predicate PeopleValid(people: seq<Person>) {
    && (forall i :: 0 <= i < |people| ==> PersonValid(people[i]))
    && exists i :: 0 <= i < |people| && people[i].active && people[i].role.Parent?
  }

  ghost predicate BackupValid(b: Backup) {
    1 <= b.version <= CURRENT_VERSION && PeopleValid(b.people) && FamilyValid(b) && LearningValid(b)
  }
}
