/** The reward ledger's rows and the keys that make each achievement count once. */
module Rewards {
  import opened Days

  /** `OtherRole` stands for a role text that the server does not know. */
  datatype Role = Parent | Child | School | OtherRole

  /** A birth date as text, and whether it names a day; levels of learning are known names or not. */
  datatype Birth = NotGiven | BornOn(day: Day) | NoDate

  datatype Profile = Profile(birth: Birth, levelsKnown: bool)

  /** What the tables hold of someone whose profile was never saved. */
  const NO_PROFILE := Profile(NotGiven, true)

  /** 1 January 1900, the earliest birth date. */
  const FIRST_BIRTH: Day := -36524

  predicate ProfileValid(p: Profile, today: Day) {
    p.levelsKnown && !p.birth.NoDate? && (p.birth.BornOn? ==> FIRST_BIRTH <= p.birth.day <= today)
  }

  /** `pin` is what a backup may carry; the tables keep none. */
  datatype Person = Person(id: int, role: Role, active: bool, name: string, pin: string, profile: Profile)

  predicate InFamily(role: Role) {
    role.Parent? || role.Child?
  }

  datatype Source = MathSource | ReadingSource | SportSource | HabitSource | AdventureSource | OtherSource

  /**
   What a ledger row was earned for, as its source reads the stored text. The text of a math row
   names a session and an answer index; `spelling` tells apart the texts that name the same index,
   and 0 is the one the server writes.
   */
  datatype SourceKey =
    | AnswerOf(session: string, index: int, spelling: nat)
    | LessonOf(lesson: string)
    | DayOf(day: Day)
    | CheckinOf(entry: int, day: Day)
    | EntryOf(entry: int)
    | Unreadable(text: string)

  datatype Reward = Reward(source: Source, key: SourceKey, participant: int, day: Day,
                           stars: int, smiles: int, title: string)

  datatype RewardKey = RewardKey(source: Source, key: SourceKey, participant: int)

  function KeyOf(r: Reward): RewardKey {
    RewardKey(r.source, r.key, r.participant)
  }

  function Keys(rs: seq<Reward>): set<RewardKey> {
    set r | r in rs :: KeyOf(r)
  }

  ghost predicate DistinctRewards(rs: seq<Reward>) {
    forall i, j :: 0 <= i < j < |rs| ==> KeyOf(rs[i]) != KeyOf(rs[j])
  }
}
