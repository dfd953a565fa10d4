/** Which rewards a save of a family entry earns: only progress that is new in this save counts. */
module FamilyRewards {
  import opened Days
  import opened Rewards
  import opened Family

  /** The entry before its first save. */
  const NOTHING: Entry :=
    Entry(0, 0, OtherKind, 0, 0, 0, false, false,
          Draft(Absent, "", "", NO_DAY, [], [], [], Absent, "", "", "", "", Absent, Absent), [])

  predicate Complete(e: Entry) {
    e.draft.steps != [] && forall i :: 0 <= i < |e.draft.steps| ==> StepTaken(e.events, i)
  }

  /** A habit day that counts: not before the habit's start and on one of its weekdays. */
  predicate HabitDay(e: Entry, v: Event) {
    v.kind.Checkin? && (e.draft.day == NO_DAY || e.draft.day <= v.day) && Weekday(v.day) in e.draft.weekdays
  }

  function HabitReward(e: Entry, v: Event): Reward {
    Reward(HabitSource, CheckinOf(e.id, v.day), v.actor, v.day, 5, 1, e.draft.title)
  }

  function HabitRewards(e: Entry, from: nat, upTo: nat): seq<Reward>
    requires from <= upTo <= |e.events|
  {
    if from == upTo then []
    else
      HabitRewards(e, from, upTo - 1)
      + if HabitDay(e, e.events[upTo - 1]) then [HabitReward(e, e.events[upTo - 1])] else []
  }

  /** The planned participants, or everyone who took a step when nobody is named. */
  function Recipients(e: Entry, n: nat): seq<int>
    requires n <= |e.events|
  {
    if n == 0 then e.draft.participants
    else
      var ids, v := Recipients(e, n - 1), e.events[n - 1];
      if v.kind.Step? && e.draft.participants == [] && v.actor !in ids then ids + [v.actor] else ids
  }

  /** The latest day of a step. */
  function LastStepDay(events: seq<Event>): Day {
    if events == [] then NO_DAY
    else
      var day, v := LastStepDay(events[..|events| - 1]), events[|events| - 1];
      if v.kind.Step? && v.day > day then v.day else day
  }

  function AdventureRewards(e: Entry, ids: seq<int>): seq<Reward> {
    seq(|ids|, i requires 0 <= i < |ids| =>
      Reward(AdventureSource, EntryOf(e.id), ids[i], LastStepDay(e.events), 40, 3, e.draft.title))
  }

  predicate Undertaken(e: Entry) {
    e.kind.Adventure? || (e.kind.Proposal? && e.approved)
  }

  function Candidates(before: Entry, after: Entry): seq<Reward> {
    if after.archived then []
    else
      (if after.kind.Sport? && before.id == 0 && |after.draft.participants| == 1
       then [Reward(SportSource, DayOf(after.draft.day), after.draft.participants[0], after.draft.day, 30, 2, after.draft.title)]
       else [])
      + (if after.kind.Habit? && |after.events| >= |before.events|
         then HabitRewards(after, |before.events|, |after.events|) else [])
      + (if Undertaken(after) && !Complete(before) && Complete(after)
         then AdventureRewards(after, Recipients(after, |after.events|)) else [])
  }

  method FamilyRewardCandidates(before: Entry, after: Entry) returns (out: seq<Reward>)
    ensures out == Candidates(before, after)
  {
    out := [];
    if after.archived {
      return;
    }
    var title := after.draft.title;
    if after.kind.Sport? && before.id == 0 && |after.draft.participants| == 1 {
      out := [Reward(SportSource, DayOf(after.draft.day), after.draft.participants[0], after.draft.day, 30, 2, title)];
    }
    ghost var sport := out;
    if after.kind.Habit? && |after.events| >= |before.events| {
      for i := |before.events| to |after.events|
        invariant out == sport + HabitRewards(after, |before.events|, i)
      {
        var v := after.events[i];
        if v.kind.Checkin? {
          var day := Weekday(v.day);
          if (after.draft.day == NO_DAY || after.draft.day <= v.day) && day in after.draft.weekdays {
            out := out + [Reward(HabitSource, CheckinOf(after.id, v.day), v.actor, v.day, 5, 1, title)];
          }
        }
      }
    }
    ghost var habit := out;
    if Undertaken(after) && !Complete(before) && Complete(after) {
      var ids := after.draft.participants;
      var day := NO_DAY;
      for i := 0 to |after.events|
        invariant ids == Recipients(after, i) && day == LastStepDay(after.events[..i])
      {
        var v := after.events[i];
        assert after.events[..i + 1][..i] == after.events[..i];
        if v.kind.Step? {
          if |after.draft.participants| == 0 && v.actor !in ids {
            ids := ids + [v.actor];
          }
          if v.day > day {
            day := v.day;
          }
        }
      }
      assert after.events[..|after.events|] == after.events;
      for i := 0 to |ids|
        invariant out == habit + AdventureRewards(after, ids)[..i]
      {
        out := out + [Reward(AdventureSource, EntryOf(after.id), ids[i], day, 40, 3, title)];
      }
    }
  }
}
