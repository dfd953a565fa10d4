/** Saving an entry or a profile, said of the rows of the tables. */
module StoreLaws {
  import opened Days
  import opened Rewards
  import opened Family
  import opened FamilyRewards
  import opened Store

  /** Someone active in the family. */
  predicate Member(people: seq<Person>, id: int) {
    exists i :: 0 <= i < |people| && people[i].id == id && people[i].active
                && (people[i].role == Parent || people[i].role == Child)
  }

  /** The same source, achievement and participant. */
  predicate SameEarned(a: Reward, b: Reward) {
    a.source == b.source && a.key == b.key && a.participant == b.participant
  }

  ghost predicate HasRow(rs: seq<Reward>, r: Reward) {
    exists k :: 0 <= k < |rs| && SameEarned(rs[k], r)
  }

  /**
   The ledger after rewards were paid: the old rows, then some of the new ones, each for an active member and none
   earned twice; of every new one for an active member the ledger has a row.
   */
  ghost predicate Paid(people: seq<Person>, before: seq<Reward>, more: seq<Reward>, after: seq<Reward>) {
    && before <= after
    && (forall k :: |before| <= k < |after| ==> after[k] in more && Member(people, after[k].participant))
    && (forall i, k :: 0 <= i < k < |after| && |before| <= k ==> !SameEarned(after[i], after[k]))
    && forall r :: r in more && Member(people, r.participant) ==> HasRow(after, r)
  }

  lemma {:induction false} MemberIs(people: seq<Person>, id: int)
    ensures Roster(people, id) <==> Member(people, id)
  {
  }

  lemma {:induction false} TakenIs(rs: seq<Reward>, r: Reward)
    ensures KeyOf(r) in Keys(rs) <==> HasRow(rs, r)
  {
    if KeyOf(r) in Keys(rs) {
      var other :| other in rs && KeyOf(other) == KeyOf(r);
      var k :| 0 <= k < |rs| && rs[k] == other;
      assert SameEarned(rs[k], r);
    } else {
      forall k | 0 <= k < |rs| ensures !SameEarned(rs[k], r) {
        assert rs[k] in rs;
      }
    }
  }

  lemma {:induction false} AllPaid(people: seq<Person>, rs: seq<Reward>, more: seq<Reward>)
    ensures Paid(people, rs, more, AllInserted(people, rs, more))
  {
    hide Roster, Member, SameEarned, Keys, KeyOf;
    if more == [] {
      assert rs <= rs;
    } else {
      var first, last := more[..|more| - 1], more[|more| - 1];
      AllPaid(people, rs, first);
      var paid := AllInserted(people, rs, first);
      MemberIs(people, last.participant);
      TakenIs(paid, last);
      OnePaid(people, rs, first, last, paid);
      assert more == first + [last];
    }
  }

  lemma {:induction false} OnePaid(people: seq<Person>, rs: seq<Reward>, first: seq<Reward>, last: Reward, paid: seq<Reward>)
    requires Paid(people, rs, first, paid)
    ensures Paid(people, rs, first + [last],
                 if Member(people, last.participant) && !HasRow(paid, last) then paid + [last] else paid)
  {
    hide Member, SameEarned, HasRow;
    if Member(people, last.participant) && !HasRow(paid, last) {
      OneMore(people, rs, first, last, paid);
    }
  }

  lemma {:induction false} OneMore(people: seq<Person>, rs: seq<Reward>, first: seq<Reward>, last: Reward, paid: seq<Reward>)
    requires Paid(people, rs, first, paid) && Member(people, last.participant) && !HasRow(paid, last)
    ensures Paid(people, rs, first + [last], paid + [last])
  {
    hide Member, HasRow, SameEarned;
    var after := paid + [last];
    RowsWith(paid, last);
    forall k | |rs| <= k < |after| ensures after[k] in first + [last] && Member(people, after[k].participant) {
      assert k < |paid| ==> after[k] == paid[k];
    }
  }

  lemma {:induction false} RowsWith(paid: seq<Reward>, last: Reward)
    ensures HasRow(paid + [last], last)
    ensures forall r :: HasRow(paid, r) ==> HasRow(paid + [last], r)
    ensures !HasRow(paid, last) ==> forall k :: 0 <= k < |paid| ==> !SameEarned(paid[k], last)
  {
    var after := paid + [last];
    assert after[|paid|] == last;
    forall r | HasRow(paid, r) ensures HasRow(after, r) {
      var k :| 0 <= k < |paid| && SameEarned(paid[k], r);
      assert after[k] == paid[k];
    }
  }

  /**
   A save of a stored entry takes effect if and only if nobody saved in between: it becomes the next version, its
   author and creation stay, and what it newly earns is paid once. A new entry starts at version one.
   */
  lemma {:induction false} SavesIff(db: Db, e: Entry, newId: int, now: int, at: nat)
    requires e.id != 0 ==>
               && at < |db.entries| && db.entries[at].id == e.id
               && forall i :: 0 <= i < |db.entries| && i != at ==> db.entries[i].id != e.id
    requires e.id == 0 ==> forall i :: 0 <= i < |db.entries| ==> db.entries[i].id != newId
    ensures var out := SavedEntry(db, e, newId, now);
            var before := if e.id == 0 then NOTHING else db.entries[at];
            && (out.error == Accepted <==> e.id == 0 || e.version == before.version)
            && (out.error != Accepted ==> out.error == Conflict && out.db == db)
            && (out.error == Accepted ==>
                  && out.value == (if e.id == 0
                       then Entry(newId, 1, e.kind, e.author, now, now, e.archived, e.approved, e.draft, e.events)
                       else Entry(e.id, before.version + 1, e.kind, before.author, before.created, now, e.archived,
                                  e.approved, e.draft, e.events))
                  && out.db.entries == (if e.id == 0 then db.entries + [out.value] else db.entries[at := out.value])
                  && out.db.people == db.people && out.db.sessions == db.sessions && out.db.starts == db.starts
                  && Paid(db.people, db.rewards, Candidates(before, out.value), out.db.rewards))
  {
    hide Candidates, Paid, AllInserted;
    var out := SavedEntry(db, e, newId, now);
    var before := if e.id == 0 then NOTHING else db.entries[at];
    AllPaid(db.people, db.rewards, Candidates(before, out.value));
  }

  /** Saving under an id that no entry has finds nothing. */
  lemma {:induction false} SaveFindsNothing(db: Db, e: Entry, newId: int, now: int)
    requires e.id != 0 && forall i :: 0 <= i < |db.entries| ==> db.entries[i].id != e.id
    ensures SavedEntry(db, e, newId, now).error == NotFound && SavedEntry(db, e, newId, now).db == db
  {
  }

  /** A profile is saved for an active child, and for nobody else, when its levels are known and the child is born. */
  lemma {:induction false} ProfileSavesIff(db: Db, id: int, profile: Profile, today: Day)
    ensures var (error, after) := ProfileSaved(db, id, profile, today);
            var child := exists i :: 0 <= i < |db.people| && db.people[i].id == id && db.people[i].active
                                     && db.people[i].role == Child;
            var valid := profile.levelsKnown
                         && (profile.birth == NotGiven
                             || exists day :: profile.birth == BornOn(day) && FIRST_BIRTH <= day <= today);
            && (error == Accepted <==> valid && child)
            && (error == InvalidInput <==> !valid)
            && (error != Accepted ==> after == db)
            && (error == Accepted ==>
                  && after == db.(people := after.people) && |after.people| == |db.people|
                  && forall i :: 0 <= i < |db.people| ==>
                       var p := db.people[i];
                       after.people[i] == if p.id == id && p.active && p.role == Child
                         then Person(p.id, p.role, p.active, p.name, p.pin, profile) else p)
  {
    assert profile.birth.BornOn? ==> profile.birth == BornOn(profile.birth.day);
  }
}
