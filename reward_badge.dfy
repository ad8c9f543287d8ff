/**
 * The badge resolver of the rewards panel: each habit, walking down from its
 * streak, claims the first badge title no earlier habit has claimed; the
 * claimed badges are then sorted by recorded streak, highest first.
 */
module RewardBadge {
  import opened Wrappers
  import opened HabitRecord
  import opened Rewards
  import Seqs

  /** A badge with the loop value at which it was claimed (not the tier threshold). */
  datatype EarnedReward = EarnedReward(title: string, description: string, streak: int)

  /** The badge as claimed at loop value `v`. */
  function EntryAt(v: int): (e: EarnedReward)
    requires v >= 3
    ensures e.streak == v && e.title == Title(v)
  {
    var r := RewardForStreak(v).value;
    EarnedReward(r.title, r.description, v)
  }

  /**
   * The inner `for (streak = s; streak >= 3; streak--)` loop: the largest
   * value from `s` down to 3 whose title is not yet claimed, if any.
   */
  function FirstUnclaimed(s: int, claimed: set<string>): (r: Option<int>)
    ensures r.Some? ==> 3 <= r.value <= s && Title(r.value) !in claimed
    ensures r.Some? ==> forall v :: r.value < v <= s ==> Title(v) in claimed
    ensures r.None? ==> forall v :: 3 <= v <= s ==> Title(v) in claimed
    decreases s
  {
    if s < 3 then None
    else if Title(s) !in claimed then Some(s)
    else FirstUnclaimed(s - 1, claimed)
  }

  function TitlesOf(rs: seq<EarnedReward>): set<string> {
    set i | 0 <= i < |rs| :: rs[i].title
  }

  lemma TitlesOfAppend(rs: seq<EarnedReward>, e: EarnedReward)
    ensures TitlesOf(rs + [e]) == TitlesOf(rs) + {e.title}
  {
    var r := rs + [e];
    assert forall i :: 0 <= i < |rs| ==> r[i] == rs[i];
    assert r[|rs|] == e;
  }

  /** The badges claimed by the habits in order, before sorting (the `rewards` array after `forEach`). */
  function Collect(hs: seq<Habit>): (rs: seq<EarnedReward>)
    ensures |rs| <= |hs|
    ensures forall i, j :: 0 <= i < j < |rs| ==> rs[i].title != rs[j].title
    ensures forall i :: 0 <= i < |rs| ==> rs[i].streak >= 3 && rs[i] == EntryAt(rs[i].streak)
  {
    if hs == [] then []
    else
      var prev := Collect(hs[..|hs| - 1]);
      match FirstUnclaimed(hs[|hs| - 1].streak, TitlesOf(prev))
      case None => prev
      case Some(v) =>
        assert forall i :: 0 <= i < |prev| ==> prev[i].title in TitlesOf(prev);
        prev + [EntryAt(v)]
  }

  /**
   * One more habit adds at most one badge: nothing when its streak is below 3
   * or every title from its streak down is claimed, otherwise the badge at the
   * largest loop value whose title is still free.
   */
  lemma CollectStep(hs: seq<Habit>, h: Habit)
    ensures h.streak < 3 ==> Collect(hs + [h]) == Collect(hs)
    ensures match FirstUnclaimed(h.streak, TitlesOf(Collect(hs)))
      case None => Collect(hs + [h]) == Collect(hs)
      case Some(v) => Collect(hs + [h]) == Collect(hs) + [EntryAt(v)]
  {
    assert (hs + [h])[..|hs|] == hs;
  }

  /** No badge at all exactly when no habit has a streak of 3 or more. */
  lemma {:induction false} CollectEmptyIff(hs: seq<Habit>)
    ensures Collect(hs) == [] <==> forall i :: 0 <= i < |hs| ==> hs[i].streak < 3
  {
    if hs != [] {
      var front, last := hs[..|hs| - 1], hs[|hs| - 1];
      CollectEmptyIff(front);
      if Collect(front) == [] && last.streak >= 3 {
        assert TitlesOf(Collect(front)) == {};
        assert FirstUnclaimed(last.streak, {}) == Some(last.streak);
      }
      if forall i :: 0 <= i < |hs| ==> hs[i].streak < 3 {
        assert forall i :: 0 <= i < |front| ==> front[i].streak < 3 by {
          forall i | 0 <= i < |front| ensures front[i].streak < 3 { assert front[i] == hs[i]; }
        }
      }
    }
  }

  /** At most one badge per habit and at most one per title, so never more than nine. */
  lemma CollectAtMostNine(hs: seq<Habit>)
    ensures |Collect(hs)| <= |hs| && |Collect(hs)| <= |Tiers|
  {
    var rs := Collect(hs);
    DistinctTitlesCard(rs);
    assert TitlesOf(rs) <= TitleSet();
    Seqs.SubsetCard(TitlesOf(rs), TitleSet());
  }

  lemma {:induction false} DistinctTitlesCard(rs: seq<EarnedReward>)
    requires forall i, j :: 0 <= i < j < |rs| ==> rs[i].title != rs[j].title
    ensures |TitlesOf(rs)| == |rs|
  {
    if rs != [] {
      var front := rs[..|rs| - 1];
      DistinctTitlesCard(front);
      assert TitlesOf(rs) == TitlesOf(front) + {rs[|rs| - 1].title};
    }
  }

  /** Two habits at streak 7: the first claims "Week Warrior" at 7, the second falls back to "Getting Started" at 6. */
  lemma TwoWeekWarriors(h1: Habit, h2: Habit)
    requires h1.streak == 7 && h2.streak == 7
    ensures Collect([h1, h2]) == [EarnedReward("🎊 Week Warrior", "7 day streak!", 7),
                                  EarnedReward("🚀 Getting Started", "3 day streak!", 6)]
  {
    FirstHabitClaims(h1);
    SecondFallsBack();
    assert FirstUnclaimed(h2.streak, TitlesOf(Collect([h1]))) == Some(6);
    CollectStep([h1], h2);
    assert [h1] + [h2] == [h1, h2];
    assert Collect([h1, h2]) == [EntryAt(7)] + [EntryAt(6)];
    WeekWarriorEntries();
  }

  lemma WeekWarriorEntries()
    ensures EntryAt(7) == EarnedReward("🎊 Week Warrior", "7 day streak!", 7)
    ensures EntryAt(6) == EarnedReward("🚀 Getting Started", "3 day streak!", 6)
  {
  }

  /** A lone habit at streak 7 claims its own tier at 7. */
  lemma FirstHabitClaims(h1: Habit)
    requires h1.streak == 7
    ensures Collect([h1]) == [EntryAt(7)]
  {
    CollectStep([], h1);
    assert [] + [h1] == [h1];
    assert TitlesOf([]) == {};
  }

  /** With "Week Warrior" claimed, a walk down from 7 stops at 6. */
  lemma SecondFallsBack()
    ensures FirstUnclaimed(7, TitlesOf([EntryAt(7)])) == Some(6)
  {
    var claimed := TitlesOf([EntryAt(7)]);
    assert claimed == {Tiers[1].title} by {
      assert [EntryAt(7)][0].title in claimed;
    }
    assert Title(6) == Tiers[0].title;
    assert Tiers[0].title != Tiers[1].title by {
      assert Tiers[0].title[0] != Tiers[1].title[0];
    }
    assert FirstUnclaimed(6, claimed) == Some(6);
  }

  /** The order `rewards.sort((a, b) => b.streak - a.streak)` leaves: non-increasing recorded streak. */
  predicate SortedByStreakDesc(rs: seq<EarnedReward>) {
    forall i, j :: 0 <= i < j < |rs| ==> rs[i].streak >= rs[j].streak
  }

  /** Places `e` before the first entry whose streak it is not below, keeping the order of equals. */
  function InsertDesc(e: EarnedReward, rs: seq<EarnedReward>): (r: seq<EarnedReward>)
    requires SortedByStreakDesc(rs)
    ensures SortedByStreakDesc(r)
    ensures multiset(r) == multiset(rs) + multiset{e}
  {
    if rs == [] || rs[0].streak <= e.streak then
      PrependSorted(e, rs);
      [e] + rs
    else
      var tail := InsertDesc(e, rs[1..]);
      assert rs == [rs[0]] + rs[1..];
      NoneAboveHead(e, rs, tail);
      PrependSorted(rs[0], tail);
      [rs[0]] + tail
  }

  lemma NoneAboveHead(e: EarnedReward, rs: seq<EarnedReward>, tail: seq<EarnedReward>)
    requires SortedByStreakDesc(rs) && rs != [] && e.streak < rs[0].streak
    requires multiset(tail) == multiset(rs[1..]) + multiset{e}
    ensures forall x :: x in tail ==> x.streak <= rs[0].streak
  {
    forall x | x in tail ensures x.streak <= rs[0].streak {
      assert x in multiset(tail);
      if x != e {
        assert x in multiset(rs[1..]);
        var k :| 0 <= k < |rs[1..]| && rs[1..][k] == x;
        assert rs[k + 1] == x;
      }
    }
  }

  lemma PrependSorted(a: EarnedReward, rs: seq<EarnedReward>)
    requires SortedByStreakDesc(rs)
    requires forall x :: x in rs ==> x.streak <= a.streak
    ensures SortedByStreakDesc([a] + rs)
  {
    var r := [a] + rs;
    forall i, j | 0 <= i < j < |r| ensures r[i].streak >= r[j].streak {
      assert r[j] == rs[j - 1];
      if i > 0 { assert r[i] == rs[i - 1]; }
    }
  }

  /** The stable descending sort that `Array.prototype.sort` performs with this comparator. */
  function SortByStreakDesc(rs: seq<EarnedReward>): (r: seq<EarnedReward>)
    ensures SortedByStreakDesc(r)
    ensures multiset(r) == multiset(rs)
  {
    if rs == [] then []
    else
      assert rs == [rs[0]] + rs[1..];
      InsertDesc(rs[0], SortByStreakDesc(rs[1..]))
  }

  /** The resolver of the rewards panel: the nested loop with `break`, then the sort. */
  method ResolveRewards(habits: seq<Habit>) returns (rewards: seq<EarnedReward>)
    ensures rewards == SortByStreakDesc(Collect(habits))
    ensures SortedByStreakDesc(rewards)
    ensures multiset(rewards) == multiset(Collect(habits))
  {
    var collected: seq<EarnedReward> := [];
    var rewardSet: set<string> := {};
    for i := 0 to |habits|
      invariant collected == Collect(habits[..i])
      invariant rewardSet == TitlesOf(collected)
    {
      assert habits[..i + 1] == habits[..i] + [habits[i]];
      CollectStep(habits[..i], habits[i]);
      ghost var before := collected;
      var streak := habits[i].streak;
      while streak >= 3
        invariant collected == before && rewardSet == TitlesOf(before)
        invariant FirstUnclaimed(streak, rewardSet) == FirstUnclaimed(habits[i].streak, rewardSet)
        decreases streak
      {
        var reward := RewardForStreak(streak);
        if reward.Some? && reward.value.title !in rewardSet {
          assert FirstUnclaimed(habits[i].streak, TitlesOf(before)) == Some(streak);
          collected := collected + [EarnedReward(reward.value.title, reward.value.description, streak)];
          rewardSet := rewardSet + {reward.value.title};
          assert collected == Collect(habits[..i + 1]);
          assert rewardSet == TitlesOf(collected) by {
            TitlesOfAppend(before, EntryAt(streak));
          }
          break;
        }
        streak := streak - 1;
      }
    }
    assert habits[..|habits|] == habits;
    rewards := SortByStreakDesc(collected);
  }
}
