/**
 * The streak walk: start at today and step back one day at a time while the
 * day is marked done; the number of steps is the current streak.
 */
module Streak {
  import opened HabitRecord
  import Seqs

  /** Days of `m` on or before `day`: the walk from `day` can visit no others. */
  function KeysUpTo(m: CompletionMap, day: Day): set<Day> {
    set k | k in m && k <= day
  }

  /** The streak ending at `day`: consecutive truthy days counted back from it. */
  function StreakAt(m: CompletionMap, day: Day): (s: nat)
    ensures s == 0 <==> !Truthy(m, day)
    ensures !Truthy(m, day - s)
    decreases KeysUpTo(m, day)
  {
    if Truthy(m, day) then
      assert KeysUpTo(m, day - 1) < KeysUpTo(m, day) by {
        assert day in KeysUpTo(m, day) && day !in KeysUpTo(m, day - 1);
      }
      1 + StreakAt(m, day - 1)
    else 0
  }

  /**
   * `calculateStreak(completions)`: the `while (true)` walk of the three
   * identical copies in the application, with today injected.
   */
  method CalculateCurrentStreak(m: CompletionMap, today: Day) returns (streak: nat)
    ensures streak == StreakAt(m, today)
    ensures !Truthy(m, today) ==> streak == 0
    ensures forall d :: today - streak < d <= today ==> Truthy(m, d)
    ensures !Truthy(m, today - streak)
  {
    streak := 0;
    var current := today;
    while Truthy(m, current)
      invariant current == today - streak
      invariant streak + StreakAt(m, current) == StreakAt(m, today)
      invariant forall d :: today - streak < d <= today ==> Truthy(m, d)
      decreases KeysUpTo(m, current)
    {
      assert current in KeysUpTo(m, current) && current !in KeysUpTo(m, current - 1);
      streak := streak + 1;
      current := current - 1;
    }
  }

  /** Exactly k: with k truthy days ending at `day` and day k+1 back not truthy, the streak is k. */
  lemma {:induction false} StreakIsRunLength(m: CompletionMap, day: Day, k: nat)
    requires forall d :: day - k < d <= day ==> Truthy(m, d)
    requires !Truthy(m, day - k)
    ensures StreakAt(m, day) == k
    decreases k
  {
    if k > 0 {
      StreakIsRunLength(m, day - 1, k - 1);
    }
  }

  /** Conversely, a streak of k means the k days ending at `day` are done and the one before is not. */
  lemma {:induction false} StreakRun(m: CompletionMap, day: Day)
    ensures forall d :: day - StreakAt(m, day) < d <= day ==> Truthy(m, d)
    ensures !Truthy(m, day - StreakAt(m, day))
    decreases KeysUpTo(m, day)
  {
    if Truthy(m, day) {
      assert day in KeysUpTo(m, day) && day !in KeysUpTo(m, day - 1);
      StreakRun(m, day - 1);
    }
  }

  /** The walk never counts more days than the map has keys up to `day`, so never more than its size. */
  lemma {:induction false} StreakBoundedByKeys(m: CompletionMap, day: Day)
    ensures StreakAt(m, day) <= |KeysUpTo(m, day)| <= |m|
    decreases KeysUpTo(m, day)
  {
    if Truthy(m, day) {
      assert KeysUpTo(m, day) == KeysUpTo(m, day - 1) + {day};
      StreakBoundedByKeys(m, day - 1);
    }
    assert KeysUpTo(m, day) <= m.Keys;
    Seqs.SubsetCard(KeysUpTo(m, day), m.Keys);
  }

  /** The walk reads truthiness only: maps that agree on it have the same streak. */
  lemma {:induction false} StreakDependsOnTruthiness(m1: CompletionMap, m2: CompletionMap, day: Day)
    requires forall d :: Truthy(m1, d) == Truthy(m2, d)
    ensures StreakAt(m1, day) == StreakAt(m2, day)
  {
    var k := StreakAt(m1, day);
    StreakRun(m1, day);
    StreakIsRunLength(m2, day, k);
  }

  /** Flipping the same day twice gives back the streak of the original map. */
  lemma FlipTwiceKeepsStreak(m: CompletionMap, day: Day, today: Day)
    ensures StreakAt(Flip(Flip(m, day), day), today) == StreakAt(m, today)
  {
    FlipTwice(m, day);
    StreakDependsOnTruthiness(Flip(Flip(m, day), day), m, today);
  }
}
