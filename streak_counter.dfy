/**
 * The three figures of the streak panel: how many habits are done today,
 * the longest current streak, and how many whole days have passed since the
 * first listed habit was created. The clock is passed in as `now`.
 */
module StreakCounter {
  import opened HabitRecord
  import Seqs
  import Progress

  /** `1000 * 60 * 60 * 24` milliseconds. */
  const MillisPerDay: int := 86400000

  /** Habits whose map has today's key truthy; the same count the weekly series uses. */
  function CompletedToday(hs: seq<Habit>, cs: Completions, today: Day): (n: nat)
    ensures n <= |hs|
    ensures n == Progress.CountDone(hs, cs, today)
  {
    Progress.CountDoneIsFilterLength(hs, cs, today);
    |Seqs.Filter(Progress.DoneTest(cs, today), hs)|
  }

  /** `reduce((max, h) => h.streak > max ? h.streak : max, acc)` over `hs`. */
  function MaxFrom(hs: seq<Habit>, acc: int): int
    decreases |hs|
  {
    if hs == [] then acc
    else MaxFrom(hs[1..], if hs[0].streak > acc then hs[0].streak else acc)
  }

  lemma {:induction false} MaxFromBounds(hs: seq<Habit>, acc: int)
    ensures MaxFrom(hs, acc) >= acc
    ensures forall i :: 0 <= i < |hs| ==> MaxFrom(hs, acc) >= hs[i].streak
    ensures MaxFrom(hs, acc) == acc || exists i :: 0 <= i < |hs| && hs[i].streak == MaxFrom(hs, acc)
    decreases |hs|
  {
    if hs != [] {
      var next := if hs[0].streak > acc then hs[0].streak else acc;
      MaxFromBounds(hs[1..], next);
      assert forall i :: 1 <= i < |hs| ==> hs[i] == hs[1..][i - 1];
    }
  }

  /**
   * The longest streak: never below 0 or below any habit's streak, and equal
   * to one of the streaks unless it is the starting 0.
   */
  function LongestStreak(hs: seq<Habit>): (r: int)
    ensures r >= 0
    ensures forall i :: 0 <= i < |hs| ==> r >= hs[i].streak
    ensures r == 0 || exists i :: 0 <= i < |hs| && hs[i].streak == r
    ensures (exists i :: 0 <= i < |hs| && hs[i].streak >= 0) ==> exists i :: 0 <= i < |hs| && hs[i].streak == r
  {
    MaxFromBounds(hs, 0);
    MaxFrom(hs, 0)
  }

  /**
   * Whole days since the first listed habit was created, rounded down
   * (`Math.floor` of the millisecond difference over a day), or 0 with no habits.
   */
  function DaysTracking(hs: seq<Habit>, now: int): (days: int)
    ensures hs == [] ==> days == 0
    ensures hs != [] ==>
      days * MillisPerDay <= now - hs[0].createdAt < (days + 1) * MillisPerDay
    ensures hs != [] && hs[0].createdAt <= now ==> days >= 0
  {
    if |hs| > 0 then (now - hs[0].createdAt) / MillisPerDay else 0
  }
}
