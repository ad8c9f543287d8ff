/**
 * The figures and insight lines of the progress page: how many habits have
 * an active streak, the mean of the weekly percentages, and which of the
 * five insight lines are shown.
 */
module TrackProgress {
  import opened HabitRecord
  import opened Rounding
  import Seqs
  import Progress

  /** `habits.filter(h => h.streak > 0).length`. */
  function ActiveStreaks(hs: seq<Habit>): (n: nat)
    ensures n <= |hs|
    ensures n == |hs| <==> forall i :: 0 <= i < |hs| ==> hs[i].streak > 0
  {
    var active := Seqs.Filter((h: Habit) => h.streak > 0, hs);
    Seqs.FilterKeepsAllIff((h: Habit) => h.streak > 0, hs);
    assert (forall h :: h in hs ==> h.streak > 0) <==> (forall i :: 0 <= i < |hs| ==> hs[i].streak > 0) by {
      if forall i :: 0 <= i < |hs| ==> hs[i].streak > 0 {
        forall h | h in hs ensures h.streak > 0 {
          var i :| 0 <= i < |hs| && hs[i] == h;
        }
      }
    }
    |active|
  }

  /** `weeklyData.reduce((sum, day) => sum + day.percentage, 0)`. */
  function SumPercentages(w: seq<Progress.WeekEntry>): (s: nat)
    ensures (forall i :: 0 <= i < |w| ==> w[i].percentage <= 100) ==> s <= 100 * |w|
  {
    if w == [] then 0
    else
      assert forall i :: 0 <= i < |w| - 1 ==> w[..|w| - 1][i] == w[i];
      SumPercentages(w[..|w| - 1]) + w[|w| - 1].percentage
  }

  /**
   * `avgCompletion`: 0 for an empty series, else the mean percentage rounded
   * half up; never above 100 when no day is.
   */
  function AvgCompletion(w: seq<Progress.WeekEntry>): (avg: nat)
    ensures w == [] ==> avg == 0
    ensures (forall i :: 0 <= i < |w| ==> w[i].percentage <= 100) ==> avg <= 100
  {
    if |w| > 0 then
      RoundedMeanAtMostHundredIf(SumPercentages(w), |w|);
      RoundHalfUp(SumPercentages(w), |w|)
    else 0
  }

  /** A non-empty series averages to its mean percentage rounded half up. */
  lemma AvgCompletionRounds(w: seq<Progress.WeekEntry>)
    requires w != []
    ensures var avg := AvgCompletion(w); 2 * |w| * avg <= 2 * SumPercentages(w) + |w| < 2 * |w| * (avg + 1)
  {
    RoundHalfUpBounds(SumPercentages(w), |w|);
  }

  lemma RoundedMeanAtMostHundredIf(sum: nat, count: nat)
    requires count > 0
    ensures sum <= 100 * count ==> RoundHalfUp(sum, count) <= 100
  {
    if sum <= 100 * count {
      RoundedMeanAtMostHundred(sum, count);
    }
  }

  /** The mean over the page's own weekly series lies in [0, 100]. */
  lemma AvgOfWeeklyProgressInRange(hs: seq<Habit>, cs: Completions, today: Day)
    ensures AvgCompletion(Progress.WeeklyProgress(hs, cs, today)) <= 100
  {
  }

  datatype Insight = Excellent | GoodProgress | KeepGoing | AllActive | ThirtyPlus

  /** The insight lines in the order the page lists them. */
  function Insights(avg: int, hs: seq<Habit>): seq<Insight> {
    AverageInsights(avg) + StreakInsights(hs)
  }

  /** The three lines that depend on the average, each under its own condition. */
  function AverageInsights(avg: int): seq<Insight> {
    (if avg >= 80 then [Excellent] else [])
    + (if avg >= 50 && avg < 80 then [GoodProgress] else [])
    + (if avg < 50 && avg > 0 then [KeepGoing] else [])
  }

  /** The two lines that depend on the streaks. */
  function StreakInsights(hs: seq<Habit>): seq<Insight> {
    (if ActiveStreaks(hs) == |hs| && |hs| > 0 then [AllActive] else [])
    + (if exists i :: 0 <= i < |hs| && hs[i].streak >= 30 then [ThirtyPlus] else [])
  }

  /** Each line is shown exactly under its condition. */
  lemma InsightShown(avg: int, hs: seq<Habit>)
    ensures Excellent in Insights(avg, hs) <==> avg >= 80
    ensures GoodProgress in Insights(avg, hs) <==> 50 <= avg < 80
    ensures KeepGoing in Insights(avg, hs) <==> 0 < avg < 50
    ensures AllActive in Insights(avg, hs) <==> ActiveStreaks(hs) == |hs| && |hs| > 0
    ensures ThirtyPlus in Insights(avg, hs) <==> exists i :: 0 <= i < |hs| && hs[i].streak >= 30
  {
    var a, b := AverageInsights(avg), StreakInsights(hs);
    AverageInsightsShown(avg);
    StreakInsightsShown(hs);
    assert forall x :: x in a + b <==> x in a || x in b;
  }

  lemma AverageInsightsShown(avg: int)
    ensures Excellent in AverageInsights(avg) <==> avg >= 80
    ensures GoodProgress in AverageInsights(avg) <==> 50 <= avg < 80
    ensures KeepGoing in AverageInsights(avg) <==> 0 < avg < 50
    ensures AllActive !in AverageInsights(avg) && ThirtyPlus !in AverageInsights(avg)
  {
  }

  lemma StreakInsightsShown(hs: seq<Habit>)
    ensures AllActive in StreakInsights(hs) <==> ActiveStreaks(hs) == |hs| && |hs| > 0
    ensures ThirtyPlus in StreakInsights(hs) <==> exists i :: 0 <= i < |hs| && hs[i].streak >= 30
    ensures Excellent !in StreakInsights(hs) && GoodProgress !in StreakInsights(hs) && KeepGoing !in StreakInsights(hs)
  {
  }

  /** How many of the three average-based lines are shown. */
  function AverageLines(r: seq<Insight>): nat {
    (if Excellent in r then 1 else 0) + (if GoodProgress in r then 1 else 0) + (if KeepGoing in r then 1 else 0)
  }

  /**
   * Exactly one average-based line shows for a positive average and none at
   * 0 or below; "all active" shows exactly when there are habits and every
   * streak is positive; the 30-day line shows exactly when some streak reaches 30.
   */
  lemma InsightConditions(avg: int, hs: seq<Habit>)
    ensures AverageLines(Insights(avg, hs)) == if avg > 0 then 1 else 0
    ensures AllActive in Insights(avg, hs) <==> |hs| > 0 && forall i :: 0 <= i < |hs| ==> hs[i].streak > 0
    ensures ThirtyPlus in Insights(avg, hs) <==> exists i :: 0 <= i < |hs| && hs[i].streak >= 30
  {
    InsightShown(avg, hs);
  }
}
