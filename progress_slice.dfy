/**
 * The client-side progress store: the last weekly and monthly series and the
 * overall completion figure, each replaced wholesale by its own setter.
 */
module ProgressSlice {
  import Progress

  class ProgressState {
    var weeklyData: seq<Progress.WeekEntry>
    var monthlyData: seq<Progress.MonthEntry>
    var overallCompletion: int

    constructor ()
      ensures weeklyData == [] && monthlyData == [] && overallCompletion == 0
    {
      weeklyData := [];
      monthlyData := [];
      overallCompletion := 0;
    }

    method SetWeeklyData(data: seq<Progress.WeekEntry>)
      modifies this
      ensures weeklyData == data
      ensures monthlyData == old(monthlyData) && overallCompletion == old(overallCompletion)
    {
      weeklyData := data;
    }

    method SetMonthlyData(data: seq<Progress.MonthEntry>)
      modifies this
      ensures monthlyData == data
      ensures weeklyData == old(weeklyData) && overallCompletion == old(overallCompletion)
    {
      monthlyData := data;
    }

    method SetOverallCompletion(value: int)
      modifies this
      ensures overallCompletion == value
      ensures weeklyData == old(weeklyData) && monthlyData == old(monthlyData)
    {
      overallCompletion := value;
    }
  }
}
