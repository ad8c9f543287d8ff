/**
 * The add-habit form: its fields, the weekday toggle, and the submit handler
 * that ignores a blank name, posts the form and, on success, adds the
 * returned habit to the store and resets the form. The server round trip is
 * passed in as its outcome; alerts are recorded in the order shown.
 */
module AddHabitForm {
  import opened Wrappers
  import Seqs
  import Text
  import HabitsSlice

  datatype FormData = FormData(
    name: string,
    category: string,
    icon: string,
    scheduledDays: seq<string>,
    scheduledTime: string)

  /** The form as it opens and as it is reset after a create. */
  const InitialForm: FormData := FormData("", "Health & Fitness", "✨", [], "")

  const FailureAlert: string := "Failed to create habit. Please try again."

  /**
   * `toggleDay(day)`: a day not yet chosen is appended; a chosen day is
   * removed, every copy of it, keeping the other days in order and number.
   */
  function WithDayToggled(f: FormData, day: string): (r: FormData)
    ensures r.name == f.name && r.category == f.category && r.icon == f.icon && r.scheduledTime == f.scheduledTime
    ensures day !in f.scheduledDays ==> r.scheduledDays == f.scheduledDays + [day]
    ensures day in f.scheduledDays ==> day !in r.scheduledDays
    ensures day in f.scheduledDays ==> forall d :: d != day ==> multiset(r.scheduledDays)[d] == multiset(f.scheduledDays)[d]
  {
    f.(scheduledDays :=
      if day in f.scheduledDays then Seqs.Filter((d: string) => d != day, f.scheduledDays)
      else f.scheduledDays + [day])
  }

  /** Toggling the same day twice gives back which days are chosen (not necessarily their order). */
  lemma ToggleDayTwice(f: FormData, day: string)
    ensures var r := WithDayToggled(WithDayToggled(f, day), day);
      && (forall d :: d in r.scheduledDays <==> d in f.scheduledDays)
      && r.name == f.name && r.category == f.category && r.icon == f.icon && r.scheduledTime == f.scheduledTime
  {
    var once := WithDayToggled(f, day);
    var r := WithDayToggled(once, day);
    if day in f.scheduledDays {
      forall d ensures d in r.scheduledDays <==> d in f.scheduledDays {
        if d != day {
          assert d in once.scheduledDays <==> d in multiset(once.scheduledDays);
          assert d in f.scheduledDays <==> d in multiset(f.scheduledDays);
        }
      }
    }
  }

  class Form {
    var formData: FormData
    var isOpen: bool
    var alerts: seq<string>

    constructor ()
      ensures formData == InitialForm && !isOpen && alerts == []
    {
      formData := InitialForm;
      isOpen := false;
      alerts := [];
    }

    method ToggleDay(day: string)
      modifies this
      ensures formData == WithDayToggled(old(formData), day)
      ensures isOpen == old(isOpen) && alerts == old(alerts)
    {
      formData := WithDayToggled(formData, day);
    }

    /**
     * `handleSubmit` as written. `response` is the created habit, or `None`
     * when the request failed. After a create the handler reads the
     * undeclared `props`, which throws into the catch, so the failure alert
     * is shown even though the habit was added and the form reset.
     */
    method HandleSubmit(store: HabitsSlice.HabitsState, response: Option<HabitsSlice.NewHabitPayload>, id: string, now: int)
      modifies this, store
      ensures Text.AllWhitespace(old(formData.name)) ==>
        && formData == old(formData) && isOpen == old(isOpen) && alerts == old(alerts)
        && store.habits == old(store.habits) && store.completions == old(store.completions)
      ensures !Text.AllWhitespace(old(formData.name)) && response.None? ==>
        && formData == old(formData) && isOpen == old(isOpen) && alerts == old(alerts) + [FailureAlert]
        && store.habits == old(store.habits) && store.completions == old(store.completions)
      ensures !Text.AllWhitespace(old(formData.name)) && response.Some? ==>
        && store.habits == old(store.habits) + [HabitsSlice.NewHabit(id, now, response.value)]
        && store.completions == old(store.completions)[id := map[]]
        && formData == InitialForm && !isOpen
        && alerts == old(alerts) + [FailureAlert]
    {
      Text.TrimEmptyIff(formData.name);
      if Text.Trim(formData.name) == "" {
        return;
      }
      if response.None? {
        alerts := alerts + [FailureAlert];
        return;
      }
      store.AddHabit(id, now, response.value);
      formData := InitialForm;
      isOpen := false;
      // `props.onHabitAdded` throws: `props` is not declared in this component
      alerts := alerts + [FailureAlert];
    }

    /** `handleSubmit` as evidently intended: a successful create shows no alert. */
    method HandleSubmitIntended(store: HabitsSlice.HabitsState, response: Option<HabitsSlice.NewHabitPayload>, id: string, now: int)
      modifies this, store
      ensures Text.AllWhitespace(old(formData.name)) ==>
        && formData == old(formData) && isOpen == old(isOpen) && alerts == old(alerts)
        && store.habits == old(store.habits) && store.completions == old(store.completions)
      ensures !Text.AllWhitespace(old(formData.name)) && response.None? ==>
        && formData == old(formData) && isOpen == old(isOpen) && alerts == old(alerts) + [FailureAlert]
        && store.habits == old(store.habits) && store.completions == old(store.completions)
      ensures !Text.AllWhitespace(old(formData.name)) && response.Some? ==>
        && store.habits == old(store.habits) + [HabitsSlice.NewHabit(id, now, response.value)]
        && store.completions == old(store.completions)[id := map[]]
        && formData == InitialForm && !isOpen
        && alerts == old(alerts)
    {
      Text.TrimEmptyIff(formData.name);
      if Text.Trim(formData.name) == "" {
        return;
      }
      if response.None? {
        alerts := alerts + [FailureAlert];
        return;
      }
      store.AddHabit(id, now, response.value);
      formData := InitialForm;
      isOpen := false;
    }
  }

  /**
   * The discrepancy: on a fresh form whose name was typed in, a create the
   * server accepted still ends with the failure alert, where the intended
   * handler shows none.
   */
  method SuccessfulCreateStillAlerts(payload: HabitsSlice.NewHabitPayload, id: string, now: int)
    returns (asWritten: seq<string>, intended: seq<string>)
    ensures asWritten == [FailureAlert] && intended == []
  {
    var store := new HabitsSlice.HabitsState();
    var form := new Form();
    form.formData := form.formData.(name := "Read");
    assert form.formData.name[0] == 'R' && !Text.IsWhitespace('R');
    assert !Text.AllWhitespace(form.formData.name);
    form.HandleSubmit(store, Some(payload), id, now);
    assert |store.habits| == 1 && form.formData == InitialForm;
    assert form.alerts == [FailureAlert];
    asWritten := form.alerts;

    var store2 := new HabitsSlice.HabitsState();
    var form2 := new Form();
    form2.formData := form2.formData.(name := "Read");
    assert form2.formData.name[0] == 'R';
    form2.HandleSubmitIntended(store2, Some(payload), id, now);
    assert |store2.habits| == 1 && form2.alerts == [];
    intended := form2.alerts;
  }
}
