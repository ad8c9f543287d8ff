/**
 * The client-side habits store: the habit list and the completion maps,
 * changed in place by the five reducers.
 */
module HabitsSlice {
  import opened Wrappers
  import opened HabitRecord
  import opened Streak
  import Seqs

  /** The fields `addHabit` reads from its payload; missing ones are `None`. */
  datatype NewHabitPayload = NewHabitPayload(
    name: string,
    category: string,
    icon: Option<string>,
    scheduledDays: Option<seq<string>>,
    scheduledTime: Option<string>,
    color: Option<string>)

  /** The properties an `updateHabit` payload carries besides `id`; each present one overwrites. */
  datatype HabitPatch = HabitPatch(
    id: HabitId,
    name: Option<string>,
    category: Option<string>,
    icon: Option<string>,
    scheduledDays: Option<seq<string>>,
    scheduledTime: Option<string>,
    color: Option<string>,
    createdAt: Option<int>,
    streak: Option<int>)

  /** The record `addHabit` builds: streak 0 and the documented defaults. */
  function NewHabit(id: HabitId, now: int, p: NewHabitPayload): (h: Habit)
    ensures h.id == id && h.streak == 0 && h.createdAt == now
    ensures h.name == p.name && h.category == p.category && h.icon == p.icon
    ensures h.scheduledDays == p.scheduledDays.GetOr([])
    ensures h.scheduledTime == OrDefault(p.scheduledTime, "")
    ensures h.color == OrDefault(p.color, "emerald")
  {
    Habit(id, p.name, p.category, p.icon, p.scheduledDays.GetOr([]),
          OrDefault(p.scheduledTime, ""), OrDefault(p.color, "emerald"), now, 0)
  }

  /** `{ ...habit, ...payload }`: present payload properties win, the rest is kept. */
  function Merge(h: Habit, p: HabitPatch): (r: Habit)
    ensures r.id == p.id && r.createdAt == p.createdAt.GetOr(h.createdAt) && r.streak == p.streak.GetOr(h.streak)
    ensures r.name == p.name.GetOr(h.name) && r.category == p.category.GetOr(h.category)
    ensures r.icon == (if p.icon.Some? then p.icon else h.icon)
    ensures r.scheduledDays == p.scheduledDays.GetOr(h.scheduledDays)
    ensures r.scheduledTime == p.scheduledTime.GetOr(h.scheduledTime) && r.color == p.color.GetOr(h.color)
  {
    Habit(p.id, p.name.GetOr(h.name), p.category.GetOr(h.category),
          if p.icon.Some? then p.icon else h.icon,
          p.scheduledDays.GetOr(h.scheduledDays), p.scheduledTime.GetOr(h.scheduledTime),
          p.color.GetOr(h.color), p.createdAt.GetOr(h.createdAt), p.streak.GetOr(h.streak))
  }

  /** `habits.findIndex(h => h.id === id)`: the first match, or -1. */
  function FirstIndex(hs: seq<Habit>, id: HabitId): (i: int)
    ensures -1 <= i < |hs|
    ensures i >= 0 ==> hs[i].id == id
    ensures forall j :: 0 <= j < |hs| && (i < 0 || j < i) ==> hs[j].id != id
  {
    if hs == [] then -1
    else if hs[0].id == id then 0
    else
      var i := FirstIndex(hs[1..], id);
      if i < 0 then -1 else i + 1
  }

  /** The completions after `toggleCompletion(habitId, date)`: a map is created if missing, one entry flips. */
  function Toggled(cs: Completions, habitId: HabitId, date: Day): (r: Completions)
    ensures habitId in r && r[habitId] == Flip(if habitId in cs then cs[habitId] else map[], date)
    ensures forall id :: id != habitId ==> (id in r <==> id in cs) && (id in cs ==> r[id] == cs[id])
  {
    cs[habitId := Flip(if habitId in cs then cs[habitId] else map[], date)]
  }

  /** The habit list after the streak write: the first habit with the id gets `streak`, if there is one. */
  function WithStreak(hs: seq<Habit>, habitId: HabitId, streak: int): (r: seq<Habit>)
    ensures |r| == |hs|
    ensures forall j :: 0 <= j < |hs| && j != FirstIndex(hs, habitId) ==> r[j] == hs[j]
    ensures FirstIndex(hs, habitId) >= 0 ==> r[FirstIndex(hs, habitId)] == hs[FirstIndex(hs, habitId)].(streak := streak)
  {
    var i := FirstIndex(hs, habitId);
    if i < 0 then hs else hs[i := hs[i].(streak := streak)]
  }

  class HabitsState {
    var habits: seq<Habit>
    var completions: Completions

    /** The initial state: no habits and no completion maps. */
    constructor ()
      ensures habits == [] && completions == map[]
    {
      habits := [];
      completions := map[];
    }

    /** `addHabit`: pushes one habit (streak 0) and gives its id an empty completion map. */
    method AddHabit(id: HabitId, now: int, payload: NewHabitPayload)
      modifies this
      ensures habits == old(habits) + [NewHabit(id, now, payload)]
      ensures completions == old(completions)[id := map[]]
    {
      var newHabit := NewHabit(id, now, payload);
      habits := habits + [newHabit];
      completions := completions[newHabit.id := map[]];
    }

    /** `updateHabit`: merges the payload into the first habit with its id; no-op when there is none. */
    method UpdateHabit(payload: HabitPatch)
      modifies this
      ensures completions == old(completions)
      ensures |habits| == |old(habits)|
      ensures FirstIndex(old(habits), payload.id) < 0 ==> habits == old(habits)
      ensures FirstIndex(old(habits), payload.id) >= 0 ==>
        var i := FirstIndex(old(habits), payload.id);
        habits == old(habits)[i := Merge(old(habits)[i], payload)]
    {
      var index := FirstIndex(habits, payload.id);
      if index != -1 {
        habits := habits[index := Merge(habits[index], payload)];
      }
    }

    /** `deleteHabit`: drops every habit with the id and the id's completion map. */
    method DeleteHabit(id: HabitId)
      modifies this
      ensures habits == Seqs.Filter((h: Habit) => h.id != id, old(habits))
      ensures forall h :: h in habits ==> h.id != id
      ensures forall h :: h in old(habits) && h.id != id ==> h in habits
      ensures completions == old(completions) - {id}
    {
      habits := Seqs.Filter((h: Habit) => h.id != id, habits);
      completions := completions - {id};
    }

    /**
     * `toggleCompletion`: flips the (habitId, date) entry, creating the map if
     * needed, then stores the streak walk over the updated map in the first
     * habit with that id.
     */
    method ToggleCompletion(habitId: HabitId, date: Day, today: Day)
      modifies this
      ensures completions == Toggled(old(completions), habitId, date)
      ensures habits == WithStreak(old(habits), habitId, StreakAt(completions[habitId], today))
    {
      ghost var before := completions;
      if habitId !in completions {
        completions := completions[habitId := map[]];
      }
      var isCompleted := Truthy(completions[habitId], date);
      completions := completions[habitId := completions[habitId][date := !isCompleted]];
      assert completions == Toggled(before, habitId, date);
      var index := FirstIndex(habits, habitId);
      if index >= 0 {
        var streak := CalculateCurrentStreak(completions[habitId], today);
        habits := habits[index := habits[index].(streak := streak)];
      }
    }

    /** `loadHabits`: replaces both parts, each defaulting to empty when the payload lacks it. */
    method LoadHabits(newHabits: Option<seq<Habit>>, newCompletions: Option<Completions>)
      modifies this
      ensures habits == newHabits.GetOr([])
      ensures completions == newCompletions.GetOr(map[])
    {
      habits := newHabits.GetOr([]);
      completions := newCompletions.GetOr(map[]);
    }
  }

  /**
   * Two toggles of the same (habit, date) restore whether every entry is done;
   * the toggled entry is now present, an originally absent one as an explicit false.
   */
  lemma ToggleTwiceRestoresTruthiness(cs: Completions, habitId: HabitId, date: Day)
    ensures var r := Toggled(Toggled(cs, habitId, date), habitId, date);
      && (forall id, d :: DoneOn(r, id, d) == DoneOn(cs, id, d))
      && date in r[habitId] && r[habitId][date] == DoneOn(cs, habitId, date)
      && (forall id :: id != habitId ==> (id in r <==> id in cs) && (id in cs ==> r[id] == cs[id]))
  {
    var m := if habitId in cs then cs[habitId] else map[];
    FlipTwice(m, date);
  }

  /** Two toggles of the same (habit, date) give back the streak of the original map. */
  lemma ToggleTwiceRestoresStreak(cs: Completions, habitId: HabitId, date: Day, today: Day)
    ensures var r := Toggled(Toggled(cs, habitId, date), habitId, date);
      StreakAt(r[habitId], today) == StreakAt(if habitId in cs then cs[habitId] else map[], today)
  {
    var m := if habitId in cs then cs[habitId] else map[];
    FlipTwiceKeepsStreak(m, date, today);
  }

  /**
   * A client that toggles the same entry twice ends with the habit list it had
   * except that the first habit with the id now carries the walk over its
   * original map, whatever value its streak held before.
   */
  method ToggleTwice(state: HabitsState, habitId: HabitId, date: Day, today: Day)
    modifies state
    ensures forall id, d :: DoneOn(state.completions, id, d) == DoneOn(old(state.completions), id, d)
    ensures state.habits == WithStreak(old(state.habits), habitId,
      StreakAt(if habitId in old(state.completions) then old(state.completions)[habitId] else map[], today))
  {
    ghost var cs := state.completions;
    state.ToggleCompletion(habitId, date, today);
    state.ToggleCompletion(habitId, date, today);
    ToggleTwiceRestoresTruthiness(cs, habitId, date);
    ToggleTwiceRestoresStreak(cs, habitId, date, today);
    FirstIndexWithStreak(old(state.habits), habitId, StreakAt(Toggled(cs, habitId, date)[habitId], today));
  }

  /** Writing a streak does not move the first habit with the id, and a second write replaces the first. */
  lemma FirstIndexWithStreak(hs: seq<Habit>, habitId: HabitId, s: int)
    ensures FirstIndex(WithStreak(hs, habitId, s), habitId) == FirstIndex(hs, habitId)
    ensures forall s' :: WithStreak(WithStreak(hs, habitId, s), habitId, s') == WithStreak(hs, habitId, s')
  {
    var i := FirstIndex(hs, habitId);
    var r := WithStreak(hs, habitId, s);
    FirstIndexUnique(r, habitId, i);
  }

  /** `FirstIndex` is characterised by its contract. */
  lemma FirstIndexUnique(hs: seq<Habit>, id: HabitId, i: int)
    requires -1 <= i < |hs|
    requires i >= 0 ==> hs[i].id == id
    requires forall j :: 0 <= j < |hs| && (i < 0 || j < i) ==> hs[j].id != id
    ensures FirstIndex(hs, id) == i
  {
  }
}
