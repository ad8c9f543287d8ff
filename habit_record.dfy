/**
 * The habit record of the client-side store and its completion maps. A date
 * key `YYYY-MM-DD` is represented by its day number; the map from habit id
 * to completion map is kept beside the habit list, as the store keeps it.
 */
module HabitRecord {
  import opened Wrappers

  type Day = int
  type HabitId = string

  /** One habit's sparse record: absent days are not done. */
  type CompletionMap = map<Day, bool>

  /** Every habit's completion map, by habit id. */
  type Completions = map<HabitId, CompletionMap>

  /** A habit as the client store holds it; `createdAt` is a millisecond timestamp. */
  datatype Habit = Habit(
    id: HabitId,
    name: string,
    category: string,
    icon: Option<string>,
    scheduledDays: seq<string>,
    scheduledTime: string,
    color: string,
    createdAt: int,
    streak: int)

  /** `completions[day]` is truthy: present and true. */
  predicate Truthy(m: CompletionMap, day: Day) {
    day in m && m[day]
  }

  /** `completions[id] && completions[id][day]`: the habit was done on that day. */
  predicate DoneOn(cs: Completions, id: HabitId, day: Day) {
    id in cs && Truthy(cs[id], day)
  }

  /** `value || fallback` on a string: a missing or empty string falls back. */
  function OrDefault(value: Option<string>, fallback: string): (r: string)
    ensures value.Some? && value.value != "" ==> r == value.value
    ensures value.None? || value.value == "" ==> r == fallback
  {
    if value.Some? && value.value != "" then value.value else fallback
  }

  /** `m[day] = !m[day]`: absent counts as not done, so the first flip sets true. */
  function Flip(m: CompletionMap, day: Day): (r: CompletionMap)
    ensures day in r && r[day] == !Truthy(m, day)
    ensures forall d :: d != day ==> (d in r <==> d in m) && (d in m ==> r[d] == m[d])
  {
    m[day := !Truthy(m, day)]
  }

  /** Flipping the same day twice restores whether every day is done; the day is then present. */
  lemma FlipTwice(m: CompletionMap, day: Day)
    ensures forall d :: Truthy(Flip(Flip(m, day), day), d) == Truthy(m, d)
    ensures day in Flip(Flip(m, day), day) && Flip(Flip(m, day), day)[day] == Truthy(m, day)
  {
    var once := Flip(m, day);
    forall d | d != day ensures Truthy(Flip(once, day), d) == Truthy(m, d) {
      assert d in Flip(once, day) <==> d in once;
    }
  }
}
