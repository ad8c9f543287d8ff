/**
 * The suggestions panel: the lifetime completion rate sent with a request,
 * taking a suggestion into the habit list, and the difficulty badge colour.
 * The request itself and the reply are not modelled.
 */
module AISuggestions {
  import opened Wrappers
  import opened HabitRecord
  import opened Rounding
  import Seqs
  import HabitsSlice

  /** The entries of a map that are true (`Object.values(m).filter(Boolean).length`). */
  function TrueCount(m: CompletionMap): (n: nat)
    ensures n <= |m|
    ensures n == |set d | d in m && m[d]|
  {
    var trues := set d | d in m && m[d];
    Seqs.SubsetCard(trues, m.Keys);
    |trues|
  }

  /** The denominator one habit adds: its key count, or 1 when it has none (`length || 1`). */
  function Possible(m: CompletionMap): (n: nat)
    ensures n >= 1 && TrueCount(m) <= n
  {
    if |m| > 0 then |m| else 1
  }

  /** The completion map a habit is read with (`completions[habit.id] || {}`). */
  function MapOf(cs: Completions, id: HabitId): CompletionMap {
    if id in cs then cs[id] else map[]
  }

  /** The two running totals over the first habits, with the invariant that bounds the rate. */
  function Totals(hs: seq<Habit>, cs: Completions): (t: (nat, nat))
    ensures t.0 <= t.1 && t.1 >= |hs|
  {
    if hs == [] then (0, 0)
    else
      var rest := Totals(hs[..|hs| - 1], cs);
      var m := MapOf(cs, hs[|hs| - 1].id);
      (rest.0 + TrueCount(m), rest.1 + Possible(m))
  }

  /**
   * `calculateCompletionRate`: 0 with no habits; otherwise the rounded share
   * of true entries over the summed denominators, which lies in [0, 100].
   */
  method CalculateCompletionRate(hs: seq<Habit>, cs: Completions) returns (rate: nat)
    ensures hs == [] ==> rate == 0
    ensures rate <= 100
    ensures hs != [] ==> rate == Percent(Totals(hs, cs).0, Totals(hs, cs).1)
  {
    if |hs| == 0 {
      return 0;
    }
    var totalCompleted, totalPossible := SumTotals(hs, cs);
    // `totalPossible > 0 ? ... : 0`: Percent carries the same guard
    rate := Percent(totalCompleted, totalPossible);
  }

  /** The `forEach` of `calculateCompletionRate`: both totals in one pass. */
  method SumTotals(hs: seq<Habit>, cs: Completions) returns (totalCompleted: nat, totalPossible: nat)
    ensures totalCompleted == Totals(hs, cs).0 && totalPossible == Totals(hs, cs).1
  {
    totalCompleted, totalPossible := 0, 0;
    for i := 0 to |hs|
      invariant totalCompleted == Totals(hs[..i], cs).0 && totalPossible == Totals(hs[..i], cs).1
    {
      assert hs[..i + 1][..i] == hs[..i];
      var habitCompletions := MapOf(cs, hs[i].id);
      totalCompleted := totalCompleted + TrueCount(habitCompletions);
      totalPossible := totalPossible + Possible(habitCompletions);
    }
    assert hs[..|hs|] == hs;
  }

  /** A suggestion from the reply; only the fields the panel uses. */
  datatype Suggestion = Suggestion(name: string, category: string, icon: string, difficulty: string)

  /** `suggestions.filter(s => s.name !== name)`. */
  function WithoutName(suggestions: seq<Suggestion>, name: string): (r: seq<Suggestion>)
    ensures forall s :: s in r ==> s.name != name
    ensures forall s :: s in suggestions && s.name != name ==> s in r
    ensures forall s: Suggestion :: s.name != name ==> multiset(r)[s] == multiset(suggestions)[s]
  {
    Seqs.Filter((s: Suggestion) => s.name != name, suggestions)
  }

  /** Removing the same name again removes nothing more. */
  lemma WithoutNameIdempotent(suggestions: seq<Suggestion>, name: string)
    ensures WithoutName(WithoutName(suggestions, name), name) == WithoutName(suggestions, name)
  {
    Seqs.FilterIdempotent((s: Suggestion) => s.name != name, suggestions);
  }

  /**
   * `handleAddSuggestion`: adds the suggestion as a habit with no schedule,
   * then drops every suggestion of that name from the panel's list.
   */
  method HandleAddSuggestion(state: HabitsSlice.HabitsState, suggestions: seq<Suggestion>, s: Suggestion, id: HabitId, now: int)
    returns (remaining: seq<Suggestion>)
    modifies state
    ensures state.habits == old(state.habits) + [HabitsSlice.NewHabit(id, now,
      HabitsSlice.NewHabitPayload(s.name, s.category, Some(s.icon), Some([]), Some(""), None))]
    ensures state.completions == old(state.completions)[id := map[]]
    ensures remaining == WithoutName(suggestions, s.name)
    ensures s !in remaining
  {
    state.AddHabit(id, now, HabitsSlice.NewHabitPayload(s.name, s.category, Some(s.icon), Some([]), Some(""), None));
    remaining := WithoutName(suggestions, s.name);
  }

  const EasyClass: string := "bg-green-100 text-green-700"
  const MediumClass: string := "bg-yellow-100 text-yellow-700"
  const HardClass: string := "bg-red-100 text-red-700"
  const DefaultClass: string := "bg-gray-100 text-gray-700"

  /** `getDifficultyColor`: green for easy, yellow for medium, red for hard, grey otherwise. */
  function DifficultyColor(difficulty: string): (c: string)
    ensures c in [EasyClass, MediumClass, HardClass, DefaultClass]
    ensures c == EasyClass <==> difficulty == "easy"
    ensures c == MediumClass <==> difficulty == "medium"
    ensures c == HardClass <==> difficulty == "hard"
  {
    assert EasyClass[3] == 'g' && MediumClass[3] == 'y' && HardClass[3] == 'r';
    assert DefaultClass[3] == 'g' && DefaultClass[4] == 'r' && EasyClass[4] == 'r';
    match difficulty
    case "easy" => EasyClass
    case "medium" => MediumClass
    case "hard" => HardClass
    case _ => DefaultClass
  }

  /** The four badges are distinct, so the badge tells the three levels and the rest apart. */
  lemma DifficultyColorsDistinguish(a: string, b: string)
    ensures DifficultyColor(a) == DifficultyColor(b) <==>
      a == b || (a !in ["easy", "medium", "hard"] && b !in ["easy", "medium", "hard"])
  {
    assert EasyClass[3] == 'g' && MediumClass[3] == 'y' && HardClass[3] == 'r';
    assert DefaultClass[3] == 'g' && DefaultClass[4] == 'r' && EasyClass[4] == 'r';
    assert DefaultClass[5] == 'a' && EasyClass[5] == 'e';
  }
}
