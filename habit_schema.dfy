/**
 * The server's habit record: its shape, the enumerations and required
 * fields that validation enforces, and the defaults and `trim` setter that
 * are applied when a record is built from partial input.
 */
module HabitSchema {
  import opened Wrappers
  import opened HabitRecord
  import Text

  const Categories: seq<string> := [
    "Health & Fitness", "Mindfulness", "Learning", "Productivity",
    "Creativity", "Social", "Self-Care", "Other"
  ]

  const Weekdays: seq<string> := ["Mon", "Tue", "Wed", "Thu", "Fri", "Sat", "Sun"]

  const DefaultIcon: string := "✨"
  const DefaultColor: string := "emerald"

  /** A stored habit document; `createdAt` is the timestamp the store assigns. */
  datatype HabitDoc = HabitDoc(
    id: string,
    userId: string,
    name: string,
    category: string,
    icon: string,
    scheduledDays: seq<string>,
    scheduledTime: string,
    color: string,
    streak: int,
    completions: CompletionMap,
    createdAt: int)

  /** Partial input to the schema: absent paths take the schema's defaults. */
  datatype HabitInput = HabitInput(
    userId: string,
    name: string,
    category: string,
    icon: Option<string>,
    scheduledDays: Option<seq<string>>,
    scheduledTime: Option<string>,
    color: Option<string>,
    streak: Option<int>,
    completions: Option<CompletionMap>)

  /** Why validation refused a document, one reason per schema rule. */
  datatype SchemaError =
    | MissingUserId
    | MissingName
    | MissingCategory
    | UnknownCategory
    | UnknownWeekday(day: string)

  /**
   * What validation demands: an owner, a non-empty name, a listed category
   * and listed weekdays only. A required string must be non-empty. The name
   * is already trimmed by then: that is the setter's doing, not a rule.
   */
  predicate Valid(d: HabitDoc) {
    && d.userId != ""
    && d.name != ""
    && d.category != ""
    && d.category in Categories
    && forall day :: day in d.scheduledDays ==> day in Weekdays
  }

  /** The first scheduled day that is not a weekday name, if any. */
  function FirstUnknownDay(days: seq<string>): (r: Option<string>)
    ensures r.None? <==> forall day :: day in days ==> day in Weekdays
    ensures r.Some? ==> r.value in days && r.value !in Weekdays
  {
    if days == [] then None
    else if days[0] !in Weekdays then Some(days[0])
    else FirstUnknownDay(days[1..])
  }

  /** Schema validation: the error it reports names a rule the document breaks. */
  function Validate(d: HabitDoc): (r: Option<SchemaError>)
    ensures r.None? <==> Valid(d)
    ensures r == Some(MissingUserId) ==> d.userId == ""
    ensures r == Some(MissingName) ==> d.name == ""
    ensures r == Some(MissingCategory) ==> d.category == ""
    ensures r == Some(UnknownCategory) ==> d.category !in Categories
    ensures r.Some? && r.value.UnknownWeekday? ==>
      r.value.day in d.scheduledDays && r.value.day !in Weekdays
  {
    if d.userId == "" then Some(MissingUserId)
    else if d.name == "" then Some(MissingName)
    else if d.category == "" then Some(MissingCategory)
    else if d.category !in Categories then Some(UnknownCategory)
    else match FirstUnknownDay(d.scheduledDays)
      case Some(day) => Some(UnknownWeekday(day))
      case None => None
  }

  /**
   * The document built from input: the name goes through the `trim` setter,
   * each absent path takes its default, and the store stamps `createdAt`.
   */
  function Build(id: string, now: int, input: HabitInput): (d: HabitDoc)
    ensures d.id == id && d.userId == input.userId && d.createdAt == now
    ensures d.name == Text.Trim(input.name) && d.category == input.category
    ensures Text.IsTrimmed(d.name)
    ensures d.icon == (if input.icon.Some? then input.icon.value else DefaultIcon)
    ensures d.scheduledDays == (if input.scheduledDays.Some? then input.scheduledDays.value else [])
    ensures d.scheduledTime == (if input.scheduledTime.Some? then input.scheduledTime.value else "")
    ensures d.color == (if input.color.Some? then input.color.value else DefaultColor)
    ensures d.streak == (if input.streak.Some? then input.streak.value else 0)
    ensures d.completions == (if input.completions.Some? then input.completions.value else map[])
  {
    HabitDoc(
      id, input.userId, Text.Trim(input.name), input.category,
      input.icon.GetOr(DefaultIcon),
      input.scheduledDays.GetOr([]),
      input.scheduledTime.GetOr(""),
      input.color.GetOr(DefaultColor),
      input.streak.GetOr(0),
      input.completions.GetOr(map[]),
      now)
  }

  /** A built document passes validation exactly when its trimmed name is non-empty and the rest is valid. */
  lemma {:induction false} BuildValidIff(id: string, now: int, input: HabitInput)
    ensures Valid(Build(id, now, input)) <==>
      && input.userId != ""
      && !Text.AllWhitespace(input.name)
      && input.category != ""
      && input.category in Categories
      && forall day :: day in Build(id, now, input).scheduledDays ==> day in Weekdays
  {
    Text.TrimEmptyIff(input.name);
  }
}
