/**
 * The server's habit handlers over a store of documents keyed by id: list the
 * caller's habits newest first, create with validation and defaults, and
 * update, delete or toggle a habit behind the not-found and ownership guards.
 */
module HabitController {
  import opened Wrappers
  import opened HabitRecord
  import opened HabitSchema
  import Text
  import Streak

  /** What a handler answers, by HTTP status. */
  datatype Response =
    | Ok(doc: HabitDoc)        // 200 with the habit
    | Created(doc: HabitDoc)   // 201 with the new habit
    | DeletedOk                // 200 with a confirmation message
    | BadRequest               // 400
    | Forbidden                // 403
    | NotFound                 // 404
    | ServerError              // 500: a validation or store error was caught

  /** The fields a create request may carry. */
  datatype CreateBody = CreateBody(
    name: Option<string>,
    category: Option<string>,
    icon: Option<string>,
    scheduledDays: Option<seq<string>>,
    scheduledTime: Option<string>,
    color: Option<string>)

  /** The fields an update request may carry; absent fields are left as stored. */
  datatype UpdateBody = UpdateBody(
    userId: Option<string>,
    name: Option<string>,
    category: Option<string>,
    icon: Option<string>,
    scheduledDays: Option<seq<string>>,
    scheduledTime: Option<string>,
    color: Option<string>,
    streak: Option<int>,
    completions: Option<CompletionMap>)

  /** `!value` on a request string: absent or empty. */
  predicate Missing(value: Option<string>) {
    value.None? || value.value == ""
  }

  /** The input handed to the schema on create: the caller owns it, `||` defaults, streak 0, no completions. */
  function CreateInput(caller: string, body: CreateBody): (input: HabitInput)
    requires !Missing(body.name) && !Missing(body.category)
    ensures input.userId == caller && input.name == body.name.value && input.category == body.category.value
    ensures input.icon == Some(OrDefault(body.icon, DefaultIcon))
    ensures input.scheduledDays == Some(body.scheduledDays.GetOr([]))
    ensures input.scheduledTime == Some(OrDefault(body.scheduledTime, ""))
    ensures input.color == Some(OrDefault(body.color, DefaultColor))
    ensures input.streak == Some(0) && input.completions == Some(map[])
  {
    HabitInput(
      caller, body.name.value, body.category.value,
      Some(OrDefault(body.icon, DefaultIcon)),
      Some(body.scheduledDays.GetOr([])),
      Some(OrDefault(body.scheduledTime, "")),
      Some(OrDefault(body.color, DefaultColor)),
      Some(0),
      Some(map[]))
  }

  /** The stored document with the update body merged in; the name passes the `trim` setter. */
  function Patched(d: HabitDoc, body: UpdateBody): (r: HabitDoc)
    ensures r.id == d.id && r.createdAt == d.createdAt
    ensures r.userId == body.userId.GetOr(d.userId)
    ensures r.name == (if body.name.Some? then Text.Trim(body.name.value) else d.name)
    ensures r.category == body.category.GetOr(d.category)
    ensures r.icon == body.icon.GetOr(d.icon)
    ensures r.scheduledDays == body.scheduledDays.GetOr(d.scheduledDays)
    ensures r.scheduledTime == body.scheduledTime.GetOr(d.scheduledTime)
    ensures r.color == body.color.GetOr(d.color)
    ensures r.streak == body.streak.GetOr(d.streak)
    ensures r.completions == body.completions.GetOr(d.completions)
  {
    d.(
      userId := body.userId.GetOr(d.userId),
      name := if body.name.Some? then Text.Trim(body.name.value) else d.name,
      category := body.category.GetOr(d.category),
      icon := body.icon.GetOr(d.icon),
      scheduledDays := body.scheduledDays.GetOr(d.scheduledDays),
      scheduledTime := body.scheduledTime.GetOr(d.scheduledTime),
      color := body.color.GetOr(d.color),
      streak := body.streak.GetOr(d.streak),
      completions := body.completions.GetOr(d.completions))
  }

  /** An update body that names no field leaves the document as it is. */
  lemma EmptyPatchIsIdentity(d: HabitDoc)
    ensures Patched(d, UpdateBody(None, None, None, None, None, None, None, None, None)) == d
  {
  }

  /**
   * The guard shared by update, delete and toggle: an unknown id is 404, a
   * habit of another user is 403, and only the owner gets through.
   */
  function Authorize(docs: map<string, HabitDoc>, caller: string, id: string): (r: Option<Response>)
    ensures r == Some(NotFound) <==> id !in docs
    ensures r == Some(Forbidden) <==> id in docs && docs[id].userId != caller
    ensures r.None? <==> id in docs && docs[id].userId == caller
  {
    if id !in docs then Some(NotFound)
    else if docs[id].userId != caller then Some(Forbidden)
    else None
  }

  predicate SortedByCreatedDesc(s: seq<HabitDoc>) {
    forall i, j :: 0 <= i < j < |s| ==> s[i].createdAt >= s[j].createdAt
  }

  predicate DistinctIds(s: seq<HabitDoc>) {
    forall i, j :: 0 <= i < j < |s| ==> s[i].id != s[j].id
  }

  lemma PrependKeepsOrder(a: HabitDoc, s: seq<HabitDoc>)
    requires SortedByCreatedDesc(s)
    requires forall x :: x in s ==> x.createdAt <= a.createdAt
    ensures SortedByCreatedDesc([a] + s)
  {
    var r := [a] + s;
    forall i, j | 0 <= i < j < |r| ensures r[i].createdAt >= r[j].createdAt {
      assert r[j] == s[j - 1];
      if i > 0 { assert r[i] == s[i - 1]; }
    }
  }

  lemma PrependKeepsDistinct(a: HabitDoc, s: seq<HabitDoc>)
    requires DistinctIds(s)
    requires forall x :: x in s ==> x.id != a.id
    ensures DistinctIds([a] + s)
  {
    var r := [a] + s;
    forall i, j | 0 <= i < j < |r| ensures r[i].id != r[j].id {
      assert r[j] == s[j - 1];
      if i > 0 { assert r[i] == s[i - 1]; }
    }
  }

  /** Places `d` before the first document that is not newer, so the list stays newest first. */
  function InsertByCreatedDesc(d: HabitDoc, s: seq<HabitDoc>): (r: seq<HabitDoc>)
    requires SortedByCreatedDesc(s)
    ensures SortedByCreatedDesc(r)
    ensures multiset(r) == multiset(s) + multiset{d}
  {
    if s == [] || s[0].createdAt <= d.createdAt then
      PrependKeepsOrder(d, s);
      [d] + s
    else
      var tail := InsertByCreatedDesc(d, s[1..]);
      assert s == [s[0]] + s[1..];
      NoneNewerThanHead(d, s, tail);
      PrependKeepsOrder(s[0], tail);
      [s[0]] + tail
  }

  lemma NoneNewerThanHead(d: HabitDoc, s: seq<HabitDoc>, tail: seq<HabitDoc>)
    requires SortedByCreatedDesc(s) && s != [] && d.createdAt < s[0].createdAt
    requires multiset(tail) == multiset(s[1..]) + multiset{d}
    ensures forall x :: x in tail ==> x.createdAt <= s[0].createdAt
  {
    forall x | x in tail ensures x.createdAt <= s[0].createdAt {
      assert x in multiset(tail);
      if x != d {
        assert x in multiset(s[1..]);
        var k :| 0 <= k < |s[1..]| && s[1..][k] == x;
        assert s[k + 1] == x;
      }
    }
  }

  /** Inserting a document whose id the list does not hold keeps the ids distinct. */
  lemma {:induction false} InsertKeepsDistinct(d: HabitDoc, s: seq<HabitDoc>)
    requires SortedByCreatedDesc(s) && DistinctIds(s)
    requires forall x :: x in s ==> x.id != d.id
    ensures DistinctIds(InsertByCreatedDesc(d, s))
  {
    if s == [] || s[0].createdAt <= d.createdAt {
      PrependKeepsDistinct(d, s);
    } else {
      var tail := InsertByCreatedDesc(d, s[1..]);
      assert s == [s[0]] + s[1..];
      assert DistinctIds(s[1..]);
      InsertKeepsDistinct(d, s[1..]);
      forall x | x in tail ensures x.id != s[0].id {
        assert x in multiset(tail);
        if x != d {
          assert x in multiset(s[1..]);
          var k :| 0 <= k < |s[1..]| && s[1..][k] == x;
          assert s[k + 1] == x;
        }
      }
      PrependKeepsDistinct(s[0], tail);
    }
  }

  /** The documents of the store, each stored under its own id and valid for the schema. */
  class HabitStore {
    var docs: map<string, HabitDoc>

    /** Every document is stored under its own id. */
    ghost predicate KeyedById()
      reads this
    {
      forall id :: id in docs ==> docs[id].id == id
    }

    ghost predicate Valid()
      reads this
    {
      KeyedById() && forall id :: id in docs ==> HabitSchema.Valid(docs[id])
    }

    constructor ()
      ensures Valid() && docs == map[]
    {
      docs := map[];
    }

    /** `find({ userId }).sort({ createdAt: -1 })`: the caller's habits, each once, newest first. */
    method GetHabits(caller: string) returns (habits: seq<HabitDoc>)
      requires KeyedById()
      ensures forall i :: 0 <= i < |habits| ==>
        habits[i].id in docs && docs[habits[i].id] == habits[i] && habits[i].userId == caller
      ensures forall id :: id in docs && docs[id].userId == caller ==> docs[id] in habits
      ensures DistinctIds(habits)
      ensures SortedByCreatedDesc(habits)
    {
      var remaining := docs.Keys;
      habits := [];
      while remaining != {}
        invariant remaining <= docs.Keys
        invariant forall x :: x in habits ==>
          x.id in docs && docs[x.id] == x && x.userId == caller && x.id !in remaining
        invariant forall id :: id in docs && id !in remaining && docs[id].userId == caller ==> docs[id] in habits
        invariant DistinctIds(habits)
        invariant SortedByCreatedDesc(habits)
        decreases remaining
      {
        var id :| id in remaining;
        ghost var seen := remaining;
        remaining := remaining - {id};
        var d := docs[id];
        assert d.id == id;
        var before := habits;
        if d.userId == caller {
          InsertKeepsDistinct(d, habits);
          habits := InsertByCreatedDesc(d, habits);
          assert forall x :: x in habits <==> x == d || x in before by {
            forall x ensures x in habits <==> x == d || x in before {
              assert x in habits <==> x in multiset(habits);
            }
          }
        }
        forall other | other in docs && other !in remaining && docs[other].userId == caller
          ensures docs[other] in habits
        {
          if other != id {
            assert other !in seen;
            assert docs[other] in before;
          }
        }
      }
      forall i | 0 <= i < |habits|
        ensures habits[i].id in docs && docs[habits[i].id] == habits[i] && habits[i].userId == caller
      {
        assert habits[i] in habits;
      }
    }

    /**
     * `createHabit`: 400 when name or category is missing; otherwise the
     * document built with the handler's defaults is stored, unless its id is
     * taken or it fails validation, which the handler reports as 500.
     */
    method CreateHabit(caller: string, id: string, now: int, body: CreateBody) returns (res: Response)
      requires Valid()
      modifies this
      ensures Valid()
      ensures Missing(body.name) || Missing(body.category) ==> res == BadRequest && docs == old(docs)
      ensures !Missing(body.name) && !Missing(body.category) ==>
        var d := Build(id, now, CreateInput(caller, body));
        if id in old(docs) || !HabitSchema.Valid(d) then res == ServerError && docs == old(docs)
        else res == Created(d) && docs == old(docs)[id := d]
      ensures res.Created? ==>
        && res.doc.userId == caller && res.doc.streak == 0 && res.doc.completions == map[]
        && res.doc.name == Text.Trim(body.name.value) && res.doc.name != ""
        && res.doc.category in Categories
        && res.doc.icon == OrDefault(body.icon, DefaultIcon)
        && res.doc.scheduledDays == body.scheduledDays.GetOr([])
        && res.doc.scheduledTime == OrDefault(body.scheduledTime, "")
        && res.doc.color == OrDefault(body.color, DefaultColor)
    {
      if Missing(body.name) || Missing(body.category) {
        return BadRequest;
      }
      var d := Build(id, now, CreateInput(caller, body));
      if id in docs || Validate(d).Some? {
        return ServerError;
      }
      docs := docs[id := d];
      res := Created(d);
    }

    /**
     * `updateHabit`: behind the guard, merges the body into the stored
     * document; a merged document that fails validation is a 500 and
     * nothing is written.
     */
    method UpdateHabit(caller: string, id: string, body: UpdateBody) returns (res: Response)
      requires Valid()
      modifies this
      ensures Valid()
      ensures Authorize(old(docs), caller, id).Some? ==>
        res == Authorize(old(docs), caller, id).value && docs == old(docs)
      ensures Authorize(old(docs), caller, id).None? ==>
        var d := Patched(old(docs)[id], body);
        if HabitSchema.Valid(d) then res == Ok(d) && docs == old(docs)[id := d]
        else res == ServerError && docs == old(docs)
    {
      var denied := Authorize(docs, caller, id);
      if denied.Some? {
        return denied.value;
      }
      var d := Patched(docs[id], body);
      if Validate(d).Some? {
        return ServerError;
      }
      docs := docs[id := d];
      res := Ok(d);
    }

    /** `deleteHabit`: behind the guard, removes exactly that document. */
    method DeleteHabit(caller: string, id: string) returns (res: Response)
      requires Valid()
      modifies this
      ensures Valid()
      ensures Authorize(old(docs), caller, id).Some? ==>
        res == Authorize(old(docs), caller, id).value && docs == old(docs)
      ensures Authorize(old(docs), caller, id).None? ==>
        res == DeletedOk && docs == old(docs) - {id}
    {
      var denied := Authorize(docs, caller, id);
      if denied.Some? {
        return denied.value;
      }
      docs := docs - {id};
      res := DeletedOk;
    }

    /**
     * `toggleCompletion`: behind the guard, flips the entry for `date`
     * (absent counts as not done) and stores the streak walked back from
     * `today` over the updated map.
     */
    method ToggleCompletion(caller: string, id: string, date: Day, today: Day) returns (res: Response)
      requires Valid()
      modifies this
      ensures Valid()
      ensures Authorize(old(docs), caller, id).Some? ==>
        res == Authorize(old(docs), caller, id).value && docs == old(docs)
      ensures Authorize(old(docs), caller, id).None? ==>
        var m := Flip(old(docs)[id].completions, date);
        var d := old(docs)[id].(completions := m, streak := Streak.StreakAt(m, today));
        res == Ok(d) && docs == old(docs)[id := d]
    {
      var denied := Authorize(docs, caller, id);
      if denied.Some? {
        return denied.value;
      }
      var habit := docs[id];
      var completions := habit.completions;
      completions := completions[date := !Truthy(completions, date)];
      var streak := Streak.CalculateCurrentStreak(completions, today);
      habit := habit.(completions := completions, streak := streak);
      docs := docs[id := habit];
      res := Ok(habit);
    }
  }

  /** A client: the owner toggles the same date twice; the entry's truthiness and the streak come back. */
  method ToggleTwice(store: HabitStore, caller: string, id: string, date: Day, today: Day)
    requires store.Valid()
    requires id in store.docs && store.docs[id].userId == caller
    modifies store
    ensures store.Valid() && store.docs.Keys == old(store.docs.Keys)
    ensures forall d :: Truthy(store.docs[id].completions, d) == Truthy(old(store.docs[id].completions), d)
    ensures store.docs[id].streak == Streak.StreakAt(old(store.docs[id].completions), today)
    ensures forall other :: other in store.docs && other != id ==> store.docs[other] == old(store.docs[other])
  {
    ghost var m := store.docs[id].completions;
    var r1 := store.ToggleCompletion(caller, id, date, today);
    var r2 := store.ToggleCompletion(caller, id, date, today);
    FlipTwice(m, date);
    Streak.FlipTwiceKeepsStreak(m, date, today);
  }
}
