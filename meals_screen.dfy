/** Today's meal list: every meal from local midnight on, newest first, with
    deletion by id and a capitalised meal-type label. */
module MealsScreen {
  import opened Results
  import opened JsValue
  import opened Sequences
  import opened MealRecords
  import opened Calendar
  import opened Alerts

  /** The query of fetchMeals: from local midnight today, with no upper bound. */
  function MealsQuery(now: int): (r: TimeRange)
    ensures r.until.None? && r.from <= now && DayOf(r.from) == DayOf(now)
  {
    TimeRange(StartOfDay(now), None)
  }

  /** Every meal from the start of today on is fetched, including meals dated
      on later days; nothing from an earlier day is. */
  lemma {:induction false} MealsQueryFromToday(now: int, t: int)
    ensures Admits(MealsQuery(now), t) <==> DayOf(t) >= DayOf(now)
    ensures t >= now ==> Admits(MealsQuery(now), t)
  {
    var s := StartOfDay(now);
    assert s == DayOf(now) * MsPerDay;
    assert DayOf(t) * MsPerDay <= t < DayOf(t) * MsPerDay + MsPerDay;
    if DayOf(t) >= DayOf(now) {
      assert DayOf(t) * MsPerDay >= DayOf(now) * MsPerDay;
    }
    if t >= s {
      assert DayOf(t) * MsPerDay + MsPerDay > DayOf(now) * MsPerDay;
    }
  }

  /** Descending by timestamp, as the comparator `b - a` orders them. */
  predicate NewestFirst(s: seq<Meal>) {
    forall i, j :: 0 <= i < j < |s| ==> s[i].timestamp >= s[j].timestamp
  }

  /** Places m before the first meal that is not newer than it. */
  function Insert(m: Meal, s: seq<Meal>): seq<Meal> {
    if s == [] || m.timestamp >= s[0].timestamp then [m] + s
    else [s[0]] + Insert(m, s[1..])
  }

  /** Array.prototype.sort with `(a, b) => b.timestamp - a.timestamp`, a
      stable sort, written as an insertion sort. */
  function SortNewestFirst(s: seq<Meal>): (r: seq<Meal>)
    ensures multiset(r) == multiset(s)
  {
    if s == [] then []
    else
      var rest := SortNewestFirst(s[1..]);
      InsertPermutes(s[0], rest);
      assert s == [s[0]] + s[1..];
      Insert(s[0], rest)
  }

  /** The meals stamped t, in order. */
  function WithTimestamp(s: seq<Meal>, t: int): seq<Meal> {
    if s == [] then []
    else (if s[0].timestamp == t then [s[0]] else []) + WithTimestamp(s[1..], t)
  }

  lemma {:induction false} InsertPermutes(m: Meal, s: seq<Meal>)
    ensures multiset(Insert(m, s)) == multiset(s) + multiset{m}
  {
    if s != [] && m.timestamp < s[0].timestamp {
      InsertPermutes(m, s[1..]);
      assert s == [s[0]] + s[1..];
    }
  }

  lemma {:induction false} InsertKeepsOrder(m: Meal, s: seq<Meal>)
    requires NewestFirst(s)
    ensures NewestFirst(Insert(m, s))
  {
    if s != [] && m.timestamp < s[0].timestamp {
      var rest := Insert(m, s[1..]);
      InsertKeepsOrder(m, s[1..]);
      InsertNoNewerThan(m, s[1..], s[0].timestamp);
      var r := [s[0]] + rest;
      assert Insert(m, s) == r;
      forall i, j | 0 <= i < j < |r|
        ensures r[i].timestamp >= r[j].timestamp
      {
        assert r[j] == rest[j - 1];
        if i > 0 {
          assert r[i] == rest[i - 1];
        }
      }
    }
  }

  /** Inserting a meal no newer than b into meals no newer than b keeps them all no newer than b. */
  lemma {:induction false} InsertNoNewerThan(m: Meal, s: seq<Meal>, b: int)
    requires m.timestamp <= b && forall i :: 0 <= i < |s| ==> s[i].timestamp <= b
    ensures forall i :: 0 <= i < |Insert(m, s)| ==> Insert(m, s)[i].timestamp <= b
  {
    if s != [] && m.timestamp < s[0].timestamp {
      var rest := Insert(m, s[1..]);
      InsertNoNewerThan(m, s[1..], b);
      var r := [s[0]] + rest;
      assert Insert(m, s) == r;
      forall i | 0 <= i < |r|
        ensures r[i].timestamp <= b
      {
        if i > 0 {
          assert r[i] == rest[i - 1];
        }
      }
    } else {
      var r := [m] + s;
      assert Insert(m, s) == r;
      forall i | 0 <= i < |r|
        ensures r[i].timestamp <= b
      {
        if i > 0 {
          assert r[i] == s[i - 1];
        }
      }
    }
  }

  lemma {:induction false} InsertStable(m: Meal, s: seq<Meal>, t: int)
    ensures WithTimestamp(Insert(m, s), t) == (if m.timestamp == t then [m] else []) + WithTimestamp(s, t)
  {
    var own := if m.timestamp == t then [m] else [];
    if s == [] || m.timestamp >= s[0].timestamp {
      var r := [m] + s;
      assert Insert(m, s) == r;
      assert r[0] == m && r[1..] == s;
      assert WithTimestamp(r, t) == own + WithTimestamp(s, t);
    } else {
      var rest := Insert(m, s[1..]);
      InsertStable(m, s[1..], t);
      var r := [s[0]] + rest;
      assert Insert(m, s) == r;
      assert r[0] == s[0] && r[1..] == rest;
      var first := if s[0].timestamp == t then [s[0]] else [];
      assert WithTimestamp(r, t) == first + WithTimestamp(rest, t);
      assert WithTimestamp(s, t) == first + WithTimestamp(s[1..], t);
      assert first == [] || own == [];
      assert first + (own + WithTimestamp(s[1..], t)) == own + (first + WithTimestamp(s[1..], t));
    }
  }

  /** The loaded list is ordered newest first. */
  lemma {:induction false} SortIsNewestFirst(s: seq<Meal>)
    ensures NewestFirst(SortNewestFirst(s))
  {
    if s != [] {
      SortIsNewestFirst(s[1..]);
      InsertKeepsOrder(s[0], SortNewestFirst(s[1..]));
    }
  }

  /** Meals with the same timestamp keep their fetched order. */
  lemma {:induction false} SortIsStable(s: seq<Meal>, t: int)
    ensures WithTimestamp(SortNewestFirst(s), t) == WithTimestamp(s, t)
  {
    if s != [] {
      SortIsStable(s[1..], t);
      InsertStable(s[0], SortNewestFirst(s[1..]), t);
    }
  }

  /** A list already newest first comes back unchanged, so sorting twice is
      sorting once. */
  lemma {:induction false} SortKeepsSortedList(s: seq<Meal>)
    requires NewestFirst(s)
    ensures SortNewestFirst(s) == s
  {
    if s != [] {
      SortKeepsSortedList(s[1..]);
      if |s| > 1 {
        assert s[0].timestamp >= s[1].timestamp;
      }
      assert [s[0]] + s[1..] == s;
    }
  }

  lemma {:induction false} SortIdempotent(s: seq<Meal>)
    ensures SortNewestFirst(SortNewestFirst(s)) == SortNewestFirst(s)
  {
    SortIsNewestFirst(s);
    SortKeepsSortedList(SortNewestFirst(s));
  }

  /** The filter of handleDeleteMeal: `meal.id !== mealId`. */
  function RemoveById(meals: seq<Meal>, id: string): (r: seq<Meal>)
    ensures forall m :: m in r <==> m in meals && m.id != id
    ensures Subsequence(r, meals)
  {
    if meals == [] then []
    else
      var init, last := meals[..|meals| - 1], meals[|meals| - 1];
      var rest := RemoveById(init, id);
      assert meals == init + [last];
      SubsequenceSnoc(rest, init, last);
      if last.id != id then rest + [last] else rest
  }

  /** Every meal with another id is kept as often as it was listed; no meal with the id is kept. */
  lemma {:induction false} RemoveByIdCounts(meals: seq<Meal>, id: string)
    ensures forall m :: multiset(RemoveById(meals, id))[m] == if m.id != id then multiset(meals)[m] else 0
  {
    var keep := (m: Meal) => m.id != id;
    RemoveByIdIsFilter(meals, id);
    FilterCounts(meals, keep);
  }

  lemma {:induction false} RemoveByIdIsFilter(meals: seq<Meal>, id: string)
    ensures RemoveById(meals, id) == Filter(meals, (m: Meal) => m.id != id)
  {
    if meals != [] {
      RemoveByIdIsFilter(meals[..|meals| - 1], id);
    }
  }

  /** Deleting an id that no meal carries leaves the list as it was. */
  lemma {:induction false} RemoveAbsentId(meals: seq<Meal>, id: string)
    requires forall m :: m in meals ==> m.id != id
    ensures RemoveById(meals, id) == meals
  {
    if meals != [] {
      var init := meals[..|meals| - 1];
      RemoveAbsentId(init, id);
      assert meals == init + [meals[|meals| - 1]];
    }
  }

  /** Deleting keeps the list newest first. */
  lemma {:induction false} RemoveKeepsOrder(meals: seq<Meal>, id: string)
    requires NewestFirst(meals)
    ensures NewestFirst(RemoveById(meals, id))
  {
    if meals != [] {
      var init, last := meals[..|meals| - 1], meals[|meals| - 1];
      var rest := RemoveById(init, id);
      assert NewestFirst(init);
      RemoveKeepsOrder(init, id);
      if last.id != id {
        var r := rest + [last];
        forall i, j | 0 <= i < j < |r|
          ensures r[i].timestamp >= r[j].timestamp
        {
          if j == |rest| {
            assert r[i] == rest[i] && rest[i] in init;
            var k :| 0 <= k < |init| && init[k] == rest[i];
            assert meals[k] == rest[i];
          } else {
            assert r[i] == rest[i] && r[j] == rest[j];
          }
        }
      }
    }
  }

  /** ASCII `toUpperCase` of one character; other characters are kept. */
  function UpperChar(c: char): char {
    if 'a' <= c <= 'z' then (c as int - 32) as char else c
  }

  /** `s.charAt(0).toUpperCase() + s.slice(1)`. */
  function Capitalize(s: string): (r: string)
    ensures |r| == |s| && (s != [] ==> r[1..] == s[1..])
  {
    if s == [] then [] else [UpperChar(s[0])] + s[1..]
  }

  /** The label under a meal: capitalised meal type. A meal without a string
      meal type makes `charAt` throw while rendering. */
  function TypeLabel(mealType: Value): (r: Option<string>)
    ensures r.Some? <==> mealType.Str?
    ensures r.Some? ==> |r.value| == |mealType.s| && (mealType.s != [] ==> r.value[1..] == mealType.s[1..])
  {
    if mealType.Str? then Some(Capitalize(mealType.s)) else None
  }

  /** The label keeps the length and everything after the first character,
      upper-cases a lower-case first letter, and is stable under repetition. */
  lemma {:induction false} CapitalizeShape(s: string)
    ensures |Capitalize(s)| == |s|
    ensures s != [] ==> Capitalize(s)[1..] == s[1..]
    ensures s != [] && 'a' <= s[0] <= 'z' ==> Capitalize(s)[0] == s[0] - 'a' + 'A'
    ensures s != [] && !('a' <= s[0] <= 'z') ==> Capitalize(s) == s
    ensures Capitalize(Capitalize(s)) == Capitalize(s)
  {
    if s != [] {
      assert Capitalize(s)[1..] == s[1..];
      assert ([s[0]] + s[1..]) == s;
    }
  }

  lemma {:induction false} LabelsOfTheMealTypes()
    ensures TypeLabel(Str("breakfast")) == Some("Breakfast")
    ensures TypeLabel(Str("snack")) == Some("Snack")
    ensures TypeLabel(Str("")) == Some("")
    ensures TypeLabel(Undefined) == None
  {
    assert UpperChar('b') == 'B' && UpperChar('s') == 'S';
    assert "breakfast"[1..] == "reakfast" && "snack"[1..] == "nack";
    assert ['B'] + "reakfast" == "Breakfast" && ['S'] + "nack" == "Snack";
  }

  /** The screen's state: the loaded meals and the loading flag. */
  class MealsScreenState {
    var meals: seq<Meal>
    var isLoading: bool

    constructor ()
      ensures meals == [] && isLoading
    {
      meals := [];
      isLoading := true;
    }

    /** fetchMeals: on success the fetched meals, sorted newest first,
        replace the list; on failure an alert is raised and the list stays.
        Loading ends either way. */
    method FetchMeals(now: int, query: TimeRange -> Option<seq<Meal>>) returns (range: TimeRange, alert: Option<Alert>)
      modifies this
      ensures range == MealsQuery(now)
      ensures query(range).Some? ==> meals == SortNewestFirst(query(range).value) && alert == None
      ensures query(range).None? ==> meals == old(meals)
                                     && alert == Some(Alert("Error", "Failed to load meals. Please try again."))
      ensures !isLoading
    {
      range := MealsQuery(now);
      var result := query(range);
      if result.Some? {
        meals := SortNewestFirst(result.value);
        alert := None;
      } else {
        alert := Some(Alert("Error", "Failed to load meals. Please try again."));
      }
      isLoading := false;
    }

    /** handleDeleteMeal after the confirmation dialog: Cancel does nothing;
        Delete removes the meal locally only once the remote delete has
        succeeded, and otherwise raises an alert. */
    method DeleteMeal(id: string, confirmed: bool, deleteOk: bool) returns (deleteRequested: bool, alert: Option<Alert>)
      modifies this`meals
      ensures deleteRequested == confirmed
      ensures meals == (if confirmed && deleteOk then RemoveById(old(meals), id) else old(meals))
      ensures alert == (if confirmed && !deleteOk
                        then Some(Alert("Error", "Failed to delete meal. Please try again."))
                        else None)
    {
      deleteRequested := confirmed;
      alert := None;
      if confirmed {
        if deleteOk {
          meals := RemoveById(meals, id);
        } else {
          alert := Some(Alert("Error", "Failed to delete meal. Please try again."));
        }
      }
    }
  }

  /** After a fetch and a delete the list holds the remaining fetched meals,
      newest first, and none with the deleted id. */
  method FetchThenDelete(screen: MealsScreenState, now: int, query: TimeRange -> Option<seq<Meal>>, id: string)
    modifies screen
    ensures forall m :: m in screen.meals ==> m.id != id
    ensures query(MealsQuery(now)).Some? ==> NewestFirst(screen.meals)
                                             && Subsequence(screen.meals, SortNewestFirst(query(MealsQuery(now)).value))
  {
    var range, alert := screen.FetchMeals(now, query);
    var fetched := screen.meals;
    var requested, failure := screen.DeleteMeal(id, true, true);
    if query(range).Some? {
      SortIsNewestFirst(query(range).value);
      RemoveKeepsOrder(fetched, id);
    }
  }
}
