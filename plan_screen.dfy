/** The day planner: the meals of the selected day, grouped into five
    containers by meal type, with the day's calorie total, a date label and
    one-day stepping. */
module PlanScreen {
  import opened Results
  import opened JsValue
  import opened Sequences
  import opened MealRecords
  import opened Calendar

  datatype MealContainer = MealContainer(mealType: string, icon: string, displayLabel: string)

  const MealContainers: seq<MealContainer> := [
    MealContainer("breakfast", "cafe-outline", "Breakfast"),
    MealContainer("lunch", "restaurant-outline", "Lunch"),
    MealContainer("dinner", "fast-food-outline", "Dinner"),
    MealContainer("snacks", "nutrition-outline", "Snacks"),
    MealContainer("water", "water-outline", "Water")
  ]

  /** The meal type belongs to one of the first k containers. */
  predicate InContainerBelow(mealType: Value, k: nat) {
    exists i :: 0 <= i < k && i < |MealContainers| && mealType == Str(MealContainers[i].mealType)
  }

  predicate InSomeContainer(mealType: Value) {
    InContainerBelow(mealType, |MealContainers|)
  }

  /** getMealsForType: the meals of type t, in their loaded order. */
  function MealsForType(meals: seq<Meal>, t: string): (r: seq<Meal>)
    ensures forall m :: m in r <==> m in meals && m.mealType == Str(t)
    ensures Subsequence(r, meals)
  {
    if meals == [] then []
    else
      var init, last := meals[..|meals| - 1], meals[|meals| - 1];
      var rest := MealsForType(init, t);
      assert meals == init + [last];
      SubsequenceSnoc(rest, init, last);
      if last.mealType == Str(t) then rest + [last] else rest
  }

  /** The meals that no container shows. */
  function Uncontained(meals: seq<Meal>): (r: seq<Meal>)
    ensures forall m :: m in r <==> m in meals && !InSomeContainer(m.mealType)
    ensures Subsequence(r, meals)
  {
    if meals == [] then []
    else
      var init, last := meals[..|meals| - 1], meals[|meals| - 1];
      var rest := Uncontained(init);
      assert meals == init + [last];
      SubsequenceSnoc(rest, init, last);
      if !InSomeContainer(last.mealType) then rest + [last] else rest
  }

  /** Every meal of type t is kept as often as it was loaded; no other meal is kept. */
  lemma {:induction false} MealsForTypeCounts(meals: seq<Meal>, t: string)
    ensures forall m :: multiset(MealsForType(meals, t))[m] == if m.mealType == Str(t) then multiset(meals)[m] else 0
  {
    var keep := (m: Meal) => m.mealType == Str(t);
    MealsForTypeIsFilter(meals, t);
    FilterCounts(meals, keep);
  }

  lemma {:induction false} MealsForTypeIsFilter(meals: seq<Meal>, t: string)
    ensures MealsForType(meals, t) == Filter(meals, (m: Meal) => m.mealType == Str(t))
  {
    if meals != [] {
      MealsForTypeIsFilter(meals[..|meals| - 1], t);
    }
  }

  /** Every meal that no container shows is kept as often as it was loaded; no other meal is kept. */
  lemma {:induction false} UncontainedCounts(meals: seq<Meal>)
    ensures forall m :: multiset(Uncontained(meals))[m] == if !InSomeContainer(m.mealType) then multiset(meals)[m] else 0
  {
    var keep := (m: Meal) => !InSomeContainer(m.mealType);
    UncontainedIsFilter(meals);
    FilterCounts(meals, keep);
  }

  lemma {:induction false} UncontainedIsFilter(meals: seq<Meal>)
    ensures Uncontained(meals) == Filter(meals, (m: Meal) => !InSomeContainer(m.mealType))
  {
    if meals != [] {
      UncontainedIsFilter(meals[..|meals| - 1]);
    }
  }

  /** getTotalCalories: `meals.reduce((sum, meal) => sum + meal.calories, 0)`. */
  function TotalCalories(meals: seq<Meal>): (r: int)
    ensures (forall i :: 0 <= i < |meals| ==> meals[i].calories >= 0) ==> r >= 0
  {
    if meals == [] then 0 else TotalCalories(meals[..|meals| - 1]) + meals[|meals| - 1].calories
  }

  /** The calories shown in the first k containers together. */
  function CaloriesInContainers(meals: seq<Meal>, k: nat): int
    requires k <= |MealContainers|
  {
    if k == 0 then 0
    else CaloriesInContainers(meals, k - 1) + TotalCalories(MealsForType(meals, MealContainers[k - 1].mealType))
  }

  /** The total is additive over concatenation. */
  lemma {:induction false} TotalCaloriesAppend(a: seq<Meal>, b: seq<Meal>)
    ensures TotalCalories(a + b) == TotalCalories(a) + TotalCalories(b)
  {
    if b != [] {
      assert (a + b)[..|a + b| - 1] == a + b[..|b| - 1];
      TotalCaloriesAppend(a, b[..|b| - 1]);
    } else {
      assert a + b == a;
    }
  }

  /** A meal whose type is a container's type is shown in exactly that container. */
  lemma {:induction false} MealInExactlyOneContainer(meals: seq<Meal>, m: Meal)
    requires m in meals && InSomeContainer(m.mealType)
    ensures exists i :: 0 <= i < |MealContainers| && m in MealsForType(meals, MealContainers[i].mealType)
    ensures forall i, j ::
      (0 <= i < |MealContainers| && 0 <= j < |MealContainers|
       && m in MealsForType(meals, MealContainers[i].mealType)
       && m in MealsForType(meals, MealContainers[j].mealType)) ==> i == j
  {
    ContainerTypesDistinct();
  }

  /** No two containers share a meal type. */
  lemma {:induction false} ContainerTypesDistinct()
    ensures forall i, j :: 0 <= i < j < |MealContainers| ==> MealContainers[i].mealType != MealContainers[j].mealType
  {
    forall i, j | 0 <= i < j < |MealContainers|
      ensures MealContainers[i].mealType != MealContainers[j].mealType
    {
      assert MealContainers[i].mealType[0] != MealContainers[j].mealType[0];
    }
  }

  /** Membership in the first k containers grows by exactly the k-th type. */
  lemma {:induction false} ContainerBelowStep(v: Value, k: nat)
    requires 0 < k <= |MealContainers|
    ensures InContainerBelow(v, k) <==> InContainerBelow(v, k - 1) || v == Str(MealContainers[k - 1].mealType)
    ensures v == Str(MealContainers[k - 1].mealType) ==> !InContainerBelow(v, k - 1)
  {
    ContainerTypesDistinct();
    if v == Str(MealContainers[k - 1].mealType) {
      assert InContainerBelow(v, k) by {
        var i := k - 1;
        assert 0 <= i < k && i < |MealContainers| && v == Str(MealContainers[i].mealType);
      }
    }
  }

  /** A meal of any other type (such as "scanned", or none at all) is shown
      in no container, yet its calories count toward the total. */
  lemma {:induction false} OtherTypesInNoContainer(meals: seq<Meal>, m: Meal)
    requires m in meals && !InSomeContainer(m.mealType)
    ensures forall i :: 0 <= i < |MealContainers| ==> m !in MealsForType(meals, MealContainers[i].mealType)
    ensures m in Uncontained(meals)
    ensures TotalCalories(meals) == CaloriesInContainers(meals, |MealContainers|) + TotalCalories(Uncontained(meals))
  {
    CaloriesPartition(meals);
  }

  lemma {:induction false} ContainersStep(init: seq<Meal>, m: Meal, k: nat)
    requires k <= |MealContainers|
    ensures CaloriesInContainers(init + [m], k)
      == CaloriesInContainers(init, k) + (if InContainerBelow(m.mealType, k) then m.calories else 0)
  {
    if k > 0 {
      ContainersStep(init, m, k - 1);
      ContainerBelowStep(m.mealType, k);
      var t := MealContainers[k - 1].mealType;
      ContainerTotalStep(init, m, t);
      assert CaloriesInContainers(init + [m], k)
        == CaloriesInContainers(init + [m], k - 1) + TotalCalories(MealsForType(init + [m], t));
      assert CaloriesInContainers(init, k)
        == CaloriesInContainers(init, k - 1) + TotalCalories(MealsForType(init, t));
    }
  }

  /** Appending a meal adds its calories to the total of its own type only. */
  lemma {:induction false} ContainerTotalStep(init: seq<Meal>, m: Meal, t: string)
    ensures TotalCalories(MealsForType(init + [m], t))
      == TotalCalories(MealsForType(init, t)) + (if m.mealType == Str(t) then m.calories else 0)
  {
    var extra := if m.mealType == Str(t) then [m] else [];
    MealsForTypeSnoc(init, m, t);
    TotalCaloriesAppend(MealsForType(init, t), extra);
    assert TotalCalories(extra) == (if m.mealType == Str(t) then m.calories else 0) by {
      assert [m][..0] == [];
    }
  }

  lemma {:induction false} MealsForTypeSnoc(init: seq<Meal>, m: Meal, t: string)
    ensures MealsForType(init + [m], t) == MealsForType(init, t) + (if m.mealType == Str(t) then [m] else [])
  {
    var meals := init + [m];
    assert meals[..|meals| - 1] == init;
  }

  lemma {:induction false} UncontainedSnoc(init: seq<Meal>, m: Meal)
    ensures Uncontained(init + [m]) == Uncontained(init) + (if !InSomeContainer(m.mealType) then [m] else [])
  {
    var meals := init + [m];
    assert meals[..|meals| - 1] == init;
  }

  /** The total splits into what the five containers show plus what none shows. */
  lemma {:induction false} CaloriesPartition(meals: seq<Meal>)
    ensures TotalCalories(meals) == CaloriesInContainers(meals, |MealContainers|) + TotalCalories(Uncontained(meals))
  {
    if meals != [] {
      var init, m := meals[..|meals| - 1], meals[|meals| - 1];
      assert meals == init + [m];
      CaloriesPartition(init);
      ContainersStep(init, m, |MealContainers|);
      var extra := if !InSomeContainer(m.mealType) then [m] else [];
      UncontainedSnoc(init, m);
      TotalCaloriesAppend(Uncontained(init), extra);
      assert TotalCalories(extra) == (if !InSomeContainer(m.mealType) then m.calories else 0) by {
        assert [m][..0] == [];
      }
      assert TotalCalories(meals) == TotalCalories(init) + m.calories;
    } else {
      NoMealsNoCalories(|MealContainers|);
    }
  }

  lemma {:induction false} NoMealsNoCalories(k: nat)
    requires k <= |MealContainers|
    ensures CaloriesInContainers([], k) == 0
  {
    if k > 0 {
      NoMealsNoCalories(k - 1);
    }
  }

  /** The query of fetchMeals: from the first to the last millisecond of the selected day. */
  function DayRange(selected: int): (r: TimeRange)
    ensures r.until.Some? && r.from <= selected <= r.until.value
    ensures DayOf(r.from) == DayOf(selected) == DayOf(r.until.value)
    ensures DayOf(r.until.value + 1) == DayOf(selected) + 1
  {
    TimeRange(StartOfDay(selected), Some(EndOfDay(selected)))
  }

  /** The window admits exactly the instants of the selected day. */
  lemma {:induction false} DayRangeIsTheSelectedDay(selected: int, t: int)
    ensures Admits(DayRange(selected), t) <==> DayOf(t) == DayOf(selected)
    ensures Admits(DayRange(selected), StartOfDay(selected)) && Admits(DayRange(selected), EndOfDay(selected))
  {
    DayWindowIsTheDay(selected, t);
  }

  /** getDateDisplay; `format` stands for date-fns formatting with 'MMM d, yyyy'. */
  function DateDisplay(selected: int, now: int, format: int -> string): (r: string)
    ensures DayOf(selected) == DayOf(now) ==> r == "Today"
    ensures DayOf(selected) == DayOf(now) - 1 ==> r == "Yesterday"
    ensures DayOf(selected) == DayOf(now) + 1 ==> r == "Tomorrow"
    ensures !(-1 <= DayOf(selected) - DayOf(now) <= 1) ==> r == format(selected)
  {
    var d := DayOf(selected) - DayOf(now);
    if d == 0 then "Today"
    else if d == -1 then "Yesterday"
    else if d == 1 then "Tomorrow"
    else format(selected)
  }

  /** From today, one swipe left shows "Yesterday" and one swipe right
      "Tomorrow"; two days away the formatted date is shown. */
  lemma {:induction false} DateDisplayAroundToday(now: int, format: int -> string)
    ensures DateDisplay(now, now, format) == "Today"
    ensures DateDisplay(AddDays(now, -1), now, format) == "Yesterday"
    ensures DateDisplay(AddDays(now, 1), now, format) == "Tomorrow"
    ensures DateDisplay(AddDays(now, 2), now, format) == format(AddDays(now, 2))
  {
    AddDaysMovesDay(now, -1);
    AddDaysMovesDay(now, 1);
    AddDaysMovesDay(now, 2);
  }

  /** The screen's state: the selected date, the loaded meals and the loading flag. */
  class PlanScreenState {
    var selectedDate: int
    var meals: seq<Meal>
    var isLoading: bool
    var isDatePickerVisible: bool

    constructor (now: int)
      ensures selectedDate == now && meals == [] && isLoading && !isDatePickerVisible
    {
      selectedDate := now;
      meals := [];
      isLoading := true;
      isDatePickerVisible := false;
    }

    /** fetchMeals: queries the selected day; on success the result replaces
        the meals, on failure they stay; loading ends either way. */
    method FetchMeals(query: TimeRange -> Option<seq<Meal>>) returns (range: TimeRange)
      modifies this
      ensures range == DayRange(selectedDate) && selectedDate == old(selectedDate)
      ensures meals == (if query(range).Some? then query(range).value else old(meals))
      ensures !isLoading && isDatePickerVisible == old(isDatePickerVisible)
    {
      range := DayRange(selectedDate);
      var result := query(range);
      if result.Some? {
        meals := result.value;
      }
      isLoading := false;
    }

    method HandleDateChange(date: int)
      modifies this
      ensures selectedDate == date && !isDatePickerVisible
      ensures meals == old(meals) && isLoading == old(isLoading)
    {
      selectedDate := date;
      isDatePickerVisible := false;
    }

    /** handleSwipeLeft: one day earlier, same time of day. */
    method SwipeLeft()
      modifies this`selectedDate
      ensures DayOf(selectedDate) == DayOf(old(selectedDate)) - 1
      ensures selectedDate == AddDays(old(selectedDate), -1)
    {
      AddDaysMovesDay(selectedDate, -1);
      selectedDate := AddDays(selectedDate, -1);
    }

    /** handleSwipeRight: one day later, same time of day. */
    method SwipeRight()
      modifies this`selectedDate
      ensures DayOf(selectedDate) == DayOf(old(selectedDate)) + 1
      ensures selectedDate == AddDays(old(selectedDate), 1)
    {
      AddDaysMovesDay(selectedDate, 1);
      selectedDate := AddDays(selectedDate, 1);
    }
  }

  /** Swiping left and then right returns to the same date. */
  method SwipeLeftThenRight(screen: PlanScreenState)
    modifies screen`selectedDate
    ensures screen.selectedDate == old(screen.selectedDate)
  {
    screen.SwipeLeft();
    screen.SwipeRight();
  }
}
