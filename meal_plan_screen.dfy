/** The meal planner: per-user diet settings with defaults, a fixed plan of
    four slots adjusted to the diet, and logging a planned meal. */
module MealPlanScreen {
  import opened Results
  import opened JsValue
  import opened Firestore
  import opened Alerts
  import MealRecords
  import PlanScreen

  /** userSettings; the stored values are taken as they are read. */
  datatype Settings = Settings(dietType: Value, cuisinePreference: Value, goalCalories: Value)

  const DefaultSettings: Settings := Settings(Str("none"), Str("any"), Num(2000))

  /** The settings set from a stored document: each falsy value falls back
      to its default. */
  function SettingsFromData(data: Object): (r: Settings)
    ensures Truthy(r.dietType) && Truthy(r.cuisinePreference) && Truthy(r.goalCalories)
    ensures r.dietType == (if Truthy(Get(data, "dietType")) then Get(data, "dietType") else Str("none"))
    ensures r.cuisinePreference
         == (if Truthy(Get(data, "cuisinePreference")) then Get(data, "cuisinePreference") else Str("any"))
    ensures r.goalCalories == (if Truthy(Get(data, "goalCalories")) then Get(data, "goalCalories") else Num(2000))
  {
    Settings(Or(Get(data, "dietType"), Str("none")),
             Or(Get(data, "cuisinePreference"), Str("any")),
             Or(Get(data, "goalCalories"), Num(2000)))
  }

  /** A stored goal of 0 reads as 2000, an empty document as the defaults. */
  lemma {:induction false} SettingsFallbacks(data: Object)
    ensures Get(data, "goalCalories") == Num(0) ==> SettingsFromData(data).goalCalories == Num(2000)
    ensures SettingsFromData(map[]) == DefaultSettings
    ensures Get(data, "dietType") == Str("") ==> SettingsFromData(data).dietType == Str("none")
  {
  }

  datatype Slot = Breakfast | Lunch | Dinner | Snacks

  /** The key under which a slot is stored, also written as the logged meal's type. */
  function SlotName(slot: Slot): string {
    match slot
    case Breakfast => "Breakfast"
    case Lunch => "Lunch"
    case Dinner => "Dinner"
    case Snacks => "Snacks"
  }

  datatype PlanMeal = PlanMeal(name: string, calories: int)

  /** The meal generateMealPlan puts in a slot for a diet type. */
  function SlotMeal(dietType: Value, slot: Slot): (r: PlanMeal)
    ensures r.calories == match slot case Breakfast => 250 case Lunch => 400 case Dinner => 500 case Snacks => 150
  {
    var vegetarian := dietType == Str("vegetarian");
    var vegan := dietType == Str("vegan");
    match slot
    case Breakfast => if vegan then PlanMeal("Tofu Scramble", 250) else PlanMeal("Avocado Toast", 250)
    case Lunch =>
      if vegetarian then PlanMeal("Quinoa Buddha Bowl", 400)
      else if vegan then PlanMeal("Vegan Buddha Bowl", 400)
      else PlanMeal("Grilled Chicken Salad", 400)
    case Dinner =>
      if vegetarian then PlanMeal("Vegetable Stir Fry", 500)
      else if vegan then PlanMeal("Lentil Curry", 500)
      else PlanMeal("Salmon with Quinoa", 500)
    case Snacks => if vegan then PlanMeal("Hummus with Veggies", 150) else PlanMeal("Greek Yogurt", 150)
  }

  type MealPlan = map<Slot, PlanMeal>

  const AllSlots: set<Slot> := {Breakfast, Lunch, Dinner, Snacks}

  lemma {:induction false} EverySlotListed()
    ensures forall s: Slot :: s in AllSlots
  {
    forall s: Slot
      ensures s in AllSlots
    {
      match s
      case Breakfast =>
      case Lunch =>
      case Dinner =>
      case Snacks =>
    }
  }

  /** The plan for a diet type: every slot filled with the diet's meal. */
  function PlanFor(dietType: Value): (r: MealPlan)
    ensures forall s: Slot :: s in r && r[s] == SlotMeal(dietType, s)
  {
    EverySlotListed();
    map s | s in AllSlots :: SlotMeal(dietType, s)
  }

  const DefaultPlan: MealPlan := PlanFor(Str("none"))

  /** The calories of the planned slots together. */
  function PlannedCalories(plan: MealPlan): int {
    (if Breakfast in plan then plan[Breakfast].calories else 0)
    + (if Lunch in plan then plan[Lunch].calories else 0)
    + (if Dinner in plan then plan[Dinner].calories else 0)
    + (if Snacks in plan then plan[Snacks].calories else 0)
  }

  /** Every generated plan fills all four slots with 250, 400, 500 and 150
      calories, 1300 in all, whatever the diet and the calorie goal. */
  lemma {:induction false} PlanCalories(dietType: Value)
    ensures forall s: Slot :: s in PlanFor(dietType)
    ensures PlanFor(dietType)[Breakfast].calories == 250 && PlanFor(dietType)[Lunch].calories == 400
    ensures PlanFor(dietType)[Dinner].calories == 500 && PlanFor(dietType)[Snacks].calories == 150
    ensures PlannedCalories(PlanFor(dietType)) == 1300
  {
  }

  /** The vegetarian plan differs from the default in Lunch and Dinner only. */
  lemma {:induction false} VegetarianPlan()
    ensures PlanFor(Str("vegetarian"))[Breakfast] == DefaultPlan[Breakfast]
    ensures PlanFor(Str("vegetarian"))[Snacks] == DefaultPlan[Snacks]
    ensures PlanFor(Str("vegetarian"))[Lunch] != DefaultPlan[Lunch]
    ensures PlanFor(Str("vegetarian"))[Dinner] != DefaultPlan[Dinner]
  {
  }

  /** The vegan plan replaces every slot. */
  lemma {:induction false} VeganPlan()
    ensures forall s: Slot :: PlanFor(Str("vegan"))[s] != DefaultPlan[s]
  {
    forall s: Slot
      ensures PlanFor(Str("vegan"))[s] != DefaultPlan[s]
    {
      var vegan, other := SlotMeal(Str("vegan"), s), SlotMeal(Str("none"), s);
      assert vegan.name[0] != other.name[0];
    }
  }

  /** Any other diet type, including the settings' fallback, gets the default plan. */
  lemma {:induction false} OtherDietsGetDefaultPlan(dietType: Value)
    requires dietType != Str("vegetarian") && dietType != Str("vegan")
    ensures PlanFor(dietType) == DefaultPlan
  {
  }

  /** The document handleAddToLog writes for a planned meal. */
  function LogDocument(uid: string, slot: Slot, meal: PlanMeal, selectedDate: int): (r: Document)
    ensures r.Keys == {"userId", "mealType", "name", "calories", "timestamp"}
    ensures MealRecords.MealTypeOf(r) == Str(SlotName(slot))
    ensures r["timestamp"] == DateAt(selectedDate)
  {
    map["userId" := Plain(Str(uid)), "mealType" := Plain(Str(SlotName(slot))), "name" := Plain(Str(meal.name)),
        "calories" := Plain(Num(meal.calories)), "timestamp" := DateAt(selectedDate)]
  }

  /** A logged plan meal carries the capitalised slot name as its type, which
      none of the day planner's lower-case containers matches: it is counted
      in the day's total but shown in no container. */
  lemma {:induction false} LoggedPlanMealInNoContainer(uid: string, slot: Slot, meal: PlanMeal, selectedDate: int)
    ensures !PlanScreen.InSomeContainer(MealRecords.MealTypeOf(LogDocument(uid, slot, meal, selectedDate)))
  {
    forall i | 0 <= i < |PlanScreen.MealContainers|
      ensures SlotName(slot) != PlanScreen.MealContainers[i].mealType
    {
      assert SlotName(slot)[0] != PlanScreen.MealContainers[i].mealType[0];
    }
  }

  /** The screen's state. `user` is the signed-in user's uid, if any. */
  class MealPlanScreenState {
    const user: Option<string>
    const selectedDate: int
    var isLoading: bool
    var isGenerating: bool
    var mealPlan: MealPlan
    var userSettings: Settings

    constructor (user: Option<string>, now: int)
      ensures this.user == user && selectedDate == now
      ensures isLoading && !isGenerating && mealPlan == map[] && userSettings == DefaultSettings
    {
      this.user := user;
      selectedDate := now;
      isLoading := true;
      isGenerating := false;
      mealPlan := map[];
      userSettings := DefaultSettings;
    }

    /** fetchUserSettings. Without a user it returns before its try, so the
        loading flag is never cleared. A stored document replaces the
        settings with its values or their defaults; a missing one keeps the
        settings; a failed read raises an alert. */
    method FetchUserSettings(read: Read) returns (alert: Option<Alert>)
      modifies this`isLoading, this`userSettings
      ensures user.None? ==> isLoading == old(isLoading) && userSettings == old(userSettings) && alert == None
      ensures user.Some? ==> !isLoading
      ensures user.Some? && read.Found? ==> userSettings == SettingsFromData(read.data) && alert == None
      ensures user.Some? && read.Missing? ==> userSettings == old(userSettings) && alert == None
      ensures user.Some? && read.ReadFailed? ==>
                (userSettings == old(userSettings) && alert == Some(Alert("Error", "Failed to load user settings")))
    {
      alert := None;
      if user.None? {
        return;
      }
      match read {
        case Found(data) =>
          userSettings := SettingsFromData(data);
        case Missing =>
        case ReadFailed =>
          alert := Some(Alert("Error", "Failed to load user settings"));
      }
      isLoading := false;
    }

    /** generateMealPlan: the default plan is built, then the diet type
        overwrites some of its slots. Without a user nothing happens. */
    method GenerateMealPlan()
      modifies this`mealPlan, this`isGenerating
      ensures user.None? ==> mealPlan == old(mealPlan) && isGenerating == old(isGenerating)
      ensures user.Some? ==> mealPlan == PlanFor(userSettings.dietType) && !isGenerating
    {
      if user.None? {
        return;
      }
      isGenerating := true;
      var plan: MealPlan := map[];
      plan := plan[Breakfast := PlanMeal("Avocado Toast", 250)];
      plan := plan[Lunch := PlanMeal("Grilled Chicken Salad", 400)];
      plan := plan[Dinner := PlanMeal("Salmon with Quinoa", 500)];
      plan := plan[Snacks := PlanMeal("Greek Yogurt", 150)];
      if userSettings.dietType == Str("vegetarian") {
        plan := plan[Lunch := PlanMeal("Quinoa Buddha Bowl", 400)];
        plan := plan[Dinner := PlanMeal("Vegetable Stir Fry", 500)];
      } else if userSettings.dietType == Str("vegan") {
        plan := plan[Breakfast := PlanMeal("Tofu Scramble", 250)];
        plan := plan[Lunch := PlanMeal("Vegan Buddha Bowl", 400)];
        plan := plan[Dinner := PlanMeal("Lentil Curry", 500)];
        plan := plan[Snacks := PlanMeal("Hummus with Veggies", 150)];
      }
      mealPlan := plan;
      isGenerating := false;
    }

    /** handleAddToLog: nothing without a user or a meal in the slot;
        otherwise one document is written and the outcome is reported. */
    method HandleAddToLog(slot: Slot, writeOk: bool) returns (written: Option<Document>, alert: Option<Alert>)
      ensures user.None? || slot !in mealPlan ==> written == None && alert == None
      ensures user.Some? && slot in mealPlan ==>
                written == Some(LogDocument(user.value, slot, mealPlan[slot], selectedDate))
                && alert == Some(if writeOk then Alert("Success", mealPlan[slot].name + " added to your log")
                                 else Alert("Error", "Failed to add meal to log"))
    {
      if user.None? || slot !in mealPlan {
        return None, None;
      }
      written := Some(LogDocument(user.value, slot, mealPlan[slot], selectedDate));
      if writeOk {
        alert := Some(Alert("Success", mealPlan[slot].name + " added to your log"));
      } else {
        alert := Some(Alert("Error", "Failed to add meal to log"));
      }
    }
  }
}
