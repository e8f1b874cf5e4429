/** The manual meal form: five text inputs, a non-emptiness guard, one
    written document and a reset after success. */
module AddMealScreen {
  import opened Results
  import opened JsValue
  import opened Firestore
  import opened Alerts
  import MealRecords
  import PlanScreen

  /** The guard of handleAddMeal: every input is non-empty. The numeric
      inputs are not checked to be numeric. */
  predicate AllFilled(mealName: string, calories: string, protein: string, carbs: string, fat: string) {
    mealName != "" && calories != "" && protein != "" && carbs != "" && fat != ""
  }

  /** The document handleAddMeal writes: the name as typed, `Number(...)` of
      each numeric input, a server timestamp, and nothing else. */
  function MealDocument(mealName: string, calories: string, protein: string, carbs: string, fat: string)
    : (r: Document)
    ensures r.Keys == {"name", "calories", "protein", "carbs", "fat", "timestamp"}
    ensures r["name"] == Plain(Str(mealName)) && r["timestamp"] == ServerTimestamp
    ensures r["calories"] == Converted(NumberCall, calories) && r["protein"] == Converted(NumberCall, protein)
    ensures r["carbs"] == Converted(NumberCall, carbs) && r["fat"] == Converted(NumberCall, fat)
  {
    map["name" := Plain(Str(mealName)), "calories" := Converted(NumberCall, calories),
        "protein" := Converted(NumberCall, protein), "carbs" := Converted(NumberCall, carbs),
        "fat" := Converted(NumberCall, fat), "timestamp" := ServerTimestamp]
  }

  /** The written meal has neither a user nor a meal type: it reads back with
      an undefined type, which no container of the day planner shows. */
  lemma {:induction false} AddedMealInNoContainer(mealName: string, calories: string, protein: string, carbs: string, fat: string)
    ensures var d := MealDocument(mealName, calories, protein, carbs, fat);
            "userId" !in d && MealRecords.MealTypeOf(d) == Undefined
            && !PlanScreen.InSomeContainer(MealRecords.MealTypeOf(d))
  {
  }

  /** Only emptiness is checked: text that Number() cannot read passes. */
  lemma {:induction false} NonNumericInputPasses()
    ensures AllFilled("Toast", "abc", " ", "1e3", "-")
    ensures !AllFilled("Toast", "100", "", "10", "5")
  {
  }

  class AddMealForm {
    var mealName: string
    var calories: string
    var protein: string
    var carbs: string
    var fat: string

    constructor ()
      ensures mealName == "" && calories == "" && protein == "" && carbs == "" && fat == ""
    {
      mealName, calories, protein, carbs, fat := "", "", "", "", "";
    }

    predicate Cleared()
      reads this
    {
      mealName == "" && calories == "" && protein == "" && carbs == "" && fat == ""
    }

    /** handleAddMeal. A missing input stops it with an alert and no write.
        Otherwise one document is written; on success the five inputs are
        reset, on failure they are kept and an alert is shown. */
    method HandleAddMeal(writeOk: bool) returns (written: Option<Document>, alert: Alert)
      modifies this
      ensures !AllFilled(old(mealName), old(calories), old(protein), old(carbs), old(fat)) ==>
                written == None && alert == Alert("Error", "Please fill in all fields")
                && unchanged(this)
      ensures AllFilled(old(mealName), old(calories), old(protein), old(carbs), old(fat)) ==>
                written == Some(MealDocument(old(mealName), old(calories), old(protein), old(carbs), old(fat)))
      ensures AllFilled(old(mealName), old(calories), old(protein), old(carbs), old(fat)) && writeOk ==>
                alert == Alert("Success", "Meal added successfully") && Cleared()
      ensures AllFilled(old(mealName), old(calories), old(protein), old(carbs), old(fat)) && !writeOk ==>
                alert == Alert("Error", "Failed to add meal") && unchanged(this)
    {
      if mealName == "" || calories == "" || protein == "" || carbs == "" || fat == "" {
        return None, Alert("Error", "Please fill in all fields");
      }
      written := Some(MealDocument(mealName, calories, protein, carbs, fat));
      if !writeOk {
        return written, Alert("Error", "Failed to add meal");
      }
      alert := Alert("Success", "Meal added successfully");
      mealName := "";
      calories := "";
      protein := "";
      carbs := "";
      fat := "";
    }
  }

  /** Submitting right after a successful submission only raises the
      missing-fields alert. */
  method SubmitTwice(form: AddMealForm) returns (second: Option<Document>, alert: Alert)
    modifies form
    ensures second == None && alert == Alert("Error", "Please fill in all fields")
  {
    var first, firstAlert := form.HandleAddMeal(true);
    if first != None {
      assert form.Cleared();
    }
    second, alert := form.HandleAddMeal(true);
  }
}
