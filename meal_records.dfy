/** The meal-log entry as the screens read it back from the `meals`
    collection. */
module MealRecords {
  import opened JsValue
  import opened Firestore

  /** A stored meal with its document id. `mealType` is whatever the writer
      stored, undefined when it wrote none. */
  datatype Meal = Meal(id: string, name: string, calories: int, protein: int, carbs: int, fat: int,
                       timestamp: int, mealType: Value)

  /** The meal type a written document will read back with. */
  function MealTypeOf(doc: Document): Value {
    if "mealType" in doc && doc["mealType"].Plain? then doc["mealType"].value else Undefined
  }
}
