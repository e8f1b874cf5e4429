/** The barcode scanner: a scan gate, a fixed look-up result, logging the
    scanned food, and "Scan Again". */
module BarcodeScannerScreen {
  import opened Results
  import opened JsValue
  import opened Firestore
  import opened Alerts
  import MealRecords
  import PlanScreen

  datatype FoodData = FoodData(name: string, calories: int, protein: int, carbs: int, fat: int)

  /** The look-up of a scanned code: a fixed record whatever the code. */
  function LookUp(barcode: string): (r: FoodData)
    ensures r.name == "Granola Bar" && r.calories == 150
    ensures r.protein == 3 && r.carbs == 25 && r.fat == 5
  {
    FoodData("Granola Bar", 150, 3, 25, 5)
  }

  /** The scanned code does not influence the record. */
  lemma {:induction false} LookUpIgnoresCode(a: string, b: string)
    ensures LookUp(a) == LookUp(b)
  {
  }

  /** The document handleAddToMealLog writes. */
  function ScannedMealDocument(food: FoodData, uid: string): (r: Document)
    ensures r.Keys == {"name", "calories", "protein", "carbs", "fat", "mealType", "timestamp", "userId"}
    ensures r["name"] == Plain(Str(food.name)) && r["calories"] == Plain(Num(food.calories))
    ensures r["protein"] == Plain(Num(food.protein)) && r["carbs"] == Plain(Num(food.carbs))
    ensures r["fat"] == Plain(Num(food.fat)) && r["timestamp"] == ServerTimestamp
    ensures MealRecords.MealTypeOf(r) == Str("scanned") && r["userId"] == Plain(Str(uid))
  {
    map["name" := Plain(Str(food.name)), "calories" := Plain(Num(food.calories)),
        "protein" := Plain(Num(food.protein)), "carbs" := Plain(Num(food.carbs)), "fat" := Plain(Num(food.fat)),
        "mealType" := Plain(Str("scanned")), "timestamp" := ServerTimestamp, "userId" := Plain(Str(uid))]
  }

  /** A scanned meal's type is "scanned", which no container of the day
      planner shows. */
  lemma {:induction false} ScannedMealInNoContainer(food: FoodData, uid: string)
    ensures !PlanScreen.InSomeContainer(MealRecords.MealTypeOf(ScannedMealDocument(food, uid)))
  {
    forall i | 0 <= i < |PlanScreen.MealContainers|
      ensures "scanned" != PlanScreen.MealContainers[i].mealType
    {
      assert "scanned"[1] != PlanScreen.MealContainers[i].mealType[1];
    }
  }

  class ScannerState {
    const user: Option<string>
    var scanned: bool
    var foodData: Option<FoodData>
    var isLoading: bool

    constructor (user: Option<string>)
      ensures this.user == user && !scanned && foodData == None && !isLoading
    {
      this.user := user;
      scanned := false;
      foodData := None;
      isLoading := false;
    }

    /** handleBarCodeScanned: ignored while a scan is shown; otherwise the
        gate closes and the looked-up record is shown. */
    method OnBarCodeScanned(barcode: string)
      modifies this`scanned, this`foodData, this`isLoading
      ensures old(scanned) ==> unchanged(this)
      ensures !old(scanned) ==> scanned && foodData == Some(LookUp(barcode)) && !isLoading
    {
      if scanned {
        return;
      }
      scanned := true;
      isLoading := true;
      foodData := Some(LookUp(barcode));
      isLoading := false;
    }

    /** handleAddToMealLog: nothing without food data or a user; otherwise
        one document is written, and success goes back. */
    method HandleAddToMealLog(writeOk: bool) returns (written: Option<Document>, alert: Option<Alert>, wentBack: bool)
      ensures foodData.None? || user.None? ==> written == None && alert == None && !wentBack
      ensures foodData.Some? && user.Some? ==>
                written == Some(ScannedMealDocument(foodData.value, user.value)) && wentBack == writeOk
                && alert == Some(if writeOk then Alert("Success", "Meal added to your log!")
                                 else Alert("Error", "Failed to save meal. Please try again."))
    {
      if foodData.None? || user.None? {
        return None, None, false;
      }
      written := Some(ScannedMealDocument(foodData.value, user.value));
      if writeOk {
        alert := Some(Alert("Success", "Meal added to your log!"));
        wentBack := true;
      } else {
        alert := Some(Alert("Error", "Failed to save meal. Please try again."));
        wentBack := false;
      }
    }

    /** "Scan Again": reopens the gate and keeps the shown record. */
    method ScanAgain()
      modifies this`scanned
      ensures !scanned
    {
      scanned := false;
    }
  }

  /** A second code scanned before "Scan Again" changes nothing: the first
      code's record stays shown and the gate stays closed. "Scan Again" opens
      the gate and keeps that record; the next scan is then handled again. */
  method ScanSequence(screen: ScannerState, first: string, second: string, third: string)
    returns (foodDataAfterSecond: Option<FoodData>, scannedAfterSecond: bool,
             foodDataAfterAgain: Option<FoodData>, scannedAfterAgain: bool)
    modifies screen
    requires !screen.scanned
    ensures foodDataAfterSecond == Some(LookUp(first)) && scannedAfterSecond
    ensures foodDataAfterAgain == foodDataAfterSecond && !scannedAfterAgain
    ensures screen.scanned && screen.foodData == Some(LookUp(third)) && !screen.isLoading
  {
    screen.OnBarCodeScanned(first);
    screen.OnBarCodeScanned(second);
    foodDataAfterSecond, scannedAfterSecond := screen.foodData, screen.scanned;
    screen.ScanAgain();
    foodDataAfterAgain, scannedAfterAgain := screen.foodData, screen.scanned;
    screen.OnBarCodeScanned(third);
  }
}
