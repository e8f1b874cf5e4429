# CalorieTrackerApp core, modelled in Dafny

CalorieTrackerApp is a React Native calorie tracker on Firebase. It also has a
small retrieval-augmented answering service over a nutrition dataset. This
project models the logic of its core and proves properties of that model:

- **Ingestion script** (`functions/processFoodData.mjs`). Each food item
  becomes a text description and an embedding. Items whose embedding fails are
  skipped. All records go to the vector index in one upsert under the namespace
  `nutrition`.
- **Query pipeline** (`RAG/queryProcessor.js`). The question is trimmed,
  embedded and sent to the index (top 5, with metadata). The matched texts are
  joined with line breaks into a fixed prompt for the chat model.
- **HTTP route** (`functions/index.js`). `POST /rag-query` answers 400, 200 or
  500.
- **Firebase configuration** (`firebase-config.js`). Six required fields are
  checked, and the app handle is created once.
- **The screens.**
  - Day planner (`PlanScreen`): meals grouped by type, the day's total, date
    stepping.
  - Today's meals (`MealsScreen`): sorted newest first, with delete.
  - Meal planner (`MealPlanScreen`): diet settings, a fixed plan, logging a
    planned meal.
  - Sign-up and sign-in forms.
  - Manual meal form (`AddMealScreen`).
  - Profile editor (`EditProfileScreen`).
  - Language preference (`LanguageScreen`).
  - Barcode scanner (`BarcodeScannerScreen`).

How the model is built:

- Each source file is a module.
- The pure logic (guards, defaults, filters, sorting, templates) is written as
  functions. The properties about it are lemmas.
- Screen state that handlers update step by step is a class. Each handler is a
  method with a `modifies` clause, run as one sequential step.
- Everything remote is an oracle passed in as a parameter: Firestore reads and
  writes, Firebase Auth, the embedding service, the vector index, the chat
  model and the app registry. Each oracle returns a value or fails.
- Values read from JSON bodies, stored documents and configuration are
  ECMAScript values (`JsValue.Value`): undefined, null, booleans, integers,
  strings, and objects or arrays. An object or array is opaque. It is truthy,
  it is not a string, and it renders as the text it carries. So `||` defaults
  and truthiness checks are exact. A truthy non-string reaches the code
  paths where `.trim()` throws, e.g. a `query` of `["x"]` or an object `name`.
- JavaScript built-ins the code relies on are written out:
  - `String.prototype.trim` uses the ECMAScript whitespace set.
  - `Array.prototype.join`.
  - `parseInt` without a radix: sign, `0x` prefix, longest digit prefix.
  - Number to string.
- Local time is milliseconds since the epoch, with every day 86,400,000 ms long.

Shared modules: `Results` (Option and Result), `JsValue`, `JsText`, `JsNumber`,
`Calendar`, `Sequences` (order-preserving selection), `Firestore` (document
fields, read outcomes), `VectorIndex`, `MealRecords`, `Alerts` and `AuthForms`
(the outcome handling shared by the sign-up and sign-in forms).

Two facts about the code shape the model:

- The ingestion script makes a single upsert of all records. It does not
  batch, and an upsert failure rejects the whole load.
- `functions/index.js` (line 24) requires `processQuery` and `generateResponse`
  from `../queryProcessor`. That path names no file of the repository; the
  pipeline lives in `RAG/queryProcessor.js`. That module is an ES module, and
  it exports `generateResponse` (line 51) but not `processQuery` (line 40). So
  the route is modelled against abstract retrieve and generate functions.
  `RagEndpoint.BlankQueryStillGenerates` instantiates them with the pipeline.

## Model

| member | source | states |
|---|---|---|
| JsText.TrimStart | RAG/queryProcessor.js:41 | the result is a suffix of the input, and it does not start with whitespace |
| JsText.TrimStartDropsWhitespace | RAG/queryProcessor.js:41 | what the start of `trim()` drops is ECMAScript whitespace |
| JsText.TrimEnd | RAG/queryProcessor.js:41 | the result is a prefix of the input, and it does not end with whitespace |
| JsText.TrimEndDropsWhitespace | RAG/queryProcessor.js:41 | what the end of `trim()` drops is whitespace |
| JsText.TrimSplitsInput | RAG/queryProcessor.js:41 | `trim()` cuts its input into whitespace, a trimmed middle (the result) and whitespace |
| JsText.TrimOfPadded | functions/processFoodData.mjs:53 | a trimmed string padded with whitespace on both sides trims back to itself (trim is determined by this) |
| JsText.TrimEmptyIff | RAG/queryProcessor.js:41-42 | a string trims to "" exactly when it is all whitespace |
| JsText.TrimIdempotent | RAG/queryProcessor.js:41 | trimming twice is trimming once |
| JsText.Join | RAG/queryProcessor.js:59 | the first part leads the joined string, followed by the separator when there are more parts |
| JsText.Split | RAG/queryProcessor.js:59 | splitting on a character gives at least one part, and no part contains the character |
| JsText.SplitJoin | RAG/queryProcessor.js:59 | joining parts that are free of c with c and splitting on c returns the parts |
| JsText.JoinSplit | RAG/queryProcessor.js:59 | splitting on c and joining with c returns the string |
| JsNumber.ParseIntOfIntToString | screens/EditProfileScreen.tsx:41-60 | `parseInt` reads back every integer from its decimal string form (the age text the screen loads) |
| JsNumber.ParseIntStopsAtFirstNonDigit | screens/EditProfileScreen.tsx:60 | `parseInt("25abc")` is 25: only the leading digits are read |
| JsNumber.ParseIntWithoutDigits | screens/EditProfileScreen.tsx:60 | `parseInt("abc")` and `parseInt("")` are NaN |
| JsNumber.ParseIntHexPrefix | screens/EditProfileScreen.tsx:60 | without a radix, `parseInt("0x1A")` reads hexadecimal: 26 |
| JsNumber.ParseIntNegativeOnlyAfterMinus | screens/EditProfileScreen.tsx:60 | `parseInt` gives a negative number only when a minus sign follows the leading whitespace |
| JsValue.OrWithTruthyDefault | screens/LanguageScreen.tsx:42 | `x \|\| d` with a truthy default is truthy, and is x exactly when x is truthy |
| Calendar.StartOfDay | screens/PlanScreen.tsx:58-59 | `setHours(0, 0, 0, 0)` gives a time on the same day, no later than the input, less than a day before it |
| Calendar.EndOfDay | screens/PlanScreen.tsx:61-62 | `setHours(23, 59, 59, 999)` gives the last millisecond of the same day: one millisecond later is the next day |
| Calendar.AddDaysMovesDay | screens/PlanScreen.tsx:97-103 | adding n days moves the day number by n and keeps the time of day |
| Calendar.DayWindowIsTheDay | screens/PlanScreen.tsx:58-68 | an instant lies between the start and the end of d's day exactly when it is on d's day |
| FoodIngestion.ItemName | functions/processFoodData.mjs:53 | a name is produced exactly when the item's `name` is falsy (the default name) or a string (trimmed); a truthy non-string has no `trim()` |
| FoodIngestion.TextsAt | functions/processFoodData.mjs:56 | the i-th text sent to the embedding service is the description of item i |
| FoodIngestion.Amount | functions/processFoodData.mjs:56 | `${item[key] \|\| 0}`: a truthy amount is rendered by ToString, a missing or falsy one is "0" |
| FoodIngestion.Description | functions/processFoodData.mjs:56 | the embedded text starts with the dish name followed by ": " |
| FoodIngestion.VectorId | functions/processFoodData.mjs:64 | every record id is truthy: the item's id when truthy, else "auto_<index>" |
| FoodIngestion.ProcessedCount | functions/processFoodData.mjs:49-53 | the loop stops at the first item whose truthy name is not a string (its `trim()` throws); all earlier names are usable |
| FoodIngestion.Succeeded | functions/processFoodData.mjs:59-81 | the indices whose embedding succeeded, strictly increasing, and every such index is listed |
| FoodIngestion.VectorsAreSucceededItems | functions/processFoodData.mjs:59-81 | the records built are exactly those of the items whose embedding succeeded, in input order, each with its id, embedding and embedded text |
| FoodIngestion.VectorCount | functions/processFoodData.mjs:78-81 | the number of records is the number of items minus the failed embeddings |
| FoodIngestion.OneFailedItem | functions/processFoodData.mjs:78-81 | with N items of which only one fails to embed, N - 1 records are built |
| FoodIngestion.WhitespaceNameBecomesEmpty | functions/processFoodData.mjs:53 | a name of only whitespace is truthy, so it trims to "" and does not get the default name |
| FoodIngestion.DefaultNamesAreDistinct | functions/processFoodData.mjs:53 | items without a name get default names that differ per index |
| FoodIngestion.CarbsKeyIsIgnored | functions/processFoodData.mjs:56 | carbohydrates are read from the key `carb`, so an item without it is described with 0g carbs |
| FoodIngestion.LoadFoodData | functions/processFoodData.mjs:25-107 | no API key: nothing is done. A non-string name: rejection at that item, with no upsert. Otherwise one text per item is embedded. No record: "no valid vectors". Else one upsert of all records under `nutrition`, and its failure rejects |
| RagQuery.IndexQuery | RAG/queryProcessor.js:25-30 | the index query carries the given vector and namespace, topK 5 and includeMetadata |
| RagQuery.MatchTexts | RAG/queryProcessor.js:32 | the texts are the matches' `metadata.text` in match order; it fails exactly when some match has no metadata |
| RagQuery.QueryPinecone | RAG/queryProcessor.js:16-37 | a non-empty result comes from a successful index query: one document per match, the match's `metadata.text`, in order |
| RagQuery.QueryPineconeWithoutMetadata | RAG/queryProcessor.js:32-36 | one match without metadata makes the mapping throw inside the try, so no document at all is returned |
| RagQuery.ProcessQuery | RAG/queryProcessor.js:40-48 | a type error exactly when the query is not a string; the failures are only that and a failed embedding of a non-blank trimmed query (an index failure never fails it) |
| RagQuery.ProcessQueryOutcomes | RAG/queryProcessor.js:40-48 | a non-string query fails. A blank query gives [] whatever the services do. An embedding failure propagates. Otherwise the result is queryPinecone of the embedding of the trimmed query, and an index failure degrades to [] |
| RagQuery.ProcessQueryDependsOnTrimmedQuery | RAG/queryProcessor.js:41-47 | queries that trim alike give the same result |
| RagQuery.QueryPineconeTexts | RAG/queryProcessor.js:16-37 | when every match has metadata, the documents are the matches' texts, one per match, in order |
| RagQuery.ContextSplitsBack | RAG/queryProcessor.js:59 | the context of documents without line breaks splits back into those documents |
| RagQuery.Context | RAG/queryProcessor.js:59 | a single document is the whole context |
| RagQuery.EmptyContext | RAG/queryProcessor.js:59 | no documents give an empty context |
| RagQuery.Prompt | RAG/queryProcessor.js:62-68 | the prompt starts with the header, ends with the footer, and is exactly as long as its five parts |
| RagQuery.PromptLayout | RAG/queryProcessor.js:62-68 | the prompt is the header, the context, the middle text, the query and the footer, at fixed offsets |
| RagQuery.PromptForTwoDocuments | RAG/queryProcessor.js:59-68 | documents "A" and "B" give the context "A\nB" right after the header, and the question follows the middle text |
| RagQuery.GenerateResponse | RAG/queryProcessor.js:51-73 | the answer is exactly the chat model's reply to the prompt built from the joined documents and the untrimmed query; the only error is a failed generation |
| RagEndpoint.HandleRagQuery | functions/index.js:31-49 | the status is 200, 400 or 500; at most two calls are made; a 200 carries the answer after both calls |
| RagEndpoint.HandlerOutcomes | functions/index.js:31-49 | 400 exactly when query or namespace is falsy, and then nothing is called. Otherwise retrieval runs first with the body's fields, and generation runs only after retrieval succeeds, with the same query and the retrieved documents. The status is 200 with the answer, or 500 on any failure |
| RagEndpoint.BlankQueryStillGenerates | functions/index.js:34-42 | a non-empty all-whitespace query passes the 400 check, retrieves nothing, and generation still runs with an empty context |
| RagEndpoint.NonStringQueryIsInternalError | functions/index.js:32-48 | any truthy non-string query (true, a non-zero number, an object or an array) passes the 400 check, then `trim()` throws inside the try: 500 |
| FirebaseConfig.MissingAmong | firebase-config.js:20 | the missing fields are exactly the listed fields whose value is falsy, in list order |
| FirebaseConfig.ValidateFirebaseConfig | firebase-config.js:16-30 | it succeeds exactly when no required field is missing, and then with true; its error message starts with the fixed prefix |
| FirebaseConfig.ValidationVerdict | firebase-config.js:19-29 | validation succeeds (with true) exactly when all six fields are truthy. Otherwise the message is the prefix followed by the missing fields joined with ", " |
| FirebaseConfig.ExtraFieldsIgnored | firebase-config.js:19-20 | configurations that agree on the six required fields are judged alike |
| FirebaseConfig.GetFirebaseConfig | firebase-config.js:33-46 | an absent block gives the "configuration is missing" error; a returned configuration is the block itself, and it validates |
| FirebaseConfig.GetConfigOutcome | firebase-config.js:33-46 | an absent block fails with the "configuration is missing" message. A present block is returned unchanged exactly when it validates, and otherwise fails with the validation message |
| FirebaseConfig.FirebaseModule.Initialize | firebase-config.js:49-64 | a configuration error is rethrown and leaves the app unset. Otherwise the app is the first existing one, or a new one initialised with the validated configuration |
| PlanScreen.MealsForType | screens/PlanScreen.tsx:105-107 | exactly the meals whose type is t, in their loaded order (a subsequence) |
| PlanScreen.MealsForTypeCounts | screens/PlanScreen.tsx:105-107 | each meal of type t occurs as often as in the loaded list, and no other meal occurs |
| PlanScreen.Uncontained | screens/PlanScreen.tsx:155 | exactly the meals whose type matches no container, in order |
| PlanScreen.UncontainedCounts | screens/PlanScreen.tsx:155 | each meal of no container's type occurs as often as in the loaded list, and no other meal occurs |
| PlanScreen.TotalCalories | screens/PlanScreen.tsx:109-111 | the total of meals with non-negative calories is non-negative |
| PlanScreen.TotalCaloriesAppend | screens/PlanScreen.tsx:109-111 | the calorie total is additive over concatenation |
| PlanScreen.ContainerTypesDistinct | screens/PlanScreen.tsx:37-43 | no two containers share a meal type |
| PlanScreen.MealInExactlyOneContainer | screens/PlanScreen.tsx:37-43 | a meal of a container's type is shown in exactly one container |
| PlanScreen.OtherTypesInNoContainer | screens/PlanScreen.tsx:105-111 | a meal of any other type is in no container, yet counts toward the total |
| PlanScreen.CaloriesPartition | screens/PlanScreen.tsx:105-111 | the total is the calories shown in the five containers plus those of meals no container shows |
| PlanScreen.DayRange | screens/PlanScreen.tsx:56-69 | the window contains the selected instant, starts and ends on its day, and ends at the day's last millisecond |
| PlanScreen.DayRangeIsTheSelectedDay | screens/PlanScreen.tsx:56-69 | the fetch window admits exactly the instants of the selected day, both ends included |
| PlanScreen.DateDisplay | screens/PlanScreen.tsx:90-95 | any instant of today's day is labelled "Today", of the day before "Yesterday", of the day after "Tomorrow"; any other day gets the formatted date |
| PlanScreen.DateDisplayAroundToday | screens/PlanScreen.tsx:90-95 | the selected day shows "Today"; one day back "Yesterday", one day ahead "Tomorrow", two days ahead the formatted date |
| PlanScreen.PlanScreenState.constructor | screens/PlanScreen.tsx:47-50 | initial state: today, no meals, loading, picker hidden |
| PlanScreen.PlanScreenState.FetchMeals | screens/PlanScreen.tsx:56-83 | queries the selected day. Success replaces the meals, failure keeps them. Loading ends either way |
| PlanScreen.PlanScreenState.HandleDateChange | screens/PlanScreen.tsx:85-88 | selects the date and hides the picker |
| PlanScreen.PlanScreenState.SwipeLeft | screens/PlanScreen.tsx:97-99 | the selected day moves one day back at the same time of day |
| PlanScreen.PlanScreenState.SwipeRight | screens/PlanScreen.tsx:101-103 | the selected day moves one day ahead at the same time of day |
| PlanScreen.SwipeLeftThenRight | screens/PlanScreen.tsx:97-103 | a swipe left and a swipe right return to the same date |
| MealsScreen.MealsQuery | screens/MealsScreen.tsx:38-45 | the query has no upper bound and starts no later than now, on today |
| MealsScreen.MealsQueryFromToday | screens/MealsScreen.tsx:38-45 | the query admits exactly the meals from local midnight today on, including later days |
| MealsScreen.SortNewestFirst | screens/MealsScreen.tsx:54 | the sorted list is a permutation of the fetched meals |
| MealsScreen.SortIsNewestFirst | screens/MealsScreen.tsx:54 | the sorted list is ordered by timestamp, newest first |
| MealsScreen.SortIsStable | screens/MealsScreen.tsx:54 | meals with equal timestamps keep their fetched order |
| MealsScreen.SortKeepsSortedList | screens/MealsScreen.tsx:54 | a list already newest first is unchanged by the sort |
| MealsScreen.SortIdempotent | screens/MealsScreen.tsx:54 | sorting twice is sorting once |
| MealsScreen.RemoveById | screens/MealsScreen.tsx:75 | after the delete, exactly the meals with another id remain, in their order |
| MealsScreen.RemoveByIdCounts | screens/MealsScreen.tsx:75 | each meal with another id occurs as often as before the delete, and no meal with the id remains |
| MealsScreen.RemoveAbsentId | screens/MealsScreen.tsx:75 | deleting an id no meal carries leaves the list unchanged |
| MealsScreen.RemoveKeepsOrder | screens/MealsScreen.tsx:75 | the list stays newest first after a delete |
| MealsScreen.Capitalize | screens/MealsScreen.tsx:96 | the label has the type's length and keeps everything after the first character |
| MealsScreen.TypeLabel | screens/MealsScreen.tsx:96 | a label exists exactly when the meal type is a string, and it keeps that string's length and tail |
| MealsScreen.CapitalizeShape | screens/MealsScreen.tsx:96 | the label has the type's length: the first letter is upper-cased, the rest is unchanged, and capitalising twice is capitalising once |
| MealsScreen.LabelsOfTheMealTypes | screens/MealsScreen.tsx:96 | "breakfast" is labelled "Breakfast" and "snack" "Snack"; a meal without a type has no label (rendering throws) |
| MealsScreen.MealsScreenState.constructor | screens/MealsScreen.tsx:29-30 | initial state: no meals, loading |
| MealsScreen.MealsScreenState.FetchMeals | screens/MealsScreen.tsx:36-61 | success replaces the list with the fetched meals sorted newest first. Failure keeps it and alerts. Loading ends either way |
| MealsScreen.MealsScreenState.DeleteMeal | screens/MealsScreen.tsx:63-84 | Cancel does nothing. Delete removes the id locally only after the remote delete succeeded, and otherwise alerts |
| MealsScreen.FetchThenDelete | screens/MealsScreen.tsx:54-75 | after a fetch and a delete, no meal with the id remains, and the rest is newest first, in the sorted order |
| MealPlanScreen.SettingsFromData | screens/MealPlanScreen.tsx:66-72 | each setting is the stored value when truthy, else 'none', 'any' or 2000 |
| MealPlanScreen.SettingsFallbacks | screens/MealPlanScreen.tsx:49-72 | a stored goal of 0 becomes 2000, an empty diet type becomes "none", and an empty document gives the initial defaults |
| MealPlanScreen.SlotMeal | screens/MealPlanScreen.tsx:88-104 | a slot's calories depend on the slot only (250, 400, 500, 150), whatever the diet |
| MealPlanScreen.PlanFor | screens/MealPlanScreen.tsx:88-104 | a generated plan fills all four slots with the diet's meal |
| MealPlanScreen.PlanCalories | screens/MealPlanScreen.tsx:88-104 | the slots hold 250, 400, 500 and 150 calories, 1300 in all, for every diet and goal |
| MealPlanScreen.VegetarianPlan | screens/MealPlanScreen.tsx:96-98 | vegetarian changes Lunch and Dinner only |
| MealPlanScreen.VeganPlan | screens/MealPlanScreen.tsx:99-104 | vegan changes all four slots |
| MealPlanScreen.OtherDietsGetDefaultPlan | screens/MealPlanScreen.tsx:88-104 | any other diet type gets the default plan |
| MealPlanScreen.LogDocument | screens/MealPlanScreen.tsx:119-126 | the logged record has exactly userId, mealType (the slot name), name, calories and the selected date |
| MealPlanScreen.LoggedPlanMealInNoContainer | screens/MealPlanScreen.tsx:122 | the capitalised slot name matches none of the day planner's containers |
| MealPlanScreen.MealPlanScreenState.constructor | screens/MealPlanScreen.tsx:45-53 | initial state: loading, not generating, empty plan, default settings |
| MealPlanScreen.MealPlanScreenState.FetchUserSettings | screens/MealPlanScreen.tsx:59-80 | no user: return before the try, still loading. A document sets the defaulted settings. No document keeps them. A failed read alerts. Loading ends once there is a user |
| MealPlanScreen.MealPlanScreenState.GenerateMealPlan | screens/MealPlanScreen.tsx:82-113 | without a user nothing happens. Otherwise the plan becomes the diet's plan, built by overwriting slots, and generating ends |
| MealPlanScreen.MealPlanScreenState.HandleAddToLog | screens/MealPlanScreen.tsx:115-133 | no user or an empty slot: nothing. Otherwise the record is written, with a success or error alert |
| AuthForms.Submit | screens/SignupScreen.tsx:45-53 | exactly one provider call with the inputs unchanged; Home exactly when it resolves |
| SignupScreen.HandleSignup | screens/SignupScreen.tsx:29-54 | `signUp` is called exactly when all checks pass; Home only after it resolves |
| SignupScreen.SignupMessages | screens/SignupScreen.tsx:30-43 | the first failing check decides: empty field, then mismatch, then length under 6 |
| SignupScreen.SignupOutcome | screens/SignupScreen.tsx:45-53 | valid input: Home on success, otherwise the error's message or "Failed to create account" |
| SignupScreen.PasswordLengthBoundary | screens/SignupScreen.tsx:40-43 | six characters pass, five do not, and whitespace counts as filled |
| LoginScreen.HandleLogin | screens/LoginScreen.tsx:30-45 | `signIn` is called with the untrimmed inputs exactly when both are non-empty; Home exactly when it resolves |
| LoginScreen.LoginRejected | screens/LoginScreen.tsx:39-44 | a rejection shows "Login Failed" with the error's message or the default text |
| AddMealScreen.MealDocument | screens/AddMealScreen.tsx:31-38 | the record has exactly name, four `Number(...)` fields and a server timestamp |
| AddMealScreen.AddedMealInNoContainer | screens/AddMealScreen.tsx:31-38 | the record has no userId and no meal type, so no day-planner container shows it |
| AddMealScreen.NonNumericInputPasses | screens/AddMealScreen.tsx:25 | only emptiness is checked: non-numeric text passes the guard |
| AddMealScreen.AddMealForm.constructor | screens/AddMealScreen.tsx:18-22 | all five inputs start empty |
| AddMealScreen.AddMealForm.HandleAddMeal | screens/AddMealScreen.tsx:24-51 | an empty input alerts with no write. Otherwise one record is written: success resets all five inputs, failure keeps them and alerts |
| AddMealScreen.SubmitTwice | screens/AddMealScreen.tsx:24-51 | submitting again after a submission only raises the missing-fields alert |
| EditProfileScreen.LoadedName | screens/EditProfileScreen.tsx:40 | the name is the stored displayName when truthy, else "" |
| EditProfileScreen.FieldText | screens/EditProfileScreen.tsx:41-42 | a missing value loads as "", a string verbatim, a boolean as "true"/"false" |
| EditProfileScreen.SavedAge | screens/EditProfileScreen.tsx:60 | the saved age is null or a non-zero integer: the `parseInt` result unless it is NaN or 0 |
| EditProfileScreen.ProfileUpdate | screens/EditProfileScreen.tsx:58-63 | the update has exactly displayName (verbatim), age, weight (`parseFloat` or null) and updatedAt |
| EditProfileScreen.AgeRoundTrip | screens/EditProfileScreen.tsx:41-60 | loading then saving keeps a non-zero age; an age of 0 or an absent age is saved as null |
| EditProfileScreen.SavedAgeExamples | screens/EditProfileScreen.tsx:60 | "25abc" saves 25; "abc" and "" save null |
| EditProfileScreen.EditProfileState.constructor | screens/EditProfileScreen.tsx:23-27 | empty inputs, loading, not saving |
| EditProfileScreen.EditProfileState.FetchUserData | screens/EditProfileScreen.tsx:33-50 | no read without a user. A document fills the three inputs, a failed read alerts. Loading ends in all cases |
| EditProfileScreen.EditProfileState.HandleSave | screens/EditProfileScreen.tsx:52-73 | without a user nothing happens. Otherwise one update is written; success alerts and goes back, failure alerts. Saving ends |
| LanguageScreen.StoredLanguage | screens/LanguageScreen.tsx:42 | the stored language when truthy, else 'en' |
| LanguageScreen.Highlighted | screens/LanguageScreen.tsx:79 | the entries shown selected are exactly those whose id is the selection |
| LanguageScreen.HighlightExamples | screens/LanguageScreen.tsx:42-44 | before loading nothing is selected. An empty or missing stored language selects English. An unknown id selects nothing |
| LanguageScreen.LanguageUpdate | screens/LanguageScreen.tsx:59-62 | the update has exactly the language id and updatedAt |
| LanguageScreen.LanguageScreenState.constructor | screens/LanguageScreen.tsx:27-29 | selection '', loading, not saving |
| LanguageScreen.LanguageScreenState.FetchUserSettings | screens/LanguageScreen.tsx:35-51 | no user: the selection stays. Document: stored language or 'en'. No document: 'en'. Failed read: unchanged. Loading always ends |
| LanguageScreen.LanguageScreenState.HandleLanguageSelect | screens/LanguageScreen.tsx:53-72 | without a user nothing happens. Otherwise saving is on during the update. The selection changes only on success. Saving is off after both paths |
| BarcodeScannerScreen.LookUp | screens/BarcodeScannerScreen.tsx:54-69 | the mocked look-up gives the Granola Bar record: 150 kcal, 3 g protein, 25 g carbs, 5 g fat |
| BarcodeScannerScreen.LookUpIgnoresCode | screens/BarcodeScannerScreen.tsx:54-69 | the looked-up record does not depend on the scanned code |
| BarcodeScannerScreen.ScannedMealDocument | screens/BarcodeScannerScreen.tsx:85-94 | the record copies the five nutrition fields and adds mealType "scanned", a server timestamp and userId, and nothing else |
| BarcodeScannerScreen.ScannedMealInNoContainer | screens/BarcodeScannerScreen.tsx:91 | type "scanned" matches none of the day planner's containers |
| BarcodeScannerScreen.ScannerState.constructor | screens/BarcodeScannerScreen.tsx:43-45 | not scanned, no food data, not loading |
| BarcodeScannerScreen.ScannerState.OnBarCodeScanned | screens/BarcodeScannerScreen.tsx:54-79 | while scanned nothing changes. Otherwise the gate closes, the record is shown and loading ends |
| BarcodeScannerScreen.ScannerState.HandleAddToMealLog | screens/BarcodeScannerScreen.tsx:81-101 | no food data or no user: nothing. Otherwise one record is written; success alerts and goes back |
| BarcodeScannerScreen.ScannerState.ScanAgain | screens/BarcodeScannerScreen.tsx:160 | reopens the gate and keeps the shown record |
| BarcodeScannerScreen.ScanSequence | screens/BarcodeScannerScreen.tsx:54-160 | after a second scan the first code's record is still shown and the gate is closed; "Scan Again" opens the gate and keeps the record; the next scan shows its own record |

## Left out

- Floating point. JavaScript numbers are integers here, with no NaN,
  fractions or 2^53 limit.
  - `Number(...)` in the meal form and `parseFloat(weight)` in the profile
    editor are recorded as conversions and not evaluated.
  - Embedding vectors are opaque.
  - The chat temperature 0.7 is not modelled.
- Remote services are oracles that succeed or fail. Their semantics are not
  modelled: Firestore queries and writes, Firebase Auth, the vector index
  (including upsert overwriting and topK enforcement), the embedding and chat
  models, and `initializeApp`/`getApps`.
- Time zones and daylight saving. Every local day is 86,400,000 ms, and
  `new Date()`/`serverTimestamp()` are parameters or a marker.
- Date formatting. The date-fns text for dates other than today, yesterday and
  tomorrow is a parameter.
- Async behaviour. React state updates, stale closures (`handleDeleteMeal`
  filters the list it captured) and interleaved handlers are not modelled.
  Each handler is one sequential step.
- File reading and JSON parsing of the dataset, `.env` loading, the
  module-level `main()` and `loadFoodData()` calls, the wrong import in
  `functions/index.js`, and all console and debug logging.
- Rendering, styles, navigation wiring, the camera permission request and web
  persistence (`enableIndexedDbPersistence`).
- The barcode scanner's catch block. Nothing in its try block can throw, so
  the error alert and its `setScanned(false)` never run.
- MealsScreen.Capitalize: upper-cases ASCII letters only. `toUpperCase` on
  other characters is not modelled.
- SignupScreen.HandleSignup: counts Unicode characters in the password, where
  JavaScript counts UTF-16 code units.
- MealsScreen.MealsScreenState.FetchMeals: the fetched meals, with their ids
  and `toDate()` timestamps, are taken as given by the query oracle.
- PlanScreen.PlanScreenState.FetchMeals: the fetched meals are taken as given.
  A failure is only logged, so no alert is modelled.
- FoodIngestion.LoadFoodData: rejections are error kinds, not the thrown
  messages. Truthy non-string values in `calories`, `fat`, `carb` and
  `protein` use this model's ToString, which is exact for integers, strings,
  booleans and null; an object or array renders as the text its value
  carries, which is not computed from its contents.
