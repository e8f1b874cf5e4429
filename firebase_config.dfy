/** Validation of the Firebase configuration block and the one-time
    initialisation of the application handle. The app registry
    (getApps/initializeApp) is an oracle. */
module FirebaseConfig {
  import opened Results
  import opened JsValue
  import opened Sequences
  import JsText

  const RequiredFields: seq<string> :=
    ["apiKey", "authDomain", "projectId", "storageBucket", "messagingSenderId", "appId"]

  const MissingFieldsPrefix: string := "Missing required Firebase configuration fields: "
  const ConfigMissingMessage: string :=
    "Firebase configuration is missing. Please check your app.config.js and environment variables."

  /** The fields among `fields` whose value in config is falsy, in the order of `fields`. */
  function MissingAmong(fields: seq<string>, config: Object): (r: seq<string>)
    ensures forall f :: f in r <==> f in fields && !Truthy(Get(config, f))
    ensures Subsequence(r, fields)
  {
    if fields == [] then []
    else
      var init, last := fields[..|fields| - 1], fields[|fields| - 1];
      var rest := MissingAmong(init, config);
      assert fields == init + [last];
      SubsequenceSnoc(rest, init, last);
      if !Truthy(Get(config, last)) then rest + [last] else rest
  }

  /** `requiredFields.filter(field => !config[field])` */
  function MissingFields(config: Object): seq<string> {
    MissingAmong(RequiredFields, config)
  }

  /** validateFirebaseConfig: true, or the error it throws. */
  function ValidateFirebaseConfig(config: Object): (r: Result<bool, string>)
    ensures r.Ok? <==> MissingFields(config) == []
    ensures r.Ok? ==> r.value
    ensures r.Err? ==> |r.error| >= |MissingFieldsPrefix| && r.error[..|MissingFieldsPrefix|] == MissingFieldsPrefix
  {
    var missing := MissingFields(config);
    if |missing| > 0 then Err(MissingFieldsPrefix + JsText.Join(missing, ", ")) else Ok(true)
  }

  /** getFirebaseConfig, given the `extra.firebase` block when it is present
      and truthy: the validated block itself, or the error thrown. */
  function GetFirebaseConfig(block: Option<Object>): (r: Result<Object, string>)
    ensures block.None? ==> r == Err(ConfigMissingMessage)
    ensures r.Ok? ==> block == Some(r.value) && ValidateFirebaseConfig(r.value).Ok?
  {
    match block
    case None => Err(ConfigMissingMessage)
    case Some(config) =>
      match ValidateFirebaseConfig(config)
      case Err(e) => Err(e)
      case Ok(_) => Ok(config)
  }

  /** The validator accepts exactly when all six required fields are truthy;
      otherwise its message names the missing fields, comma-separated, in
      the fixed order. */
  lemma {:induction false} ValidationVerdict(config: Object)
    ensures ValidateFirebaseConfig(config).Ok? <==> forall f :: f in RequiredFields ==> Truthy(Get(config, f))
    ensures ValidateFirebaseConfig(config).Ok? ==> ValidateFirebaseConfig(config).value
    ensures ValidateFirebaseConfig(config).Err? ==>
      var message := ValidateFirebaseConfig(config).error;
      && |message| > |MissingFieldsPrefix|
      && message[..|MissingFieldsPrefix|] == MissingFieldsPrefix
      && message[|MissingFieldsPrefix|..] == JsText.Join(MissingFields(config), ", ")
  {
    var missing := MissingFields(config);
    if |missing| > 0 {
      assert missing[0] in missing;
      JoinNonEmpty(missing, ", ");
    }
  }

  lemma {:induction false} JoinNonEmpty(parts: seq<string>, sep: string)
    requires |parts| > 0 && parts[0] != ""
    ensures |JsText.Join(parts, sep)| > 0
  {
  }

  /** Only the six required fields matter: configurations that agree on them
      are judged alike, whatever else they carry. */
  lemma {:induction false} ExtraFieldsIgnored(c1: Object, c2: Object)
    requires forall f :: f in RequiredFields ==> Get(c1, f) == Get(c2, f)
    ensures MissingFields(c1) == MissingFields(c2)
    ensures ValidateFirebaseConfig(c1) == ValidateFirebaseConfig(c2)
  {
    MissingAmongAgree(RequiredFields, c1, c2);
  }

  lemma {:induction false} MissingAmongAgree(fields: seq<string>, c1: Object, c2: Object)
    requires forall f :: f in fields ==> Get(c1, f) == Get(c2, f)
    ensures MissingAmong(fields, c1) == MissingAmong(fields, c2)
  {
    if fields != [] {
      MissingAmongAgree(fields[..|fields| - 1], c1, c2);
    }
  }

  /** An absent block fails before any validation; a present one is returned
      unchanged exactly when it validates. */
  lemma {:induction false} GetConfigOutcome(block: Option<Object>)
    ensures block.None? ==> GetFirebaseConfig(block) == Err(ConfigMissingMessage)
    ensures block.Some? ==>
      && (GetFirebaseConfig(block).Ok? <==> ValidateFirebaseConfig(block.value).Ok?)
      && (GetFirebaseConfig(block).Ok? ==> GetFirebaseConfig(block).value == block.value)
      && (GetFirebaseConfig(block).Err? ==> GetFirebaseConfig(block) == Err(ValidateFirebaseConfig(block.value).error))
  {
  }

  /** A handle to an initialised Firebase app. */
  datatype FirebaseApp = FirebaseApp(handle: nat)

  /** The module-level `firebaseApp`, assigned once by the initialisation block. */
  class FirebaseModule {
    var app: Option<FirebaseApp>

    constructor ()
      ensures app == None
    {
      app := None;
    }

    /** The init block: the existing first app if any, otherwise a new app
        from the validated configuration; a configuration error is rethrown
        and leaves the app unset. */
    method Initialize(block: Option<Object>, existingApps: seq<FirebaseApp>, initializeApp: Object -> FirebaseApp)
      returns (error: Option<string>)
      modifies this
      ensures GetFirebaseConfig(block).Err? ==> error == Some(GetFirebaseConfig(block).error) && app == old(app)
      ensures GetFirebaseConfig(block).Ok? ==> error == None
      ensures GetFirebaseConfig(block).Ok? && existingApps == [] ==> app == Some(initializeApp(block.value))
      ensures GetFirebaseConfig(block).Ok? && existingApps != [] ==> app == Some(existingApps[0])
    {
      var config := GetFirebaseConfig(block);
      if config.Err? {
        error := Some(config.error);
        return;
      }
      error := None;
      if |existingApps| == 0 {
        app := Some(initializeApp(config.value));
      } else {
        app := Some(existingApps[0]);
      }
    }
  }
}
