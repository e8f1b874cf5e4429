/** The profile editor: name, age and weight loaded from the user's
    document as text, and saved back with `parseInt` for the age. */
module EditProfileScreen {
  import opened Results
  import opened JsValue
  import opened JsNumber
  import opened Firestore
  import opened Alerts

  /** `data.displayName || ''`. */
  function LoadedName(data: Object): (r: Value)
    ensures Truthy(Get(data, "displayName")) ==> r == Get(data, "displayName")
    ensures !Truthy(Get(data, "displayName")) ==> r == Str("")
  {
    Or(Get(data, "displayName"), Str(""))
  }

  /** `v?.toString() || ''`: the string form, or '' when the value is absent. */
  function FieldText(v: Value): (r: string)
    ensures v == Undefined || v == Null ==> r == ""
    ensures v.Str? ==> r == v.s
    ensures v.Bool? ==> r == if v.b then "true" else "false"
  {
    if v == Undefined || v == Null then "" else ToString(v)
  }

  /** `parseInt(age) || null`: NaN and 0 are both falsy and become null. */
  function SavedAge(age: string): (r: Value)
    ensures r == Null || (r.Num? && r.n != 0)
    ensures r.Num? <==> ParseInt(age).Some? && ParseInt(age).value != 0
    ensures r.Num? ==> r.n == ParseInt(age).value
  {
    match ParseInt(age)
    case None => Null
    case Some(n) => if n == 0 then Null else Num(n)
  }

  /** The update handleSave writes. */
  function ProfileUpdate(name: Value, age: string, weight: string, now: int): (r: Document)
    ensures r.Keys == {"displayName", "age", "weight", "updatedAt"}
    ensures r["displayName"] == Plain(name) && r["age"] == Plain(SavedAge(age))
    ensures r["weight"] == Converted(ParseFloatOrNull, weight) && r["updatedAt"] == DateAt(now)
  {
    map["displayName" := Plain(name), "age" := Plain(SavedAge(age)),
        "weight" := Converted(ParseFloatOrNull, weight), "updatedAt" := DateAt(now)]
  }

  /** Loading and saving without edits keeps a stored non-zero age, but a
      stored age of 0 is saved back as null, as is an absent one. */
  lemma {:induction false} AgeRoundTrip(n: int)
    ensures n != 0 ==> SavedAge(FieldText(Num(n))) == Num(n)
    ensures SavedAge(FieldText(Num(0))) == Null
    ensures SavedAge(FieldText(Undefined)) == Null
  {
    SavedAgeOfNumber(n);
    SavedAgeOfNumber(0);
    assert FieldText(Undefined) == "";
    ParseIntWithoutDigits();
  }

  /** The text of a stored number parses back to it. */
  lemma {:induction false} SavedAgeOfNumber(n: int)
    ensures SavedAge(FieldText(Num(n))) == if n == 0 then Null else Num(n)
  {
    var t := FieldText(Num(n));
    assert t == IntToString(n);
    ParseIntOfIntToString(n);
    SavedAgeOfParsed(t, n);
  }

  lemma {:induction false} SavedAgeOfParsed(t: string, n: int)
    requires ParseInt(t) == Some(n)
    ensures SavedAge(t) == if n == 0 then Null else Num(n)
  {
  }

  /** The age keeps the leading integer of what was typed. */
  lemma {:induction false} SavedAgeExamples()
    ensures SavedAge("25abc") == Num(25)
    ensures SavedAge("abc") == Null
    ensures SavedAge("") == Null
  {
    ParseIntStopsAtFirstNonDigit();
    ParseIntWithoutDigits();
  }

  class EditProfileState {
    const user: Option<string>
    var name: Value
    var age: string
    var weight: string
    var isLoading: bool
    var isSaving: bool

    constructor (user: Option<string>)
      ensures this.user == user && name == Str("") && age == "" && weight == ""
      ensures isLoading && !isSaving
    {
      this.user := user;
      name, age, weight := Str(""), "", "";
      isLoading, isSaving := true, false;
    }

    /** fetchUserData. Its `if (!user) return` is inside the try, so loading
        ends even without a user; no read is made then. A stored document
        fills the three inputs; a failed read raises an alert. */
    method FetchUserData(read: Read) returns (readMade: bool, alert: Option<Alert>)
      modifies this
      ensures readMade == user.Some? && !isLoading && isSaving == old(isSaving)
      ensures user.Some? && read.Found? ==>
                name == LoadedName(read.data) && age == FieldText(Get(read.data, "age"))
                && weight == FieldText(Get(read.data, "weight"))
      ensures user.None? || !read.Found? ==> name == old(name) && age == old(age) && weight == old(weight)
      ensures alert == (if user.Some? && read.ReadFailed? then Some(Alert("Error", "Failed to load profile data"))
                        else None)
    {
      readMade := false;
      alert := None;
      if user.Some? {
        readMade := true;
        match read {
          case Found(data) =>
            name := LoadedName(data);
            age := FieldText(Get(data, "age"));
            weight := FieldText(Get(data, "weight"));
          case Missing =>
          case ReadFailed =>
            alert := Some(Alert("Error", "Failed to load profile data"));
        }
      }
      isLoading := false;
    }

    /** handleSave. Without a user nothing happens. Otherwise one update is
        written; success shows an alert and goes back, failure shows an
        alert. Saving ends either way. */
    method HandleSave(now: int, writeOk: bool) returns (written: Option<Document>, alert: Option<Alert>, wentBack: bool)
      modifies this`isSaving
      ensures user.None? ==> written == None && alert == None && !wentBack && isSaving == old(isSaving)
      ensures user.Some? ==> written == Some(ProfileUpdate(name, age, weight, now)) && !isSaving
      ensures user.Some? ==> wentBack == writeOk
                             && alert == Some(if writeOk then Alert("Success", "Profile updated successfully")
                                              else Alert("Error", "Failed to update profile"))
    {
      if user.None? {
        return None, None, false;
      }
      isSaving := true;
      written := Some(ProfileUpdate(name, age, weight, now));
      if writeOk {
        alert := Some(Alert("Success", "Profile updated successfully"));
        wentBack := true;
      } else {
        alert := Some(Alert("Error", "Failed to update profile"));
        wentBack := false;
      }
      isSaving := false;
    }
  }
}
