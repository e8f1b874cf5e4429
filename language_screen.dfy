/** The language preference: loaded from the user's settings with an
    English default, and changed only once the remote update succeeds. */
module LanguageScreen {
  import opened Results
  import opened JsValue
  import opened Firestore
  import opened Alerts

  datatype Language = Language(id: string, name: string)

  const Languages: seq<Language> := [Language("en", "English"), Language("es", "Spanish"), Language("fr", "French")]

  /** `data.language || 'en'`. */
  function StoredLanguage(data: Object): (r: Value)
    ensures Truthy(r)
    ensures Truthy(Get(data, "language")) ==> r == Get(data, "language")
    ensures !Truthy(Get(data, "language")) ==> r == Str("en")
  {
    Or(Get(data, "language"), Str("en"))
  }

  /** The list entries shown as selected: those whose id is the selection. */
  function Highlighted(selected: Value): (r: seq<Language>)
    ensures forall l :: l in r <==> l in Languages && selected == Str(l.id)
  {
    if selected == Str("en") then [Languages[0]]
    else if selected == Str("es") then [Languages[1]]
    else if selected == Str("fr") then [Languages[2]]
    else []
  }

  /** Before loading, and after loading without a user, no entry is
      selected; a user without settings sees English selected, as does one
      whose stored language is empty; a stored id outside the list selects
      nothing. */
  lemma {:induction false} HighlightExamples(data: Object)
    ensures Highlighted(Str("")) == []
    ensures Highlighted(Str("en")) == [Language("en", "English")]
    ensures !Truthy(Get(data, "language")) ==> Highlighted(StoredLanguage(data)) == [Language("en", "English")]
    ensures Get(data, "language") == Str("de") ==> Highlighted(StoredLanguage(data)) == []
  {
  }

  /** The update handleLanguageSelect writes. */
  function LanguageUpdate(languageId: string, now: int): (r: Document)
    ensures r.Keys == {"language", "updatedAt"}
    ensures r["language"] == Plain(Str(languageId)) && r["updatedAt"] == DateAt(now)
  {
    map["language" := Plain(Str(languageId)), "updatedAt" := DateAt(now)]
  }

  class LanguageScreenState {
    const user: Option<string>
    var selectedLanguage: Value
    var isLoading: bool
    var isSaving: bool

    constructor (user: Option<string>)
      ensures this.user == user && selectedLanguage == Str("") && isLoading && !isSaving
    {
      this.user := user;
      selectedLanguage := Str("");
      isLoading := true;
      isSaving := false;
    }

    /** fetchUserSettings. Its `if (!user) return` is inside the try, so
        loading ends even without a user, and the selection stays as it was.
        A stored document gives its language or 'en', no document gives
        'en', and a failed read changes nothing and shows nothing. */
    method FetchUserSettings(read: Read) returns (readMade: bool)
      modifies this`selectedLanguage, this`isLoading
      ensures readMade == user.Some? && !isLoading
      ensures selectedLanguage == (if user.None? || read.ReadFailed? then old(selectedLanguage)
                                   else if read.Missing? then Str("en")
                                   else StoredLanguage(read.data))
    {
      readMade := false;
      if user.Some? {
        readMade := true;
        match read {
          case Found(data) =>
            selectedLanguage := StoredLanguage(data);
          case Missing =>
            selectedLanguage := Str("en");
          case ReadFailed =>
        }
      }
      isLoading := false;
    }

    /** handleLanguageSelect. Without a user nothing happens. Otherwise the
        saving flag is raised while the update is written
        (`savingDuringUpdate`), the selection becomes the chosen id only
        when the update succeeds, and the flag is lowered on both paths. */
    method HandleLanguageSelect(languageId: string, now: int, updateOk: bool)
      returns (update: Option<Document>, savingDuringUpdate: bool, alert: Option<Alert>)
      modifies this`selectedLanguage, this`isSaving
      ensures user.None? ==> update == None && alert == None && !savingDuringUpdate
                             && selectedLanguage == old(selectedLanguage) && isSaving == old(isSaving)
      ensures user.Some? ==> update == Some(LanguageUpdate(languageId, now)) && savingDuringUpdate && !isSaving
      ensures user.Some? ==> selectedLanguage == (if updateOk then Str(languageId) else old(selectedLanguage))
      ensures user.Some? ==> alert == Some(if updateOk then Alert("Success", "Language preference updated")
                                           else Alert("Error", "Failed to update language preference"))
    {
      if user.None? {
        return None, false, None;
      }
      isSaving := true;
      update := Some(LanguageUpdate(languageId, now));
      savingDuringUpdate := isSaving;
      if updateOk {
        selectedLanguage := Str(languageId);
        alert := Some(Alert("Success", "Language preference updated"));
      } else {
        alert := Some(Alert("Error", "Failed to update language preference"));
      }
      isSaving := false;
    }
  }
}
