/** The ingestion script: every food item of the dataset becomes a vector
    record (an id, an embedding and the text that was embedded); items whose
    embedding fails are skipped, and all records go to the vector index in
    one upsert under the namespace "nutrition". The embedding service and the
    index are oracles passed in as functions. */
module FoodIngestion {
  import opened Results
  import opened JsValue
  import JsText
  import JsNumber
  import opened VectorIndex

  const Namespace: string := "nutrition"

  /** Why loadFoodData rejects. */
  datatype LoadError =
    | MissingApiKey
    | NameTypeError(index: nat)  // a truthy `name` that is not a string has no trim()
    | NoValidVectors
    | UpsertFailed

  /** The outcome of the embedding request made for item i with a text. */
  type EmbedOracle = (nat, string) -> Option<Embedding>

  /** The name can be read: it is falsy, or a string. */
  predicate NameUsable(item: Object) {
    !Truthy(Get(item, "name")) || Get(item, "name").Str?
  }

  /** The dish name of item `index`: the trimmed name when it is truthy, else
      "Unknown Dish <index>"; None when a truthy name is not a string. */
  function ItemName(item: Object, index: nat): (r: Option<string>)
    ensures r.Some? <==> NameUsable(item)
  {
    var name := Get(item, "name");
    if !Truthy(name) then Some("Unknown Dish " + JsNumber.IntToString(index))
    else if name.Str? then Some(JsText.Trim(name.s))
    else None
  }

  /** `${item[key] || 0}` */
  function Amount(item: Object, key: string): (r: string)
    ensures Truthy(Get(item, key)) ==> r == ToString(Get(item, key))
    ensures !Truthy(Get(item, key)) ==> r == "0"
  {
    ToString(Or(Get(item, key), Num(0)))
  }

  /** The text that is embedded and stored as the record's metadata: the
      template literal's parts, concatenated. */
  function Description(name: string, item: Object): (r: string)
    ensures |r| > |name| + 2 && r[..|name| + 2] == name + ": "
  {
    var parts := [name, ": ", Amount(item, "calories"), " calories, ", Amount(item, "fat"), "g fat, ",
                  Amount(item, "carb"), "g carbs, ", Amount(item, "protein"), "g protein"];
    assert parts[1..][1..] == parts[2..];
    assert JsText.Concat(parts) == name + ": " + JsText.Concat(parts[2..]);
    JsText.Concat(parts)
  }

  /** `item.id || auto_<index>` */
  function VectorId(item: Object, index: nat): (r: Value)
    ensures Truthy(r)
    ensures Truthy(Get(item, "id")) ==> r == Get(item, "id")
    ensures !Truthy(Get(item, "id")) ==> r == Str("auto_" + JsNumber.IntToString(index))
  {
    Or(Get(item, "id"), Str("auto_" + JsNumber.IntToString(index)))
  }

  /** The first n items all have a usable name. */
  predicate NamesOk(items: seq<Object>, n: nat) {
    n <= |items| && forall i :: 0 <= i < n ==> NameUsable(items[i])
  }

  /** The number of items processed before the loop stops: the index of the
      first item whose name throws, or all of them. */
  function ProcessedCount(items: seq<Object>, from: nat): (n: nat)
    requires NamesOk(items, from)
    ensures from <= n <= |items| && NamesOk(items, n)
    ensures n < |items| ==> !NameUsable(items[n])
    decreases |items| - from
  {
    if from == |items| || !NameUsable(items[from]) then from
    else ProcessedCount(items, from + 1)
  }

  function TextAt(items: seq<Object>, i: nat): string
    requires i < |items| && NameUsable(items[i])
  {
    Description(ItemName(items[i], i).value, items[i])
  }

  /** The embedding of the i-th text succeeded. */
  predicate EmbedOk(texts: seq<string>, embed: EmbedOracle, i: nat)
    requires i < |texts|
  {
    embed(i, texts[i]).Some?
  }

  /** The record built for item i, whose text is texts[i], once its embedding succeeded. */
  function RecordAt(items: seq<Object>, texts: seq<string>, embed: EmbedOracle, i: nat): VectorRecord
    requires i < |items| && i < |texts| && EmbedOk(texts, embed, i)
  {
    VectorRecord(VectorId(items[i], i), embed(i, texts[i]).value, texts[i])
  }

  /** The texts sent to the embedding service for the first n items. */
  function Texts(items: seq<Object>, n: nat): (r: seq<string>)
    requires NamesOk(items, n)
    ensures |r| == n
  {
    if n == 0 then [] else Texts(items, n - 1) + [TextAt(items, n - 1)]
  }

  /** The i-th text sent is the description of item i. */
  lemma {:induction false} TextsAt(items: seq<Object>, n: nat, i: nat)
    requires NamesOk(items, n) && i < n
    ensures Texts(items, n)[i] == TextAt(items, i)
  {
    var prev := Texts(items, n - 1);
    assert Texts(items, n) == prev + [TextAt(items, n - 1)];
    if i < n - 1 {
      TextsAt(items, n - 1, i);
      assert Texts(items, n)[i] == prev[i];
    }
  }

  /** An item with a usable name is processed, and its text is the next one sent. */
  lemma {:induction false} NextItem(items: seq<Object>, index: nat, processed: nat)
    requires NamesOk(items, index) && index < |items| && NameUsable(items[index])
    requires processed == ProcessedCount(items, index)
    ensures NamesOk(items, index + 1) && index < processed
    ensures processed == ProcessedCount(items, index + 1)
    ensures Texts(items, processed)[index] == TextAt(items, index)
    ensures Texts(items, index + 1) == Texts(items, index) + [TextAt(items, index)]
  {
    TextsAt(items, processed, index);
  }

  /** The records the loop has pushed after the first n items. */
  function VectorsOf(items: seq<Object>, texts: seq<string>, embed: EmbedOracle, n: nat): seq<VectorRecord>
    requires n <= |items| && n <= |texts|
  {
    if n == 0 then []
    else if EmbedOk(texts, embed, n - 1) then VectorsOf(items, texts, embed, n - 1) + [RecordAt(items, texts, embed, n - 1)]
    else VectorsOf(items, texts, embed, n - 1)
  }

  /** The indices below n whose embedding succeeded, in increasing order. */
  function Succeeded(texts: seq<string>, embed: EmbedOracle, n: nat): (r: seq<nat>)
    requires n <= |texts|
    ensures forall j :: 0 <= j < |r| ==> r[j] < n && EmbedOk(texts, embed, r[j])
    ensures forall j, k :: 0 <= j < k < |r| ==> r[j] < r[k]
    ensures forall i :: 0 <= i < n && EmbedOk(texts, embed, i) ==> i in r
  {
    if n == 0 then []
    else if EmbedOk(texts, embed, n - 1) then Succeeded(texts, embed, n - 1) + [n - 1]
    else Succeeded(texts, embed, n - 1)
  }

  /** The number of items below n whose embedding failed. */
  function FailedCount(texts: seq<string>, embed: EmbedOracle, n: nat): nat
    requires n <= |texts|
  {
    if n == 0 then 0
    else FailedCount(texts, embed, n - 1) + (if EmbedOk(texts, embed, n - 1) then 0 else 1)
  }

  /** The records are exactly those of the items whose embedding succeeded,
      in input order; each carries the text that was embedded. */
  lemma {:induction false} VectorsAreSucceededItems(items: seq<Object>, texts: seq<string>, embed: EmbedOracle, n: nat)
    requires n <= |items| && n <= |texts|
    ensures var v, s := VectorsOf(items, texts, embed, n), Succeeded(texts, embed, n);
      && |v| == |s|
      && forall j :: 0 <= j < |v| ==> v[j] == RecordAt(items, texts, embed, s[j])
  {
    if n > 0 {
      VectorsAreSucceededItems(items, texts, embed, n - 1);
      var v0, s0 := VectorsOf(items, texts, embed, n - 1), Succeeded(texts, embed, n - 1);
      if EmbedOk(texts, embed, n - 1) {
        var v, s := v0 + [RecordAt(items, texts, embed, n - 1)], s0 + [n - 1];
        assert VectorsOf(items, texts, embed, n) == v;
        assert Succeeded(texts, embed, n) == s;
        forall j | 0 <= j < |v|
          ensures v[j] == RecordAt(items, texts, embed, s[j])
        {
          if j < |v0| {
            assert v[j] == v0[j] && s[j] == s0[j];
          } else {
            assert v[j] == RecordAt(items, texts, embed, n - 1) && s[j] == n - 1;
          }
        }
      } else {
        assert VectorsOf(items, texts, embed, n) == v0;
        assert Succeeded(texts, embed, n) == s0;
      }
    }
  }

  /** A failed item costs exactly one record: there are n minus the failures. */
  lemma {:induction false} VectorCount(items: seq<Object>, texts: seq<string>, embed: EmbedOracle, n: nat)
    requires n <= |items| && n <= |texts|
    ensures |VectorsOf(items, texts, embed, n)| == n - FailedCount(texts, embed, n)
  {
    if n > 0 {
      VectorCount(items, texts, embed, n - 1);
      if EmbedOk(texts, embed, n - 1) {
        assert VectorsOf(items, texts, embed, n)
          == VectorsOf(items, texts, embed, n - 1) + [RecordAt(items, texts, embed, n - 1)];
        assert FailedCount(texts, embed, n) == FailedCount(texts, embed, n - 1);
      } else {
        assert VectorsOf(items, texts, embed, n) == VectorsOf(items, texts, embed, n - 1);
        assert FailedCount(texts, embed, n) == FailedCount(texts, embed, n - 1) + 1;
      }
    }
  }

  lemma {:induction false} OnlyFailureCount(texts: seq<string>, embed: EmbedOracle, k: nat, n: nat)
    requires n <= |texts| && k < n
    requires forall i :: 0 <= i < n ==> (EmbedOk(texts, embed, i) <==> i != k)
    ensures FailedCount(texts, embed, n) == 1
  {
    if n - 1 != k {
      OnlyFailureCount(texts, embed, k, n - 1);
      assert EmbedOk(texts, embed, n - 1);
    } else {
      AllSucceedCount(texts, embed, n - 1);
      assert !EmbedOk(texts, embed, n - 1);
    }
  }

  lemma {:induction false} AllSucceedCount(texts: seq<string>, embed: EmbedOracle, n: nat)
    requires n <= |texts|
    requires forall i :: 0 <= i < n ==> EmbedOk(texts, embed, i)
    ensures FailedCount(texts, embed, n) == 0
  {
    if n > 0 {
      AllSucceedCount(texts, embed, n - 1);
      assert EmbedOk(texts, embed, n - 1);
    }
  }

  /** With N items of which only item k fails to embed, N - 1 records are built. */
  lemma {:induction false} OneFailedItem(items: seq<Object>, embed: EmbedOracle, k: nat)
    requires NamesOk(items, |items|) && k < |items|
    requires forall i :: 0 <= i < |items| ==> (EmbedOk(Texts(items, |items|), embed, i) <==> i != k)
    ensures |VectorsOf(items, Texts(items, |items|), embed, |items|)| == |items| - 1
  {
    OnlyFailureCount(Texts(items, |items|), embed, k, |items|);
    VectorCount(items, Texts(items, |items|), embed, |items|);
  }

  /** A name of only whitespace is truthy, so it trims to "" and does not get the default. */
  lemma {:induction false} WhitespaceNameBecomesEmpty(item: Object, index: nat, s: string)
    requires Get(item, "name") == Str(s) && s != "" && JsText.AllWhitespace(s)
    ensures ItemName(item, index) == Some("")
  {
    JsText.TrimEmptyIff(s);
  }

  /** An item without a usable name gets a default name that differs per index. */
  lemma {:induction false} DefaultNamesAreDistinct(item: Object, i: nat, j: nat)
    requires !Truthy(Get(item, "name")) && i != j
    ensures ItemName(item, i).Some? && ItemName(item, j).Some?
    ensures ItemName(item, i) != ItemName(item, j)
  {
    var p, si, sj := "Unknown Dish ", JsNumber.IntToString(i), JsNumber.IntToString(j);
    JsNumber.ParseIntOfIntToString(i);
    JsNumber.ParseIntOfIntToString(j);
    assert si != sj;
    assert (p + si)[|p|..] == si && (p + sj)[|p|..] == sj;
  }

  /** Carbohydrates are read from the key "carb": an item that only has
      "carbs" is described with 0g carbs. */
  lemma {:induction false} CarbsKeyIsIgnored(item: Object, name: string)
    requires "carb" !in item
    ensures Amount(item, "carb") == "0"
  {
  }

  /** The method below is loadFoodData. It returns the texts sent to the
      embedding service, the single upsert request (if one was made) and the
      error thrown (if any). */
  method LoadFoodData(apiKey: Option<string>, items: seq<Object>, embed: EmbedOracle, upsert: UpsertRequest -> bool)
    returns (embedRequests: seq<string>, upserted: Option<UpsertRequest>, error: Option<LoadError>)
    ensures apiKey == None || apiKey == Some("") ==>
      embedRequests == [] && upserted == None && error == Some(MissingApiKey)
    ensures apiKey != None && apiKey != Some("") ==>
      var n := ProcessedCount(items, 0);
      var vectors := VectorsOf(items, Texts(items, n), embed, n);
      && embedRequests == Texts(items, n)
      && (n < |items| ==> upserted == None && error == Some(NameTypeError(n)))
      && (n == |items| && vectors == [] ==> upserted == None && error == Some(NoValidVectors))
      && (n == |items| && vectors != [] ==>
            var request := UpsertRequest(vectors, Namespace);
            && upserted == Some(request)
            && error == (if upsert(request) then None else Some(UpsertFailed)))
  {
    embedRequests, upserted, error := [], None, None;
    if apiKey == None || apiKey == Some("") {
      error := Some(MissingApiKey);
      return;
    }
    ghost var processed := ProcessedCount(items, 0);
    ghost var texts := Texts(items, processed);
    var vectors: seq<VectorRecord> := [];
    for index := 0 to |items|
      invariant NamesOk(items, index) && index <= processed
      invariant processed == ProcessedCount(items, index)
      invariant embedRequests == Texts(items, index)
      invariant vectors == VectorsOf(items, texts, embed, index)
    {
      var item := items[index];
      var itemName := ItemName(item, index);
      if itemName.None? {
        assert ProcessedCount(items, index) == index;
        error := Some(NameTypeError(index));
        return;
      }
      var text := Description(itemName.value, item);
      assert text == TextAt(items, index);
      NextItem(items, index, processed);
      embedRequests := embedRequests + [text];
      var embedding := embed(index, text);
      if embedding.None? {
        continue;
      }
      vectors := vectors + [VectorRecord(VectorId(item, index), embedding.value, text)];
    }
    assert processed == |items|;
    if |vectors| == 0 {
      error := Some(NoValidVectors);
      return;
    }
    var request := UpsertRequest(vectors, Namespace);
    upserted := Some(request);
    if !upsert(request) {
      error := Some(UpsertFailed);
    }
  }
}
