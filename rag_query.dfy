/** The retrieval-augmented query pipeline: sanitise the question, embed it,
    fetch the texts of the nearest records, and wrap them with the question
    in a fixed prompt for the chat model. The embedding service, the index
    and the chat model are oracles passed in as functions. */
module RagQuery {
  import opened Results
  import opened JsValue
  import opened VectorIndex
  import JsText

  const TopK: nat := 5

  datatype QueryError =
    | QueryTypeError      // query.trim() on a value that is not a string
    | EmbeddingFailed     // getEmbedding threw; processQuery does not catch it
    | GenerationFailed    // the chat model call threw

  type EmbedService = string -> Option<Embedding>
  type IndexService = QueryRequest -> Option<seq<Match>>
  type ChatService = string -> Option<string>

  /** The request queryPinecone sends: the given vector and namespace, the
      five nearest records, with their metadata. */
  function IndexQuery(embedding: Embedding, namespace: Value): (q: QueryRequest)
    ensures q.vector == embedding && q.namespace == namespace
    ensures q.topK == 5 && q.includeMetadata
  {
    QueryRequest(embedding, namespace, TopK, true)
  }

  /** `matches.map(match => match.metadata.text)`; None when a match has no
      metadata object, which makes the property access throw. */
  function MatchTexts(matches: seq<Match>): (r: Option<seq<Value>>)
    ensures r.Some? <==> forall i :: 0 <= i < |matches| ==> matches[i].metadata.Some?
    ensures r.Some? ==>
      && |r.value| == |matches|
      && forall i :: 0 <= i < |matches| ==> r.value[i] == Get(matches[i].metadata.value, "text")
  {
    if matches == [] then Some([])
    else match (matches[0].metadata, MatchTexts(matches[1..]))
      case (Some(m), Some(rest)) => Some([Get(m, "text")] + rest)
      case _ => None
  }

  /** queryPinecone: the matched texts in match order, or [] when anything
      in the index path throws. */
  function QueryPinecone(embedding: Embedding, namespace: Value, index: IndexService): (r: seq<Value>)
    ensures r != [] ==>
      var found := index(IndexQuery(embedding, namespace));
      && found.Some? && |r| == |found.value|
      && forall i :: 0 <= i < |r| ==>
           found.value[i].metadata.Some? && r[i] == Get(found.value[i].metadata.value, "text")
  {
    match index(IndexQuery(embedding, namespace))
    case None => []
    case Some(matches) => match MatchTexts(matches)
      case None => []
      case Some(texts) => texts
  }

  /** processQuery: a query that trims to "" yields [] without any remote
      call; otherwise the trimmed query is embedded and the index queried. */
  function ProcessQuery(query: Value, namespace: Value, embed: EmbedService, index: IndexService)
    : (r: Result<seq<Value>, QueryError>)
    ensures r == Err(QueryTypeError) <==> !query.Str?
    ensures r.Err? ==> r.error != GenerationFailed
    ensures r == Err(EmbeddingFailed) ==>
      query.Str? && JsText.Trim(query.s) != "" && embed(JsText.Trim(query.s)).None?
  {
    if !query.Str? then Err(QueryTypeError)
    else
      var sanitized := JsText.Trim(query.s);
      if sanitized == "" then Ok([])
      else match embed(sanitized)
        case None => Err(EmbeddingFailed)
        case Some(e) => Ok(QueryPinecone(e, namespace, index))
  }

  /** `retrievedDocs.join("\n")` */
  function Context(docs: seq<Value>): (r: string)
    ensures |docs| == 1 ==> r == JoinElement(docs[0])
  {
    JsText.Join(seq(|docs|, i requires 0 <= i < |docs| => JoinElement(docs[i])), "\n")
  }

  const PromptHeader: string := "Here is some relevant context:\n"
  const PromptMiddle: string := "\n\nBased on the above context, please answer the following question:\n"
  const PromptFooter: string := "\n\nProvide a detailed and useful response."

  /** The prompt template of generateResponse. */
  function Prompt(context: string, query: string): (r: string)
    ensures |r| == |PromptHeader| + |context| + |PromptMiddle| + |query| + |PromptFooter|
    ensures r[..|PromptHeader|] == PromptHeader
    ensures r[|r| - |PromptFooter|..] == PromptFooter
  {
    PromptHeader + context + PromptMiddle + query + PromptFooter
  }

  /** generateResponse: the chat model's answer to the prompt built from
      the retrieved documents and the query as given (not trimmed). */
  function GenerateResponse(query: Value, docs: seq<Value>, chat: ChatService): (r: Result<string, QueryError>)
    ensures r.Ok? <==> chat(Prompt(Context(docs), ToString(query))).Some?
    ensures r.Ok? ==> Some(r.value) == chat(Prompt(Context(docs), ToString(query)))
    ensures r.Err? ==> r.error == GenerationFailed
  {
    match chat(Prompt(Context(docs), ToString(query)))
    case None => Err(GenerationFailed)
    case Some(answer) => Ok(answer)
  }

  /** A query that is not a string fails, a blank query yields [] whatever
      the services would do, an embedding failure propagates, otherwise the
      documents are what queryPinecone returns for the embedding of the
      trimmed query, and index failures degrade to []. */
  lemma {:induction false} ProcessQueryOutcomes(query: Value, namespace: Value, embed: EmbedService, index: IndexService)
    ensures !query.Str? ==> ProcessQuery(query, namespace, embed, index) == Err(QueryTypeError)
    ensures query.Str? && JsText.AllWhitespace(query.s) ==>
      forall embed2: EmbedService, index2: IndexService ::
        ProcessQuery(query, namespace, embed, index) == ProcessQuery(query, namespace, embed2, index2) == Ok([])
    ensures query.Str? && !JsText.AllWhitespace(query.s) ==>
      var e := embed(JsText.Trim(query.s));
      && (e.None? ==> ProcessQuery(query, namespace, embed, index) == Err(EmbeddingFailed))
      && (e.Some? ==> ProcessQuery(query, namespace, embed, index) == Ok(QueryPinecone(e.value, namespace, index)))
      && (e.Some? && index(IndexQuery(e.value, namespace)).None? ==> ProcessQuery(query, namespace, embed, index) == Ok([]))
  {
    if query.Str? {
      JsText.TrimEmptyIff(query.s);
    }
  }

  /** Only the trimmed query matters: queries that trim alike give the same
      result under every service. */
  lemma {:induction false} ProcessQueryDependsOnTrimmedQuery(a: string, b: string, namespace: Value, embed: EmbedService, index: IndexService)
    requires JsText.Trim(a) == JsText.Trim(b)
    ensures ProcessQuery(Str(a), namespace, embed, index) == ProcessQuery(Str(b), namespace, embed, index)
  {
  }

  /** When every match has metadata, the documents are the matches' texts in match order. */
  lemma {:induction false} QueryPineconeTexts(embedding: Embedding, namespace: Value, index: IndexService, matches: seq<Match>)
    requires index(IndexQuery(embedding, namespace)) == Some(matches)
    requires forall i :: 0 <= i < |matches| ==> matches[i].metadata.Some?
    ensures var docs := QueryPinecone(embedding, namespace, index);
      && |docs| == |matches|
      && forall i :: 0 <= i < |docs| ==> docs[i] == Get(matches[i].metadata.value, "text")
  {
  }

  /** A match without metadata makes `match.metadata.text` throw inside the
      try, so no document at all is returned. */
  lemma {:induction false} QueryPineconeWithoutMetadata(embedding: Embedding, namespace: Value, index: IndexService, matches: seq<Match>, k: nat)
    requires index(IndexQuery(embedding, namespace)) == Some(matches)
    requires k < |matches| && matches[k].metadata.None?
    ensures QueryPinecone(embedding, namespace, index) == []
  {
    assert !(forall i :: 0 <= i < |matches| ==> matches[i].metadata.Some?);
  }

  /** The context of string documents without line breaks splits back into those documents. */
  lemma {:induction false} ContextSplitsBack(docs: seq<string>)
    requires |docs| >= 1
    requires forall i :: 0 <= i < |docs| ==> '\n' !in docs[i]
    ensures JsText.Split(Context(seq(|docs|, i requires 0 <= i < |docs| => Str(docs[i]))), '\n') == docs
  {
    var values := seq(|docs|, i requires 0 <= i < |docs| => Str(docs[i]));
    assert seq(|values|, i requires 0 <= i < |values| => JoinElement(values[i])) == docs;
    JsText.SplitJoin(docs, '\n');
  }

  /** No documents give an empty context. */
  lemma {:induction false} EmptyContext()
    ensures Context([]) == ""
  {
  }

  /** The prompt starts with the header, ends with the footer, and holds the
      context and then the query at fixed offsets. */
  lemma {:induction false} PromptLayout(context: string, query: string)
    ensures var p, h, m := Prompt(context, query), |PromptHeader|, |PromptMiddle|;
      && |p| == h + |context| + m + |query| + |PromptFooter|
      && p[..h] == PromptHeader
      && p[h..h + |context|] == context
      && p[h + |context| + m..h + |context| + m + |query|] == query
      && p[|p| - |PromptFooter|..] == PromptFooter
  {
    var p := Prompt(context, query);
    var h, c, m, q := |PromptHeader|, |context|, |PromptMiddle|, |query|;
    assert p == PromptHeader + context + PromptMiddle + query + PromptFooter;
    assert p[h..h + c] == context;
    assert p[h + c + m..h + c + m + q] == query;
  }

  /** Documents "A" and "B" and question "Q": "A\nB" appears right after the
      header and "Q" follows later. */
  lemma {:induction false} PromptForTwoDocuments()
    ensures Context([Str("A"), Str("B")]) == "A\nB"
    ensures var p := Prompt("A\nB", "Q");
      p[|PromptHeader|..|PromptHeader| + 3] == "A\nB"
      && p[|PromptHeader| + 3 + |PromptMiddle|..|PromptHeader| + 4 + |PromptMiddle|] == "Q"
  {
    var docs := [Str("A"), Str("B")];
    assert seq(|docs|, i requires 0 <= i < |docs| => JoinElement(docs[i])) == ["A", "B"];
    assert ["A", "B"][1..] == ["B"];
    assert JsText.Join(["A", "B"], "\n") == "A" + "\n" + "B";
    PromptLayout("A\nB", "Q");
  }
}
