/** The POST /rag-query route: validate the body, retrieve documents, generate
    the answer, and map the outcome to an HTTP status. Retrieval and
    generation are passed in; the route only sequences them. */
module RagEndpoint {
  import opened Results
  import opened JsValue
  import RagQuery
  import JsText

  datatype ResponseBody = ErrorBody(error: string) | AnswerBody(response: string)

  datatype HttpResponse = HttpResponse(status: nat, body: ResponseBody)

  /** A call the route makes, with its arguments. */
  datatype Call = Retrieve(query: Value, namespace: Value) | Generate(query: Value, docs: seq<Value>)

  datatype Handled = Handled(response: HttpResponse, calls: seq<Call>)

  const MissingFields: HttpResponse := HttpResponse(400, ErrorBody("Missing query or namespace"))
  const InternalError: HttpResponse := HttpResponse(500, ErrorBody("Internal server error"))

  /** The route handler on the parsed JSON body. */
  function HandleRagQuery<E>(body: Object, retrieve: (Value, Value) -> Result<seq<Value>, E>,
                             generate: (Value, seq<Value>) -> Result<string, E>): (h: Handled)
    ensures h.response.status in {200, 400, 500}
    ensures |h.calls| <= 2
    ensures h.response.status == 200 ==> |h.calls| == 2 && h.response.body.AnswerBody?
  {
    var query, namespace := Get(body, "query"), Get(body, "namespace");
    if !Truthy(query) || !Truthy(namespace) then Handled(MissingFields, [])
    else match retrieve(query, namespace)
      case Err(_) => Handled(InternalError, [Retrieve(query, namespace)])
      case Ok(docs) =>
        var calls := [Retrieve(query, namespace), Generate(query, docs)];
        match generate(query, docs)
        case Err(_) => Handled(InternalError, calls)
        case Ok(answer) => Handled(HttpResponse(200, AnswerBody(answer)), calls)
  }

  /** 400 exactly when query or namespace is falsy, and then nothing is called;
      otherwise retrieval runs first with the body's fields, generation only
      after it succeeds with the same query and the retrieved documents, and
      the status is 200 with the answer or 500 on any failure. */
  lemma {:induction false} HandlerOutcomes<E>(body: Object, retrieve: (Value, Value) -> Result<seq<Value>, E>,
                           generate: (Value, seq<Value>) -> Result<string, E>)
    ensures var h, q, ns := HandleRagQuery(body, retrieve, generate), Get(body, "query"), Get(body, "namespace");
      && (h.response.status == 400 <==> !Truthy(q) || !Truthy(ns))
      && (h.response.status == 400 ==> h.calls == [] && h.response == MissingFields)
      && (h.response.status != 400 ==>
            && h.calls[0] == Retrieve(q, ns)
            && (retrieve(q, ns).Err? ==> h.calls == [Retrieve(q, ns)] && h.response == InternalError)
            && (retrieve(q, ns).Ok? ==>
                  var docs := retrieve(q, ns).value;
                  && h.calls == [Retrieve(q, ns), Generate(q, docs)]
                  && h.response == match generate(q, docs)
                       case Ok(answer) => HttpResponse(200, AnswerBody(answer))
                       case Err(_) => InternalError))
      && h.response.status in {200, 400, 500}
  {
  }

  /** Wired to the query pipeline, a blank but non-empty query passes the 400
      check, retrieves nothing, and generation still runs with no documents. */
  lemma {:induction false} BlankQueryStillGenerates(s: string, namespace: Value, body: Object,
                                 embed: RagQuery.EmbedService, index: RagQuery.IndexService, chat: RagQuery.ChatService)
    requires Get(body, "query") == Str(s) && Get(body, "namespace") == namespace
    requires s != "" && JsText.AllWhitespace(s) && Truthy(namespace)
    ensures var h := HandleRagQuery(body,
                       (q, ns) => RagQuery.ProcessQuery(q, ns, embed, index),
                       (q, docs) => RagQuery.GenerateResponse(q, docs, chat));
      && h.calls == [Retrieve(Str(s), namespace), Generate(Str(s), [])]
      && h.response == match chat(RagQuery.Prompt("", s))
           case Some(answer) => HttpResponse(200, AnswerBody(answer))
           case None => InternalError
  {
    JsText.TrimEmptyIff(s);
    RagQuery.EmptyContext();
  }

  /** A truthy query that is not a string (true, a non-zero number, an object
      or an array) makes trim() throw inside the try: 500. */
  lemma {:induction false} NonStringQueryIsInternalError(body: Object,
                                      embed: RagQuery.EmbedService, index: RagQuery.IndexService, chat: RagQuery.ChatService)
    requires Truthy(Get(body, "query")) && !Get(body, "query").Str? && Truthy(Get(body, "namespace"))
    ensures HandleRagQuery(body,
              (q, ns) => RagQuery.ProcessQuery(q, ns, embed, index),
              (q, docs) => RagQuery.GenerateResponse(q, docs, chat)).response == InternalError
  {
  }
}
