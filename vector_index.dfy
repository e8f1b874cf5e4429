/** The records exchanged with the hosted vector index, which is an oracle. */
module VectorIndex {
  import opened Results
  import opened JsValue

  /** An embedding vector; its numbers are never inspected. */
  type Embedding = seq<real>

  datatype VectorRecord = VectorRecord(id: Value, values: Embedding, text: string)

  datatype UpsertRequest = UpsertRequest(vectors: seq<VectorRecord>, namespace: string)

  datatype QueryRequest = QueryRequest(vector: Embedding, namespace: Value, topK: nat, includeMetadata: bool)

  /** One nearest-neighbour match; its metadata object may be absent. */
  datatype Match = Match(metadata: Option<Object>)
}
