/** The shapes exchanged with the hosted document database. The database
    itself is an oracle: each call is a parameter that succeeds or fails. */
module Firestore {
  import opened JsValue

  /** A conversion the source applies to form text before writing it and
      that the model records instead of evaluating (it yields floating point). */
  datatype Conversion = NumberCall | ParseFloatOrNull

  /** One field of a written document. */
  datatype Field =
    | Plain(value: Value)
    | Converted(conversion: Conversion, text: string)
    | ServerTimestamp
    | DateAt(ms: int)

  type Document = map<string, Field>

  /** The outcome of reading one document. */
  datatype Read = ReadFailed | Missing | Found(data: Object)
}
