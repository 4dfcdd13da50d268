/**
 * JSON values as a JSON parser hands them to a DID document: the backing
 * store of a document is a string-keyed map of these.
 */
module Json {

  /** A JSON value. A number is kept exactly as `mantissa * 10^exponent`. */
  datatype Json =
    | JNull
    | JString(text: string)
    | JNumber(mantissa: int, exponent: int)
    | JBool(truth: bool)
    | JMap(fields: map<string, Json>)
    | JList(items: seq<Json>)

  /** A JSON object: what the document wraps. */
  type JsonMap = map<string, Json>

  /**
   * The value stored under `key`, as Java's `Map.get` gives it: an absent key
   * and a key holding JSON null both read as null.
   */
  function Lookup(m: JsonMap, key: string): Json
  {
    if key in m then m[key] else JNull
  }
}
