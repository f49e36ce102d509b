/** Raw input values as they reach validation: the decoded JSON or GraphQL arguments. */
module Payloads {

  datatype Value = VNull | VBool(b: bool) | VInt(i: int) | VStr(s: string) | VOther

  /** A JSON object or keyword-argument dictionary. */
  type Payload = map<string, Value>

  /** A decoded JSON document: an object or some other value. */
  datatype Json = JObject(fields: Payload) | JScalar(v: Value)
}
