/** JSON values as the handlers see them in `req.body` and send with
    `res.json`. */
module Json {
  import opened Common

  datatype Json =
    | JNull
    | JBool(b: bool)
    | JNum(n: real)
    | JStr(s: string)
    | JArr(items: seq<Json>)
    | JObj(fields: map<string, Json>)

  /** A JSON object's members: a request body, or a document as sent. */
  type Doc = map<string, Json>

  /** JavaScript truthiness of a body member; `None` is `undefined`. */
  predicate Truthy(v: Option<Json>) {
    match v
    case None => false
    case Some(j) =>
      match j
      case JNull => false
      case JBool(b) => b
      case JNum(n) => n != 0.0
      case JStr(s) => s != ""
      case _ => true
    }

  /** `Array.isArray(v) && !v.some(x => typeof x !== 'string')`. */
  predicate IsStringArray(j: Json) {
    j.JArr? && forall i :: 0 <= i < |j.items| ==> j.items[i].JStr?
  }

  /** The number a relational comparison (`<`, `>`) makes of a primitive
      member: `null` is 0, a boolean 0 or 1, a number itself. `None` is
      `undefined` or a value this model does not convert. */
  function NumberOf(j: Json): Option<real> {
    match j
    case JNull => Some(0.0)
    case JBool(b) => Some(if b then 1.0 else 0.0)
    case JNum(n) => Some(n)
    case _ => None
  }

  /** `v.length` as a comparison reads it: strings and arrays have their
      length; an object has whatever its own `length` member holds; numbers,
      booleans and `null` have none. */
  function LengthOf(j: Json): Option<real> {
    match j
    case JStr(s) => Some(|s| as real)
    case JArr(items) => Some(|items| as real)
    case JObj(fields) => if "length" in fields then NumberOf(fields["length"]) else None
    case _ => None
  }

  /** A list of strings as a JSON array. */
  function Strings(xs: seq<string>): (j: Json)
    ensures IsStringArray(j) && |j.items| == |xs|
    ensures forall i :: 0 <= i < |xs| ==> j.items[i] == JStr(xs[i])
  {
    JArr(seq(|xs|, i requires 0 <= i < |xs| => JStr(xs[i])))
  }
}
