/**
 * JSON-like values: the shape of the persisted document, of request bodies and
 * of the state updates the browser sends. Numbers are integers only.
 */
module Json {
  import opened Wrappers

  datatype Json =
    | JNull
    | JBool(b: bool)
    | JInt(i: int)
    | JStr(s: string)
    | JList(items: seq<Json>)
    | JObj(fields: map<string, Json>)

  /** JavaScript truthiness (`if (v)`, `v || d`): null, false, 0 and "" are falsy, arrays and objects are not. */
  predicate JsTruthy(v: Json)
  {
    match v
    case JNull => false
    case JBool(b) => b
    case JInt(i) => i != 0
    case JStr(s) => s != ""
    case JList(_) => true
    case JObj(_) => true
  }

  /** Python truthiness (`if not v`): empty lists and empty dictionaries are falsy as well. */
  predicate PyTruthy(v: Json)
  {
    match v
    case JNull => false
    case JBool(b) => b
    case JInt(i) => i != 0
    case JStr(s) => s != ""
    case JList(xs) => xs != []
    case JObj(f) => f != map[]
  }

  /** JavaScript property read `v.k`: None stands for `undefined` (a missing key, or a value that is not an object). */
  function Field(v: Json, k: string): (r: Option<Json>)
    ensures r.Some? <==> v.JObj? && k in v.fields
    ensures r.Some? ==> r.value == v.fields[k]
  {
    if v.JObj? && k in v.fields then Some(v.fields[k]) else None
  }

  /** The value of `v.k` with `undefined` read as null (the two behave alike under truthiness and `===` with a string). */
  function FieldOrNull(v: Json, k: string): Json
  {
    Field(v, k).GetOr(JNull)
  }
}
