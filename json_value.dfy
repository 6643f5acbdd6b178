/**
 * The values that `json.loads` produces, and the two ways the modelled code
 * reads them: `d[key]` on a dict, and comparing a number with `<=`.
 * A dict is a sequence of (key, value) pairs in insertion order.
 */
module JsonValue {
  import opened Wrappers
  import opened PyBuiltins

  datatype Json =
    | JNull
    | JBool(b: bool)
    | JNum(num: real)
    | JStr(str: string)
    | JList(items: seq<Json>)
    | JObject(fields: seq<(string, Json)>)

  /** The value stored under `key`, `None` if the dict has no such key. */
  function Lookup(fields: seq<(string, Json)>, key: string): (r: Option<Json>)
    ensures r.None? <==> forall i :: 0 <= i < |fields| ==> fields[i].0 != key
    ensures r.Some? ==> exists i :: 0 <= i < |fields| && fields[i] == (key, r.value)
    decreases |fields|
  {
    if fields == [] then None
    else if fields[0].0 == key then Some(fields[0].1)
    else
      var r := Lookup(fields[1..], key);
      assert forall i :: 0 < i < |fields| ==> fields[i] == fields[1..][i - 1];
      r
  }

  /** A Python dict never holds the same key twice. */
  predicate DistinctKeys(fields: seq<(string, Json)>) {
    forall i, j :: 0 <= i < j < |fields| ==> fields[i].0 != fields[j].0
  }

  /** `data[key]`: a missing key raises `KeyError`, a value that is not a dict
      raises `TypeError`. */
  function Subscript(data: Json, key: string): (r: Result<Json, Exception>)
    ensures r.Success? <==> data.JObject? && Lookup(data.fields, key).Some?
    ensures r.Success? ==> r.value == Lookup(data.fields, key).value
    ensures data.JObject? && r.Failure? ==> r.error == KeyError(key)
  {
    match data
    case JObject(fields) =>
      (match Lookup(fields, key)
       case Some(v) => Success(v)
       case None => Failure(KeyError(key)))
    case _ => Failure(TypeError)
  }

  /** The number a float is compared with in `price <= value`: `bool` counts
      as 0 or 1, and every other non-number raises `TypeError` (`None`). */
  function NumericValue(v: Json): (r: Option<real>)
    ensures r.Some? <==> v.JNum? || v.JBool?
    ensures v.JNum? ==> r == Some(v.num)
    ensures v.JBool? ==> r == Some(if v.b then 1.0 else 0.0)
  {
    match v
    case JNum(n) => Some(n)
    case JBool(b) => Some(if b then 1.0 else 0.0)
    case _ => None
  }
}
