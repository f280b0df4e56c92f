/**
 * The values `json.loads` produces, and the few Python operations the fact
 * normaliser applies to them: truthiness, hashability, `x[i]` and iteration.
 */
module JsonValue {
  import opened Wrappers

  /** A parsed JSON value. Numbers are kept abstract as integers. */
  datatype Json =
    | JNull
    | JBool(b: bool)
    | JNum(n: int)
    | JStr(s: string)
    | JArr(items: seq<Json>)
    | JObj(fields: map<string, Json>)

  /** Python truthiness of a parsed value (`if value:`). */
  predicate Truthy(j: Json) {
    match j
    case JNull => false
    case JBool(b) => b
    case JNum(n) => n != 0
    case JStr(s) => s != ""
    case JArr(xs) => xs != []
    case JObj(m) => m != map[]
  }

  /** Lists and dicts are unhashable: they cannot be dict keys or set members. */
  predicate Hashable(j: Json) {
    !j.JArr? && !j.JObj?
  }

  /** A tuple of values is hashable when each of its components is. */
  predicate AllHashable(xs: seq<Json>) {
    forall i :: 0 <= i < |xs| ==> Hashable(xs[i])
  }

  /**
   * `j[i]` for a non-negative index: a list yields its element, a string
   * the one-character string at that position; an index out of range, or
   * any other value (a dict has no integer keys), raises.
   */
  function Index(j: Json, i: nat): (r: Option<Json>)
    ensures r.Some? <==> (j.JArr? && i < |j.items|) || (j.JStr? && i < |j.s|)
    ensures j.JArr? && i < |j.items| ==> r == Some(j.items[i])
  {
    match j
    case JArr(xs) => if i < |xs| then Some(xs[i]) else None
    case JStr(s) => if i < |s| then Some(JStr([s[i]])) else None
    case _ => None
  }

  /**
   * The elements `for x in j` visits: a list's items, or a string's
   * characters as one-character strings. Scalars are not iterable. A dict
   * would yield its keys; that case is treated as not iterable here.
   */
  function Iterate(j: Json): (r: Option<seq<Json>>)
    ensures r.Some? <==> j.JArr? || j.JStr?
    ensures r.Some? ==> |r.value| == (if j.JArr? then |j.items| else |j.s|)
    ensures r.Some? ==> AllHashable(r.value) || j.JArr?
  {
    match j
    case JArr(xs) => Some(xs)
    case JStr(s) => Some(seq(|s|, i requires 0 <= i < |s| => JStr([s[i]])))
    case _ => None
  }
}
