/** Python's `Optional`: a value or `None`. */
module Wrappers {
  datatype Option<+T> = None | Some(value: T)

  /** A value, or the message of the `ValueError` raised instead. */
  datatype Result<+T> = Success(value: T) | Failure(error: string)
}

/**
 * JSON values as the two tools load them, and the Python idioms they use
 * on a record (a JSON object): `rec.get(k)`, truthiness, `x or ""`.
 */
module JsonData {
  datatype Json =
    | JNull
    | JBool(b: bool)
    | JNum(n: int)
    | JStr(s: string)
    | JArr(items: seq<Json>)
    | JObj(fields: map<string, Json>)

  /** A JSON object: one record of a dataset. */
  type Record = map<string, Json>

  /** `rec.get(k)`: a missing key reads as `None`. */
  function Get(r: Record, k: string): Json {
    if k in r then r[k] else JNull
  }

  /** Python's `bool(v)`. */
  predicate Truthy(j: Json) {
    match j
    case JNull => false
    case JBool(b) => b
    case JNum(n) => n != 0
    case JStr(s) => s != ""
    case JArr(a) => a != []
    case JObj(m) => m != map[]
  }

  /** The number Python sees in a JSON boolean or integer (`True == 1`). */
  function NumberOf(j: Json): int
    requires j.JBool? || j.JNum?
  {
    if j.JBool? then (if j.b then 1 else 0) else j.n
  }

  /**
   * Python's `==` on loaded JSON values: structural, except that a boolean
   * equals the integer it counts as.
   */
  predicate PyEqual(a: Json, b: Json) {
    match a
    case JNull => b.JNull?
    case JBool(_) => (b.JBool? || b.JNum?) && NumberOf(a) == NumberOf(b)
    case JNum(_) => (b.JBool? || b.JNum?) && NumberOf(a) == NumberOf(b)
    case JStr(s) => b == JStr(s)
    case JArr(xs) => b.JArr? && |xs| == |b.items| && forall i :: 0 <= i < |xs| ==> PyEqual(xs[i], b.items[i])
    case JObj(m) => b.JObj? && m.Keys == b.fields.Keys && forall k :: k in m ==> PyEqual(m[k], b.fields[k])
  }

  /** Every value equals itself. */
  lemma {:induction false} PyEqualReflexive(a: Json)
    ensures PyEqual(a, a)
  {
    match a
    case JArr(xs) =>
      forall i | 0 <= i < |xs| ensures PyEqual(xs[i], xs[i]) {
        PyEqualReflexive(xs[i]);
      }
    case JObj(m) =>
      forall k | k in m ensures PyEqual(m[k], m[k]) {
        PyEqualReflexive(m[k]);
      }
    case _ =>
  }

  /** `v or ""` where `v` is used as a string: a non-string reads as "". */
  function TextOf(j: Json): string {
    if j.JStr? then j.s else ""
  }
}
