/**
 * The parsed JSON tree (a jsoncpp `Json::Value`) and the kind tests that the
 * loader applies to it.  jsoncpp keeps integers and doubles apart (`5` is an
 * int value, `5.0` a real one), so the tree does too; numbers are unbounded
 * here and the 32/64-bit range checks of `isInt`/`isInt64` are written out.
 */
module JsonTree {

  datatype Json =
    | JNull
    | JBool(b: bool)
    | JInt(i: int)
    | JReal(r: real)
    | JStr(s: string)
    | JArr(items: seq<Json>)
    | JObj(fields: map<string, Json>)

  const INT32_MIN: int := -0x8000_0000
  const INT32_MAX: int := 0x7FFF_FFFF
  const INT64_MIN: int := -0x8000_0000_0000_0000
  const INT64_MAX: int := 0x7FFF_FFFF_FFFF_FFFF

  predicate InInt32(i: int) { INT32_MIN <= i <= INT32_MAX }
  predicate InInt64(i: int) { INT64_MIN <= i <= INT64_MAX }

  predicate IsIntegral(r: real) { r.Floor as real == r }

  /** `Json::Value::isInt`: an integer in int32 range, or an integral double within it. */
  predicate IsInt(j: Json) {
    match j
    case JInt(i) => InInt32(i)
    case JReal(r) => INT32_MIN as real <= r <= INT32_MAX as real && IsIntegral(r)
    case _ => false
  }

  /** `Json::Value::isInt64`; for doubles the upper bound is strict, as in jsoncpp. */
  predicate IsInt64(j: Json) {
    match j
    case JInt(i) => InInt64(i)
    case JReal(r) => INT64_MIN as real <= r < (INT64_MAX + 1) as real && IsIntegral(r)
    case _ => false
  }

  /** `Json::Value::isDouble`: every number, integer or not. */
  predicate IsDouble(j: Json) { j.JInt? || j.JReal? }

  /** `asInt()` / `asInt64()` of a value that passed `IsInt` / `IsInt64`. */
  function AsInteger(j: Json): (i: int)
    requires j.JInt? || (j.JReal? && IsIntegral(j.r))
    ensures j.JInt? ==> i == j.i
    ensures j.JReal? ==> i as real == j.r
  {
    if j.JInt? then j.i else j.r.Floor
  }

  /** `asFloat()`: the number as a real (the rounding to single precision is not modelled). */
  function AsReal(j: Json): real
    requires IsDouble(j)
  {
    if j.JInt? then j.i as real else j.r
  }

  /** `isMember(field)` on an object node. */
  predicate HasMember(j: Json, field: string) {
    j.JObj? && field in j.fields
  }
}
