/**
 * An already-parsed org.json value, and the accessors of `JSONObject` that the
 * stream reader uses. Each `get...` accessor answers `None` exactly where org.json
 * throws a `JSONException`.
 */
module Json {
  import opened Wrappers
  import opened KotlinStrings

  datatype JVal =
    | JStr(s: string)
    | JNum(n: int)
    | JBool(b: bool)
    | JNull
    | JObj(fields: map<string, JVal>)
    | JArr(items: seq<JVal>)

  /** `JSONObject(text)`: a parsed object, or the `JSONException` of malformed text. */
  datatype Frame = ParseError | Obj(fields: map<string, JVal>)

  /** `getJSONObject(key)` (`None`: throws), and `optJSONObject(key)` (`None`: null). */
  function ObjectAt(m: map<string, JVal>, key: string): Option<map<string, JVal>>
  {
    if key in m && m[key].JObj? then Some(m[key].fields) else None
  }

  /** `getJSONArray(key)` */
  function ArrayAt(m: map<string, JVal>, key: string): Option<seq<JVal>>
  {
    if key in m && m[key].JArr? then Some(m[key].items) else None
  }

  /** `getString(key)` */
  function StringAt(m: map<string, JVal>, key: string): Option<string>
  {
    if key in m && m[key].JStr? then Some(m[key].s) else None
  }

  /**
   * `optString(key)`: "" for a missing key or `null`, the text of a string, number
   * or boolean. Nested objects and arrays, whose JSON rendering is not modelled, give "".
   */
  function OptString(m: map<string, JVal>, key: string): (r: string)
    ensures key !in m ==> r == ""
    ensures key in m && m[key].JStr? ==> r == m[key].s
    ensures key in m && m[key].JNum? ==> ToIntOrNull(r) == Some(m[key].n) || !IsInt32(m[key].n)
    ensures key in m && m[key].JNum? ==> r == IntToString(m[key].n)
    ensures key in m && m[key].JBool? ==> r == if m[key].b then "true" else "false"
    ensures key in m && (m[key].JNull? || m[key].JObj? || m[key].JArr?) ==> r == ""
  {
    if key !in m then ""
    else
      match m[key]
      case JStr(s) => s
      case JNum(n) =>
        if IsInt32(n) then ToIntOrNullOfIntToString(n); IntToString(n) else IntToString(n)
      case JBool(b) => if b then "true" else "false"
      case _ => ""
  }

  /**
   * `getInt(key)`: a number's low 32 bits (`Number.intValue()`), a string read by
   * `Integer.parseInt`; anything else, or a missing key, throws.
   */
  function IntAt(m: map<string, JVal>, key: string): (r: Option<int>)
    ensures r.Some? ==> IsInt32(r.value)
  {
    if key !in m then None
    else
      match m[key]
      case JNum(n) => Some(ToInt32(n))
      case JStr(s) => ToIntOrNull(s)
      case _ => None
  }
}
