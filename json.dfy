/**
 * Decoded JSON values, as the handler sees them after `request.get_json()`
 * and `json.loads`, together with the two Python operations the handler
 * applies to them: `dict.get` and comparison with the integer 1.
 */
module JsonValues {

  datatype Json =
    | JNull
    | JBool(b: bool)
    | JInt(i: int)
    | JFloat(f: real)
    | JString(s: string)
    | JArray(items: seq<Json>)
    | JObject(fields: map<string, Json>)

  /** `d.get(key)`: the stored value, or None (JSON null) when the key is absent. */
  function Lookup(fields: map<string, Json>, key: string): Json
  {
    if key in fields then fields[key] else JNull
  }

  /**
   * Python's `value == 1` on a decoded JSON value: true for the integer 1,
   * the float 1.0 and `True` (a bool is an int in Python), false otherwise.
   */
  predicate EqualsOne(v: Json)
  {
    v == JInt(1) || v == JFloat(1.0) || v == JBool(true)
  }
}
