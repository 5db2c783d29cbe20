/** Decoded JSON values, as Python's json module hands them to the client. */
module Json {

  /** A decoded JSON value. An object keeps its members in a map, so a member
      that is absent and a member whose value is `null` are different things.
      Numbers are carried as their literal text: the client never looks at them. */
  datatype Json =
    | JNull
    | JBool(b: bool)
    | JNumber(literal: string)
    | JString(s: string)
    | JArray(items: seq<Json>)
    | JObject(fields: map<string, Json>)

  /** Python's `d.get(key, default)` on a decoded JSON object: the member's value
      when the key is present (even when that value is `null`), the default otherwise. */
  function Get(fields: map<string, Json>, key: string, default: Json): Json
  {
    if key in fields then fields[key] else default
  }
}
