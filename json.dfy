/**
 * JSON values, the shape of the Python dicts and lists that make up a
 * function schema. Objects are maps: the order of keys in a schema carries
 * no meaning for the registry or for the model vendor.
 */
module Json {

  datatype Json =
    | JNull
    | JBool(b: bool)
    | JInt(i: int)
    | JString(s: string)
    | JArray(items: seq<Json>)
    | JObject(fields: map<string, Json>)

  /** A function schema: the top-level JSON object a cog registers. */
  type Schema = map<string, Json>

  /** True when `key` is present in `o` and holds a string. */
  predicate HasString(o: map<string, Json>, key: string)
  {
    key in o && o[key].JString?
  }

  /** True when `key` is present in `o` and holds an object. */
  predicate HasObject(o: map<string, Json>, key: string)
  {
    key in o && o[key].JObject?
  }
}
