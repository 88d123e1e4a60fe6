/** The dynamically typed JSON tree that the dashboard reads its API records
    from, with the three accessors it uses: indexing by key, `as_str` and
    `as_array`, following serde_json's `Value`. */
module Json {
  import opened Wrappers

  datatype Value =
    | Null
    | Bool(b: bool)
    | Number(n: int)
    | String(str: string)
    | Array(elems: seq<Value>)
    | Object(fields: map<string, Value>)

  /** `v[key]`: indexing a non-object, or an object without `key`, gives `Null`
      instead of failing. */
  function Get(v: Value, key: string): Value
  {
    if v.Object? && key in v.fields then v.fields[key] else Null
  }

  /** `v.as_str()`: the text of a JSON string, `None` for every other kind. */
  function AsStr(v: Value): Option<string>
  {
    if v.String? then Some(v.str) else None
  }

  /** `v.as_array()`: the elements of a JSON array, `None` for every other kind. */
  function AsArray(v: Value): Option<seq<Value>>
  {
    if v.Array? then Some(v.elems) else None
  }
}
