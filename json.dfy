/**
 * The part of serde_json's dynamic `Value` that the chat session and the CMS
 * proxy look at. Parsing text into a `Value` is a library call and is not
 * modelled here: callers receive it as a function parameter.
 */
module Json {
  import opened Wrappers

  /** serde_json `Value`. Numbers are kept as reals; objects map keys to values. */
  datatype Value =
    | Null
    | Bool(b: bool)
    | Number(n: real)
    | String(s: string)
    | Array(items: seq<Value>)
    | Object(members: map<string, Value>)

  /** `value[key]`: indexing never fails; a missing key or a non-object yields `Null`. */
  function Index(v: Value, key: string): Value
  {
    if v.Object? && key in v.members then v.members[key] else Null
  }

  /** `value.as_str()`: the text of a string value, nothing for any other kind. */
  function AsStr(v: Value): Option<string>
  {
    if v.String? then Some(v.s) else None
  }
}
