/** serde_json's untyped `Value` and the safe accessors the normaliser navigates it with.
    Every accessor answers "absent" instead of failing. */
module Json {
  import opened Wrappers

  /** An object is a map from keys to values (serde_json keeps one value per key). Numbers are
      never read by the crate; their payload is an exact rational here. */
  datatype Value =
    | Null
    | Bool(b: bool)
    | Number(n: real)
    | Str(s: string)
    | Array(items: seq<Value>)
    | Object(fields: map<string, Value>)

  /** `v[key]`: the member, or `Null` when `v` is not an object or has no such key. */
  function Index(v: Value, key: string): (r: Value)
    ensures r != Null ==> v.Object? && key in v.fields && r == v.fields[key]
    ensures v.Object? && key in v.fields ==> r == v.fields[key]
  {
    if v.Object? && key in v.fields then v.fields[key] else Null
  }

  /** `v.get(key)`: the member, or `None` when `v` is not an object or has no such key. */
  function Get(v: Value, key: string): (r: Option<Value>)
    ensures r.Some? <==> v.Object? && key in v.fields
    ensures r.Some? ==> r.value == v.fields[key]
  {
    if v.Object? && key in v.fields then Some(v.fields[key]) else None
  }

  /** `v.as_str()`: only a JSON string has one. */
  function AsStr(v: Value): (r: Option<string>)
    ensures r.Some? <==> v.Str?
  {
    if v.Str? then Some(v.s) else None
  }

  /** `v.as_array()`. */
  function AsArray(v: Value): (r: Option<seq<Value>>)
    ensures r.Some? <==> v.Array?
  {
    if v.Array? then Some(v.items) else None
  }

  /** `v.as_bool()`. */
  function AsBool(v: Value): (r: Option<bool>)
    ensures r.Some? <==> v.Bool?
  {
    if v.Bool? then Some(v.b) else None
  }

  /** `v.get(key).and_then(|v| v.as_str())`. */
  function GetStr(v: Value, key: string): (r: Option<string>)
    ensures r.Some? <==> v.Object? && key in v.fields && v.fields[key].Str?
    ensures r.Some? ==> r.value == v.fields[key].s
  {
    match Get(v, key)
    case Some(m) => AsStr(m)
    case None => None
  }

  /** `v.get(key).and_then(|v| v.as_bool())`. */
  function GetBool(v: Value, key: string): (r: Option<bool>)
    ensures r.Some? <==> v.Object? && key in v.fields && v.fields[key].Bool?
    ensures r.Some? ==> r.value == v.fields[key].b
  {
    match Get(v, key)
    case Some(m) => AsBool(m)
    case None => None
  }

  /** `v.get(key).and_then(|v| v.as_array())`. */
  function GetArray(v: Value, key: string): (r: Option<seq<Value>>)
    ensures r.Some? <==> v.Object? && key in v.fields && v.fields[key].Array?
    ensures r.Some? ==> r.value == v.fields[key].items
  {
    match Get(v, key)
    case Some(m) => AsArray(m)
    case None => None
  }
}
