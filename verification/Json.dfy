/** JSON values, parsed. Text, parse and dump are not modelled. */
module Json {
  import opened Prelude

  datatype Json =
    | Null
    | Bool(b: bool)
    | Int(n: int)
    | Real(r: real)
    | Str(s: string)
    | Arr(items: seq<Json>)
    | Obj(fields: map<string, Json>)

  const EMPTY_OBJECT := Obj(map[])

  predicate Contains(j: Json, key: string) {
    j.Obj? && key in j.fields
  }

  /** j.value(key, default) on an object. */
  function ValueOr(j: Json, key: string, default: Json): Json
    requires j.Obj?
  {
    if key in j.fields then j.fields[key] else default
  }
}
