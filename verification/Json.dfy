/** JSON values, and what lies at a path in one. */
module Json {
  import opened Wrappers

  /** A number is an integer or a float, which are never equal to one another. */
  datatype Json =
    | Null
    | Bool(b: bool)
    | Int(n: int)
    | Float(r: real)
    | Str(s: string)
    | Arr(items: seq<Json>)
    | Obj(members: map<string, Json>)

  function Member(value: Json, name: string): Option<Json> {
    if value.Obj? && name in value.members then Some(value.members[name]) else None
  }

  /** The value the path's segments lead to, object by object. */
  function ValueAt(value: Json, path: seq<string>): Option<Json>
    decreases |path|
  {
    if path == [] then Some(value)
    else if Member(value, path[0]).Some? then ValueAt(Member(value, path[0]).value, path[1..])
    else None
  }

  /** The string at the path, such as an item's identity. */
  function StringAt(value: Json, path: seq<string>): Option<string> {
    match ValueAt(value, path)
    case Some(Str(s)) => Some(s)
    case _ => None
  }
}
