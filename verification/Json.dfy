/** JSON values; an object lists its fields in iteration order. */
module Json {
  import opened Results

  datatype Json =
    | Nul
    | Bool(b: bool)
    | Num(n: int)
    | Str(s: string)
    | Arr(items: seq<Json>)
    | Obj(fields: seq<Field>)

  datatype Field = Field(key: string, val: Json)

  predicate Primitive(j: Json) {
    !j.Arr? && !j.Obj?
  }

  function Lookup(fields: seq<Field>, key: string): Option<Json> {
    if fields == [] then None
    else if fields[0].key == key then Some(fields[0].val)
    else Lookup(fields[1..], key)
  }

  /** The text under a key, or an exception when the value is no object or holds no text there. */
  function TextAt(j: Json, key: string): Result<string> {
    if !j.Obj? then Thrown("type_error")
    else match Lookup(j.fields, key)
      case Some(Str(s)) => Ok(s)
      case _ => Thrown("type_error")
  }

  /** An object with one field. */
  function Node(key: string, val: Json): Json {
    Obj([Field(key, val)])
  }
}
