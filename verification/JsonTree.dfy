/** JSON documents. Objects keep the order of their fields; fractional numbers carry the text they are written as. */
module JsonTree {

  datatype Field = Field(key: string, value: Json)
  datatype Json =
    | Null
    | Bool(b: bool)
    | Int(value: int)
    | Float(repr: string)
    | Str(s: string)
    | Arr(items: seq<Json>)
    | Obj(fields: seq<Field>)
}
