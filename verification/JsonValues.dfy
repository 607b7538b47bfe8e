/**
 JavaScript values as the canonicaliser and the extractor see them. An object is its own enumerable
 properties in insertion order; a number is the text it prints as.
 */
module JsonValues {
  datatype Json =
    | Undefined
    | Null
    | Bool(flag: bool)
    | Num(token: string)
    | Str(text: string)
    | Arr(items: seq<Json>)
    | Obj(fields: seq<Field>)

  datatype Field = Field(key: string, value: Json)

  /** `value[key]`, undefined when there is no such property. */
  function Get(v: Json, key: string): Json {
    if v.Obj? then GetField(v.fields, key) else Undefined
  }

  function GetField(fields: seq<Field>, key: string): Json {
    if fields == [] then Undefined else if fields[0].key == key then fields[0].value else GetField(fields[1..], key)
  }

  /** `a ?? b` */
  function OrElse(a: Json, b: Json): Json { if a.Undefined? || a.Null? then b else a }

  /** `typeof value === "object" && value !== null`: arrays are objects. */
  predicate IsObject(v: Json) { v.Obj? || v.Arr? }
}
