/** Values as a JSON text describes them. */
module Json {
  import opened Wrappers

  datatype Json =
    | Null
    | Bool(flag: bool)
    | Num(value: real)
    | TooBig
    | Str(text: string)
    | Arr(items: seq<Json>)
    | Obj(fields: map<string, Json>)

  /** Reading a field of something that may not be there or may not be an object. */
  function Field(value: Option<Json>, name: string): Option<Json> {
    if value.Some? && value.value.Obj? && name in value.value.fields
    then Some(value.value.fields[name]) else None
  }

  /** Objects and arrays alike; an array has no fields with a name. */
  function Record(value: Option<Json>): Option<Json> {
    if value.Some? && (value.value.Obj? || value.value.Arr?) then value else None
  }

  function OrElse<T>(first: Option<T>, second: Option<T>): Option<T> {
    if first.Some? then first else second
  }
}
