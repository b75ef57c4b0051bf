/** JSON values as JavaScript code sees them after parsing; strings are sequences of code units. */
module JsonValues {
  import opened Collections

  datatype Json =
    | Null
    | Bool(flag: bool)
    | Integer(number: int)
    | Fraction(digits: string)
    | Text(text: string)
    | Array(items: seq<Json>)
    | Object(fields: map<string, Json>)

  /** `object(value)?.[name]`: undefined for a missing field or anything but an object. */
  function Field(v: Json, name: string): Option<Json> {
    if v.Object? && name in v.fields then Some(v.fields[name]) else None
  }

  /** `string(value)`: a string that is not empty. */
  function NonEmpty(v: Option<Json>): Option<string> {
    if v.Some? && v.value.Text? && v.value.text != "" then Some(v.value.text) else None
  }

  function Items(v: Option<Json>): seq<Json> {
    if v.Some? && v.value.Array? then v.value.items else []
  }
}
