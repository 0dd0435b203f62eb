/** The values the JSON parser builds (json-parser/src/value.rs). A
    `HashMap<String, Value>` becomes a map; an `f64` is kept as the decimal
    text it was read from. */
module JsonValue {

  /** `Number`: a signed 64-bit integer, or a float given by its text. */
  datatype Number = I64(i: int) | F64(text: string)

  datatype Value =
    | String(s: string)
    | Number(n: Number)
    | Boolean(b: bool)
    | Array(items: seq<Value>)
    | Object(members: map<string, Value>)
    | Null
}
