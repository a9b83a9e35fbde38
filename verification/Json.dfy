/** Decoded JSON. Numbers keep their text, as with `UseNumber`. */
module Json {
  datatype Json =
    | Null
    | Bool(value: bool)
    | Number(digits: string)
    | String(text: string)
    | Array(items: seq<Json>)
    | Object(fields: map<string, Json>)
}
