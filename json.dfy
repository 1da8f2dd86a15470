/**
 * Decoded JSON, as Go's decoder yields it into an `any` field when the
 * decoder is told to keep numbers as `json.Number`: a number keeps its text,
 * so `1` and `1.0` stay distinguishable. An absent member and an explicit
 * `null` both decode to Go's nil, written `Null` here.
 */
module Json {

  datatype Json =
    | Null
    | Bool(b: bool)
    | Number(text: string)
    | String(s: string)
    | Array(elems: seq<Json>)
    | Object(fields: map<string, Json>)

  /** One byte of the input stream. */
  newtype byte = x: int | 0 <= x < 256
}
