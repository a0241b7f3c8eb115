/** JSON values.  The number type is a parameter: contracts compare numbers, so they use `real`;
    the text encoding only prints them, so it uses their printed form. */
module Json {
  datatype Json<+N> =
    | Null
    | Bool(b: bool)
    | Number(n: N)
    | String(s: string)
    | Array(items: seq<Json<N>>)
    | Object(fields: map<string, Json<N>>)
}
