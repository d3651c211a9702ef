/**
 * An abstract JSON value, standing for an `nlohmann::json` document once it
 * has been parsed. Object members are keyed by name (nlohmann keeps them in a
 * `std::map`, so their order carries no meaning); numbers are reduced to
 * integers, which is all the notebook ever needs to tell apart from strings.
 */
module JsonData {
  datatype Json =
    | Null
    | Bool(b: bool)
    | Number(n: int)
    | Str(s: string)
    | Array(items: seq<Json>)
    | Object(fields: map<string, Json>)
}
