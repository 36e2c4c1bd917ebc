/** JSON values as `JSON.parse` produces them, and the array spread
    (`[...v]`) the upload route applies to a parsed column. */
module Json {
  import opened Wrappers

  /** A parsed JSON value. Object members keep their textual order. */
  datatype Json =
    | JNull
    | JBool(b: bool)
    | JNum(n: real)
    | JStr(s: string)
    | JArr(items: seq<Json>)
    | JObj(members: seq<(string, Json)>)

  /** The elements `[...v]` yields: an array gives its items, a string its
      characters (each as a one-character string); any other value is not
      iterable and the spread throws, which is `None` here. */
  function Spread(v: Json): Option<seq<Json>> {
    match v
    case JArr(items) => Some(items)
    case JStr(s) => Some(seq(|s|, i requires 0 <= i < |s| => JStr([s[i]])))
    case _ => None
  }
}
