/** The loosely typed values an HTTP request body can carry once it has been
    parsed as JSON. Numbers are mathematical reals: the source only compares
    them, so IEEE-754 rounding plays no part in the model. */
module JsonValue {

  datatype Json =
    | JNull
    | JBool(b: bool)
    | JNum(n: real)
    | JStr(s: string)
    | JArr(items: seq<Json>)
    | JObj(fields: map<string, Json>)
}
