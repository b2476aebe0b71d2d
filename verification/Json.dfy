/** JSON values as the Python code sees them after `json.loads`: an integer, a
    boolean and a fraction are three different things to an `isinstance` test. */
module Json {

  datatype Value =
    | Null
    | Bool(flag: bool)
    | Int(number: int)
    | Fraction(quotient: real)
    | Str(text: string)
    | Arr(items: seq<Value>)
    | Obj(fields: map<string, Value>)
}
