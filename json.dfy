/** JSON values and the host's `JSON` object, which the formatter calls but does not implement.
    `JSON.parse` and `JSON.stringify(_, null, 2)` are taken as given functions. */
module Json {
  /** What `JSON.stringify` returns for a parsed value: never the empty string. */
  type Serialised = s: string | s != [] witness "null"

  /** A parsed JSON value. An object's members are listed in `Object.entries` order. */
  datatype Value =
    | Null
    | Bool(b: bool)
    | Num(n: real)
    | Str(s: string)
    | Arr(items: seq<Value>)
    | Obj(members: seq<(string, Value)>)

  /** The outcome of `JSON.parse`: a value, or the message of the `SyntaxError` it throws. */
  datatype Parsed = Parsed(value: Value) | SyntaxError(message: string)

  datatype JsonLibrary = JsonLibrary(parse: string -> Parsed, stringify: Value -> Serialised)

  /** The host `JSON` object the components run against. Whatever else its parser does, it
      rejects the empty text: a JSON text is one value, and no value is empty (section 2 of
      RFC 8259). */
  type JsonHost = j: JsonLibrary | j.parse("").SyntaxError?
    witness JsonLibrary((s: string) => SyntaxError("Unexpected end of JSON input"), (v: Value) => "null")

  /** `typeof v === 'object' && v !== null`. */
  predicate IsContainer(v: Value) {
    v.Arr? || v.Obj?
  }
}
