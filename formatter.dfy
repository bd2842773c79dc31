/** `formatJSON`: raw editor text to pretty-printed text or a diagnostic. */
module Formatter {
  import opened Json

  datatype FormatResult = FormatResult(formattedJSON: string, jsonError: string)

  const ErrorPrefix: string := "Invalid JSON: "

  /** Parse `content` and print it back; a parse failure is caught and reported, never thrown. */
  function FormatJSON(content: string, json: JsonLibrary): (r: FormatResult)
    ensures r.formattedJSON != "" <==> json.parse(content).Parsed?
    ensures r.jsonError != "" <==> json.parse(content).SyntaxError?
    ensures (r.formattedJSON == "") != (r.jsonError == "")
    ensures json.parse(content).Parsed? ==> r.formattedJSON == json.stringify(json.parse(content).value)
    ensures json.parse(content).SyntaxError? ==>
      ErrorPrefix <= r.jsonError && r.jsonError[|ErrorPrefix|..] == json.parse(content).message
  {
    match json.parse(content)
    case Parsed(v) => FormatResult(json.stringify(v), "")
    case SyntaxError(message) => FormatResult("", ErrorPrefix + message)
  }

  /** Empty text is not JSON: formatting it reports an error and no output. */
  lemma EmptyIsError(json: JsonHost)
    ensures FormatJSON("", json).formattedJSON == ""
    ensures FormatJSON("", json).jsonError == ErrorPrefix + json.parse("").message
  {
  }
}
