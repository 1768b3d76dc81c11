/** The values the handlers exchange with the outside: JSON documents, `jsonify` responses,
    input files as the handler finds them, and the one artifact each handler writes. */
module Responses {
  import opened Wrappers
  import opened Paths

  /** A document as `json.load` returns it (numbers are modelled as integers). */
  datatype Json =
    | JNull
    | JBool(b: bool)
    | JNum(n: int)
    | JStr(s: string)
    | JArray(items: seq<Json>)
    | JObject(fields: map<string, Json>)

  /** A value of a response field. */
  datatype Value = Str(s: string) | Int(i: int)

  /** `jsonify(fields), status` */
  datatype Response = Response(status: nat, fields: map<string, Value>)

  /** `jsonify({"error": error}), status` */
  function ErrorResponse(status: nat, error: string): Response
  {
    Response(status, map["error" := Str(error)])
  }

  /** The response of every handler's `except Exception as e` clause. */
  function FailedResponse(details: string): Response
  {
    Response(400, map["error" := Str("Task execution failed."), "details" := Str(details)])
  }

  /** `jsonify({"message": message}), 200` */
  function MessageResponse(message: string): Response
  {
    Response(200, map["message" := Str(message)])
  }

  /** An input file as the handler finds it: absent (`os.path.exists` is false), present but
      raising when read or decoded (with the exception's text), or read. */
  datatype Input<T> = Missing | Unreadable(message: string) | Present(contents: T)

  /** What a handler writes into its output file. */
  datatype Content = Text(text: string) | JsonList(items: seq<Json>) | JsonIndex(index: map<string, string>)

  datatype Write = Write(path: Path, content: Content)

  /** The response of one handler call and the file it wrote, if any. */
  datatype Outcome = Outcome(response: Response, written: Option<Write>)

  /** The outcome of a handler that wrote nothing. */
  function Reply(r: Response): Outcome
  {
    Outcome(r, None)
  }
}
