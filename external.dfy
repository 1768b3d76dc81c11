/** The tasks whose work is done outside the process: A2, `a2_format_markdown` (app.py:43-54),
    hands a file to Prettier through the shell, and A7, `a7_email` (app.py:183-233), asks a
    remote completion service. Only what the handlers decide around those calls is modelled;
    the process's exit status and the service's answer are parameters. */
module ExternalTasks {
  import opened Wrappers
  import opened Text
  import opened Paths
  import opened Responses

  /** `run_shell_command` (app.py:43-48) once the command has run: exit status 0 is success, any
      other status fails with the command's standard error. */
  function ShellResponse(returnCode: int, stderr: string): (r: Response)
    ensures r.status == 200 <==> returnCode == 0
    ensures returnCode == 0 ==> r == MessageResponse("Task executed successfully.")
    ensures returnCode != 0 ==> r == FailedResponse(stderr) && r.status == 400
  {
    if returnCode == 0 then MessageResponse("Task executed successfully.") else FailedResponse(stderr)
  }

  /** The command line of app.py:53, quoting the absolute path of `format.md`. */
  function PrettierCommand(dataDir: Path): string
  {
    "npx prettier@3.4.2 --write \"" + Render(GetAbsPath(dataDir, "format.md")) + "\""
  }

  /** The command names the file `format.md` directly under `DATA_DIR`. */
  lemma {:induction false} PrettierFormatsDataFile(dataDir: Path)
    requires IsNormal(dataDir)
    ensures PrettierCommand(dataDir) == "npx prettier@3.4.2 --write \"" + Render(dataDir + ["format.md"]) + "\""
  {
    GetAbsPathOfPlainName(dataDir, "format.md");
  }

  /** The reply when the service gave nothing (app.py:223-224). */
  const ExtractionFailed := "Extraction failed."

  /** `.strip()` of the completion, replaced by the sentinel when nothing is left. */
  function SenderText(content: string): (sender: string)
    ensures sender != []
    ensures Strip(content) != [] ==> sender == Strip(content)
    ensures Strip(content) == [] ==> sender == ExtractionFailed
  {
    var stripped := Strip(content);
    if stripped == [] then ExtractionFailed else stripped
  }

  /** The file the address is written to, in `DATA_DIR`. */
  const SenderFile := "email-sender.txt"

  lemma {:induction false} SenderFileInDataDir(dataDir: Path)
    requires IsNormal(dataDir)
    ensures IsComponent(SenderFile)
    ensures GetAbsPath(dataDir, SenderFile) == dataDir + [SenderFile]
  {
    GetAbsPathOfPlainName(dataDir, SenderFile);
  }

  /** What `a7_email` answers and writes. */
  function EmailSenderOutcome(dataDir: Path, email: Input<string>, token: Option<string>, completion: Result<string, string>): Outcome
  {
    match email
    case Missing => Reply(ErrorResponse(404, "File not found."))
    case Unreadable(m) => Reply(FailedResponse(m))
    case Present(_) =>
      if token.None? || token.value == "" then Reply(ErrorResponse(400, "AI Proxy token is missing."))
      else
        match completion
        case Err(m) => Reply(FailedResponse(m))
        case Ok(content) =>
          Outcome(MessageResponse("Task executed successfully."), Some(Write(dataDir + [SenderFile], Text(SenderText(content)))))
  }

  /** The handler writes `email-sender.txt` in `DATA_DIR` or nothing, and answers with 200, 400 or 404. */
  lemma {:induction false} EmailSenderOutcomeShape(dataDir: Path, email: Input<string>, token: Option<string>, completion: Result<string, string>)
    ensures var o := EmailSenderOutcome(dataDir, email, token, completion);
      && (o.written.Some? ==> o.written.value.path == dataDir + [SenderFile])
      && (o.response.status == 200 || o.response.status == 400 || o.response.status == 404)
  {
  }

  /** The whole of `a7_email`. `token` is `AIPROXY_TOKEN`; `completion` is the content the
      service returned (`""` when the answer has none) or the exception raised on the way. The
      email is read before the token is checked, so a missing file wins over a missing token. */
  method EmailSenderTask(dataDir: Path, email: Input<string>, token: Option<string>, completion: Result<string, string>)
    returns (o: Outcome)
    requires IsNormal(dataDir)
    ensures o == EmailSenderOutcome(dataDir, email, token, completion)
    ensures email.Missing? ==> o == Reply(ErrorResponse(404, "File not found."))
    ensures email.Unreadable? ==> o == Reply(FailedResponse(email.message))
    ensures email.Present? && (token.None? || token.value == "") ==>
      o == Reply(ErrorResponse(400, "AI Proxy token is missing."))
    ensures email.Present? && token.Some? && token.value != "" && completion.Err? ==>
      o == Reply(FailedResponse(completion.error))
    ensures email.Present? && token.Some? && token.value != "" && completion.Ok? ==>
      o == Outcome(MessageResponse("Task executed successfully."),
        Some(Write(dataDir + [SenderFile], Text(SenderText(completion.value)))))
  {
    match email {
      case Missing =>
        return Reply(ErrorResponse(404, "File not found."));
      case Unreadable(m) =>
        return Reply(FailedResponse(m));
      case Present(_) =>
        if token.None? || token.value == "" {
          return Reply(ErrorResponse(400, "AI Proxy token is missing."));
        }
        match completion {
          case Err(m) =>
            return Reply(FailedResponse(m));
          case Ok(content) =>
            var sender := Strip(content);
            if sender == [] {
              sender := ExtractionFailed;
            }
            SenderFileInDataDir(dataDir);
            var output := GetAbsPath(dataDir, SenderFile);
            o := Outcome(MessageResponse("Task executed successfully."), Some(Write(output, Text(sender))));
        }
    }
  }
}
