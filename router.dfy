/** The task registry `TASKS` (app.py:504-513) and the `/run` endpoint `run_task`
    (app.py:516-526): normalise the task name, look it up, and run the handler found. */
module Router {
  import opened Wrappers
  import opened Text
  import opened Paths
  import opened Responses
  import Dates
  import Contacts
  import Logs
  import Docs
  import Tickets
  import ExternalTasks

  /** The handlers of the registry. */
  datatype TaskKind =
    | FormatWithPrettier
    | CountWednesdays
    | SortContacts
    | ExtractRecentLogs
    | ExtractMarkdownHeaders
    | ExtractEmailSender
    | CalculateGoldTicketSales

  /** `TASKS` */
  const Tasks: map<string, TaskKind> := map[
    "format_with_prettier" := FormatWithPrettier,
    "count_wednesdays" := CountWednesdays,
    "sort_contacts" := SortContacts,
    "extract_recent_logs" := ExtractRecentLogs,
    "extract_markdown_headers" := ExtractMarkdownHeaders,
    "extract_email_sender" := ExtractEmailSender,
    "calculate_gold_ticket_sales" := CalculateGoldTicketSales
  ]

  /** `task_name.lower().replace(" ", "_")` */
  function NormalizeTaskName(name: string): (key: string)
    ensures |key| == |name|
    ensures forall i :: 0 <= i < |key| ==> key[i] != ' ' && !('A' <= key[i] <= 'Z')
    ensures forall i :: 0 <= i < |key| ==> name[i] == ' ' ==> key[i] == '_'
    ensures forall i :: 0 <= i < |key| ==> name[i] != ' ' ==> key[i] == LowerChar(name[i])
  {
    ReplaceChar(Lower(name), ' ', '_')
  }

  /** Normalising a normalised name changes nothing. */
  lemma {:induction false} NormalizeIdempotent(name: string)
    ensures NormalizeTaskName(NormalizeTaskName(name)) == NormalizeTaskName(name)
  {
    var key := NormalizeTaskName(name);
    assert forall i :: 0 <= i < |key| ==> LowerChar(key[i]) == key[i];
  }

  /** A name that is already lower case without spaces is its own key. */
  lemma {:induction false} NormalizeKeepsKeys(name: string)
    requires forall i :: 0 <= i < |name| ==> name[i] != ' ' && !('A' <= name[i] <= 'Z')
    ensures NormalizeTaskName(name) == name
  {
  }

  /** What `run_task` decides before running anything: reject the request, or run a handler. */
  datatype Dispatch = Rejected(response: Response) | Dispatched(kind: TaskKind)

  /** app.py:518-526: a missing or empty name and a name that is not registered are two
      different 400 errors; any other name runs the handler registered under its key. */
  function Route(task: Option<string>): (d: Dispatch)
    ensures (task.None? || task.value == []) ==> d == Rejected(ErrorResponse(400, "Missing task description."))
    ensures task.Some? && task.value != [] && NormalizeTaskName(task.value) !in Tasks ==>
      d == Rejected(ErrorResponse(400, "Invalid task description."))
    ensures d.Dispatched? <==> task.Some? && NormalizeTaskName(task.value) in Tasks
    ensures d.Dispatched? ==> d.kind == Tasks[NormalizeTaskName(task.value)]
  {
    if task.None? || task.value == [] then Rejected(ErrorResponse(400, "Missing task description."))
    else
      var key := NormalizeTaskName(task.value);
      if key in Tasks then Dispatched(Tasks[key]) else Rejected(ErrorResponse(400, "Invalid task description."))
  }

  /** Every registered key is reachable: the key itself, as a task name, runs its handler. */
  lemma {:induction false} RegisteredKeysDispatch(key: string)
    requires key in Tasks
    ensures Route(Some(key)) == Dispatched(Tasks[key])
  {
    RegisteredKeysAreNormal();
  }

  /** The registered keys are already in key form. */
  lemma RegisteredKeysAreNormal()
    ensures NormalizeTaskName("format_with_prettier") == "format_with_prettier"
    ensures NormalizeTaskName("count_wednesdays") == "count_wednesdays"
    ensures NormalizeTaskName("sort_contacts") == "sort_contacts"
    ensures NormalizeTaskName("extract_recent_logs") == "extract_recent_logs"
    ensures NormalizeTaskName("extract_markdown_headers") == "extract_markdown_headers"
    ensures NormalizeTaskName("extract_email_sender") == "extract_email_sender"
    ensures NormalizeTaskName("calculate_gold_ticket_sales") == "calculate_gold_ticket_sales"
  {
    KeyIsNormal("format_with_prettier");
    KeyIsNormal("count_wednesdays");
    KeyIsNormal("sort_contacts");
    KeyIsNormal("extract_recent_logs");
    KeyIsNormal("extract_markdown_headers");
    KeyIsNormal("extract_email_sender");
    KeyIsNormal("calculate_gold_ticket_sales");
  }

  /** A key without spaces or upper-case letters normalises to itself. */
  lemma {:induction false} KeyIsNormal(key: string)
    requires forall i :: 0 <= i < |key| ==> key[i] == '_' || 'a' <= key[i] <= 'z'
    ensures NormalizeTaskName(key) == key
  {
    NormalizeKeepsKeys(key);
  }

  /** Two names with the same key are routed alike: case and spaces versus underscores do not
      matter. */
  lemma {:induction false} RouteDependsOnKeyOnly(a: string, b: string)
    requires a != [] && b != [] && NormalizeTaskName(a) == NormalizeTaskName(b)
    ensures Route(Some(a)) == Route(Some(b))
  {
  }

  /** "Count Wednesdays" runs the Wednesday counter; "count-wednesdays" is unknown. */
  lemma RouteExamples()
    ensures Route(Some("Count Wednesdays")) == Dispatched(CountWednesdays)
    ensures Route(Some("count-wednesdays")) == Rejected(ErrorResponse(400, "Invalid task description."))
  {
    assert NormalizeTaskName("Count Wednesdays") == "count_wednesdays";
    assert NormalizeTaskName("count-wednesdays") == "count-wednesdays";
  }

  /** What the handlers find outside the process: their input files, the parser, Prettier's exit
      status and standard error, the token, and the completion service's answer. */
  datatype TaskInputs = TaskInputs(
    prettierExit: int,
    prettierStderr: string,
    dates: Input<seq<string>>,
    parse: string -> Dates.ParseOutcome,
    contacts: Input<Json>,
    logs: Input<seq<Logs.LogFile>>,
    docs: Option<seq<Docs.WalkStep>>,
    email: Input<string>,
    token: Option<string>,
    completion: Result<string, string>,
    tickets: Input<seq<Tickets.Ticket>>)

  /** A file directly inside `dir`. */
  predicate DirectlyIn(p: Path, dir: Path)
  {
    |p| == |dir| + 1 && p[..|dir|] == dir && IsComponent(p[|dir|])
  }

  lemma {:induction false} FileDirectlyIn(dir: Path, name: string)
    requires IsComponent(name)
    ensures DirectlyIn(dir + [name], dir)
  {
    assert (dir + [name])[..|dir|] == dir;
  }

  /** What the handler registered for `kind` answers and writes. */
  function HandlerOutcome(dataDir: Path, kind: TaskKind, inputs: TaskInputs): Outcome
  {
    match kind
    case FormatWithPrettier => Reply(ExternalTasks.ShellResponse(inputs.prettierExit, inputs.prettierStderr))
    case CountWednesdays => Dates.CountWednesdaysOutcome(dataDir, inputs.dates, inputs.parse)
    case SortContacts => Contacts.SortContactsOutcome(dataDir, inputs.contacts)
    case ExtractRecentLogs => Logs.ExtractRecentLogsOutcome(dataDir, inputs.logs)
    case ExtractMarkdownHeaders => Docs.ExtractHeadersOutcome(dataDir, inputs.docs)
    case ExtractEmailSender => ExternalTasks.EmailSenderOutcome(dataDir, inputs.email, inputs.token, inputs.completion)
    case CalculateGoldTicketSales => Tickets.GoldTicketSalesOutcome(dataDir, inputs.tickets)
  }

  /** Whatever handler runs, the one file it writes is directly inside `DATA_DIR`, and it
      answers with 200, 400 or 404. */
  lemma {:induction false} HandlerOutcomeStaysInDataDir(dataDir: Path, kind: TaskKind, inputs: TaskInputs)
    requires IsNormal(dataDir)
    ensures var o := HandlerOutcome(dataDir, kind, inputs);
      && (o.written.Some? ==> DirectlyIn(o.written.value.path, dataDir))
      && (o.response.status == 200 || o.response.status == 400 || o.response.status == 404)
  {
    match kind {
      case FormatWithPrettier =>
      case CountWednesdays =>
        Dates.CountWednesdaysOutcomeShape(dataDir, inputs.dates, inputs.parse);
        Dates.WednesdaysFileInDataDir(dataDir);
        FileDirectlyIn(dataDir, Dates.WednesdaysFile);
      case SortContacts =>
        Contacts.SortContactsOutcomeShape(dataDir, inputs.contacts);
        Contacts.SortedFileInDataDir(dataDir);
        FileDirectlyIn(dataDir, Contacts.SortedFile);
      case ExtractRecentLogs =>
        Logs.ExtractRecentLogsOutcomeShape(dataDir, inputs.logs);
        Logs.RecentFileInDataDir(dataDir);
        FileDirectlyIn(dataDir, Logs.RecentFile);
      case ExtractMarkdownHeaders =>
        Docs.ExtractHeadersOutcomeShape(dataDir, inputs.docs);
        FileDirectlyIn(dataDir, "index.json");
      case ExtractEmailSender =>
        ExternalTasks.EmailSenderOutcomeShape(dataDir, inputs.email, inputs.token, inputs.completion);
        ExternalTasks.SenderFileInDataDir(dataDir);
        FileDirectlyIn(dataDir, ExternalTasks.SenderFile);
      case CalculateGoldTicketSales =>
        Tickets.GoldTicketSalesOutcomeShape(dataDir, inputs.tickets);
        Tickets.GoldFileInDataDir(dataDir);
        FileDirectlyIn(dataDir, Tickets.GoldFile);
    }
  }

  /** `run_task`: reject, or run the handler registered under the key and return its outcome. */
  method RunTask(dataDir: Path, task: Option<string>, inputs: TaskInputs) returns (o: Outcome)
    requires IsNormal(dataDir)
    ensures Route(task).Rejected? ==> o == Reply(Route(task).response)
    ensures Route(task).Dispatched? ==> o == HandlerOutcome(dataDir, Route(task).kind, inputs)
    ensures o.written.Some? ==> DirectlyIn(o.written.value.path, dataDir)
    ensures o.response.status == 200 || o.response.status == 400 || o.response.status == 404
  {
    match Route(task) {
      case Rejected(response) =>
        return Reply(response);
      case Dispatched(kind) =>
        o := RunHandler(dataDir, kind, inputs);
    }
  }

  /** The handler registered for `kind`, run on what it finds. */
  method RunHandler(dataDir: Path, kind: TaskKind, inputs: TaskInputs) returns (o: Outcome)
    requires IsNormal(dataDir)
    ensures o == HandlerOutcome(dataDir, kind, inputs)
    ensures o.written.Some? ==> DirectlyIn(o.written.value.path, dataDir)
    ensures o.response.status == 200 || o.response.status == 400 || o.response.status == 404
  {
    match kind {
      case FormatWithPrettier =>
        o := Reply(ExternalTasks.ShellResponse(inputs.prettierExit, inputs.prettierStderr));
      case CountWednesdays =>
        o := Dates.CountWednesdaysTask(dataDir, inputs.dates, inputs.parse);
      case SortContacts =>
        o := Contacts.SortContactsTask(dataDir, inputs.contacts);
      case ExtractRecentLogs =>
        o := Logs.ExtractRecentLogsTask(dataDir, inputs.logs);
      case ExtractMarkdownHeaders =>
        o := Docs.ExtractHeadersTask(dataDir, inputs.docs);
      case ExtractEmailSender =>
        o := ExternalTasks.EmailSenderTask(dataDir, inputs.email, inputs.token, inputs.completion);
      case CalculateGoldTicketSales =>
        o := Tickets.GoldTicketSalesTask(dataDir, inputs.tickets);
    }
    HandlerOutcomeStaysInDataDir(dataDir, kind, inputs);
  }
}
