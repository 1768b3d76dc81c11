/** Task A5, `a5_logs` (app.py:112-143): the first line of each of the ten most recently
    modified `.log` files of `logs/`, newest first. */
module Logs {
  import opened Wrappers
  import opened Text
  import opened Paths
  import opened Responses
  import opened Sorting

  /** One entry of `os.listdir(logs_dir)`: its name, what `os.path.getmtime` returns for it or
      raises, and what `f.readline()` returns for it or what opening and reading it raises. */
  datatype LogFile = LogFile(name: string, mtime: Result<int, string>, firstLine: Result<string, string>)

  /** How many files are kept (app.py:125). */
  const MaxLogs := 10

  function Min(a: int, b: int): int
  {
    if a <= b then a else b
  }

  predicate IsLogName(name: string)
  {
    EndsWith(name, ".log")
  }

  /** `[f for f in os.listdir(logs_dir) if f.endswith(".log")]` */
  function LogFiles(files: seq<LogFile>): (logs: seq<LogFile>)
    ensures |logs| <= |files|
    ensures forall f :: f in logs <==> f in files && IsLogName(f.name)
  {
    if files == [] then []
    else
      var last := files[|files| - 1];
      LogFiles(files[..|files| - 1]) + (if IsLogName(last.name) then [last] else [])
  }

  /** The filter keeps the listing order: it distributes over concatenation. */
  lemma {:induction false} LogFilesAppend(a: seq<LogFile>, b: seq<LogFile>)
    ensures LogFiles(a + b) == LogFiles(a) + LogFiles(b)
    decreases |b|
  {
    if b == [] {
      assert a + b == a;
    } else {
      var init, last := b[..|b| - 1], b[|b| - 1];
      var kept := if IsLogName(last.name) then [last] else [];
      LogFilesAppend(a, init);
      assert (a + b)[..|a + b| - 1] == a + init;
      assert (a + b)[|a + b| - 1] == last;
      assert LogFiles(a + b) == LogFiles(a + init) + kept;
      assert LogFiles(b) == LogFiles(init) + kept;
    }
  }

  /** A single entry is kept exactly when its name ends in `.log`. */
  lemma {:induction false} LogFilesOne(f: LogFile)
    ensures LogFiles([f]) == if IsLogName(f.name) then [f] else []
  {
    assert [f][..0] == [];
  }

  /** The exception the sort key raises: `getmtime` is called on every file, in order, before
      any comparison. */
  function MtimeFailure(logs: seq<LogFile>): (r: Option<string>)
    ensures r.None? <==> forall i :: 0 <= i < |logs| ==> logs[i].mtime.Ok?
    ensures r.Some? ==> exists i ::
      && 0 <= i < |logs| && logs[i].mtime == Err(r.value)
      && forall j :: 0 <= j < i ==> logs[j].mtime.Ok?
  {
    if logs == [] then None
    else if logs[0].mtime.Err? then Some(logs[0].mtime.error)
    else
      var r := MtimeFailure(logs[1..]);
      assert forall i :: 0 <= i < |logs| - 1 ==> logs[1..][i] == logs[i + 1];
      if r.Some? then
        var i :| 0 <= i < |logs[1..]| && logs[1..][i].mtime == Err(r.value)
          && forall j :: 0 <= j < i ==> logs[1..][j].mtime.Ok?;
        assert logs[i + 1].mtime == Err(r.value);
        assert forall j :: 0 <= j < i + 1 ==> logs[j].mtime.Ok?;
        r
      else r
  }

  /** The sort key; it is only used once every `getmtime` has succeeded. */
  function Mtime(f: LogFile): int
  {
    if f.mtime.Ok? then f.mtime.value else 0
  }

  /** `reverse=True`: the sort puts a file first when its key is greater. */
  predicate Later(a: int, b: int)
  {
    a > b
  }

  /** The `.log` files, newest first (ties in listing order). */
  function ByRecency(logs: seq<LogFile>): seq<LogFile>
  {
    StableSort(logs, Mtime, Later)
  }

  /** `sorted(..., key=getmtime, reverse=True)[:10]` */
  function Recent(logs: seq<LogFile>): seq<LogFile>
  {
    var sorted := ByRecency(logs);
    sorted[..Min(MaxLogs, |sorted|)]
  }

  /** The line written for one file (app.py:133 and 135). */
  function LogLine(f: LogFile): (line: string)
    ensures StartsWith(line, f.name + ": ")
  {
    match f.firstLine
    case Ok(line) => f.name + ": " + Strip(line)
    case Err(e) => f.name + ": Error reading file (" + e + ")"
  }

  /** The lines written for the selected files, in the order of the selection. */
  function RecentLines(files: seq<LogFile>): seq<string>
  {
    var selected := Recent(LogFiles(files));
    seq(|selected|, i requires 0 <= i < |selected| => LogLine(selected[i]))
  }

  /** `reverse=True` is a strict total order on modification times. */
  lemma LaterIsStrictTotalOrder()
    ensures IsStrictTotalOrder(Later)
  {
  }

  /** The selection: `min(10, n)` of the `n` `.log` files, each of them listed, newest first,
      none of the files left out newer than one that was kept, and ties in listing order. */
  lemma {:induction false} RecentSelection(files: seq<LogFile>, t: int)
    ensures var logs := LogFiles(files);
      var sorted, selected := ByRecency(logs), Recent(logs);
      && multiset(sorted) == multiset(logs)
      && |selected| == Min(MaxLogs, |logs|)
      && selected == sorted[..|selected|]
      && (forall f :: f in selected ==> f in files && IsLogName(f.name))
      && (forall i, j :: 0 <= i < j < |selected| ==> Mtime(selected[i]) >= Mtime(selected[j]))
      && (forall i, j :: 0 <= i < |selected| <= j < |sorted| ==> Mtime(sorted[j]) <= Mtime(selected[i]))
      && WithKey(sorted, Mtime, t) == WithKey(logs, Mtime, t)
  {
    var logs := LogFiles(files);
    var sorted, selected := ByRecency(logs), Recent(logs);
    SortPermutes(logs, Mtime, Later);
    LaterIsStrictTotalOrder();
    SortSorted(logs, Mtime, Later);
    SortStable(logs, Mtime, Later, t);
    forall f | f in selected ensures f in files && IsLogName(f.name) {
      assert f in multiset(sorted);
    }
  }

  /** With twelve `.log` files, exactly ten are kept. */
  lemma {:induction false} TenOfTwelve(files: seq<LogFile>)
    requires |LogFiles(files)| == 12
    ensures |Recent(LogFiles(files))| == 10
  {
    SortPermutes(LogFiles(files), Mtime, Later);
  }

  /** The loop of app.py:127-135: one line per selected file, a failed read of one file
      becoming that file's line and nothing else. */
  method ExtractLines(selected: seq<LogFile>) returns (lines: seq<string>)
    ensures |lines| == |selected|
    ensures forall i :: 0 <= i < |selected| ==> lines[i] == LogLine(selected[i])
  {
    lines := [];
    for i := 0 to |selected|
      invariant |lines| == i
      invariant forall k :: 0 <= k < i ==> lines[k] == LogLine(selected[k])
    {
      match selected[i].firstLine {
        case Ok(line) =>
          lines := lines + [selected[i].name + ": " + Strip(line)];
        case Err(e) =>
          lines := lines + [selected[i].name + ": Error reading file (" + e + ")"];
      }
    }
  }

  /** `sorted(..., reverse=True)[:10]`, sorting the listed `.log` files in place. */
  method SelectRecent(logs: seq<LogFile>) returns (selected: seq<LogFile>)
    ensures selected == Recent(logs)
  {
    var a := new LogFile[|logs|](i requires 0 <= i < |logs| => logs[i]);
    assert a[..] == logs;
    SortInPlace(a, Mtime, Later);
    selected := a[..Min(MaxLogs, a.Length)];
  }

  /** The file the lines are written to, in `DATA_DIR`. */
  const RecentFile := "logs-recent.txt"

  lemma {:induction false} RecentFileInDataDir(dataDir: Path)
    requires IsNormal(dataDir)
    ensures IsComponent(RecentFile)
    ensures GetAbsPath(dataDir, RecentFile) == dataDir + [RecentFile]
  {
    GetAbsPathOfPlainName(dataDir, RecentFile);
  }

  /** What `a5_logs` answers and writes. */
  function ExtractRecentLogsOutcome(dataDir: Path, listing: Input<seq<LogFile>>): Outcome
  {
    match listing
    case Missing => Reply(ErrorResponse(404, "Log directory not found."))
    case Unreadable(m) => Reply(FailedResponse(m))
    case Present(files) =>
      match MtimeFailure(LogFiles(files))
      case Some(e) => Reply(FailedResponse(e))
      case None =>
        var lines := RecentLines(files);
        Outcome(
          Response(200, map["message" := Str("Recent log lines extracted successfully."), "log_count" := Int(|lines|)]),
          Some(Write(dataDir + [RecentFile], Text(Join(lines, '\n')))))
  }

  /** The handler writes `logs-recent.txt` in `DATA_DIR` or nothing, and answers with 200, 400 or 404. */
  lemma {:induction false} ExtractRecentLogsOutcomeShape(dataDir: Path, listing: Input<seq<LogFile>>)
    ensures var o := ExtractRecentLogsOutcome(dataDir, listing);
      && (o.written.Some? ==> o.written.value.path == dataDir + [RecentFile])
      && (o.response.status == 200 || o.response.status == 400 || o.response.status == 404)
  {
  }

  /** The whole handler: 404 without the directory, the exception's text with 400 when listing it
      or reading a modification time fails, else the lines joined by newlines written to
      `logs-recent.txt` and their number returned. */
  method ExtractRecentLogsTask(dataDir: Path, listing: Input<seq<LogFile>>) returns (o: Outcome)
    requires IsNormal(dataDir)
    ensures o == ExtractRecentLogsOutcome(dataDir, listing)
    ensures listing.Missing? ==> o == Reply(ErrorResponse(404, "Log directory not found."))
    ensures listing.Unreadable? ==> o == Reply(FailedResponse(listing.message))
    ensures listing.Present? && MtimeFailure(LogFiles(listing.contents)).Some? ==>
      o == Reply(FailedResponse(MtimeFailure(LogFiles(listing.contents)).value))
    ensures listing.Present? && MtimeFailure(LogFiles(listing.contents)).None? ==>
      var lines := RecentLines(listing.contents);
      && o.response == Response(200, map["message" := Str("Recent log lines extracted successfully."), "log_count" := Int(|lines|)])
      && o.written == Some(Write(dataDir + [RecentFile], Text(Join(lines, '\n'))))
  {
    match listing {
      case Missing =>
        return Reply(ErrorResponse(404, "Log directory not found."));
      case Unreadable(m) =>
        return Reply(FailedResponse(m));
      case Present(files) =>
        var logs := LogFiles(files);
        match MtimeFailure(logs) {
          case Some(e) =>
            return Reply(FailedResponse(e));
          case None =>
            var selected := SelectRecent(logs);
            var lines := ExtractLines(selected);
            assert lines == RecentLines(files);
            RecentFileInDataDir(dataDir);
            var output := GetAbsPath(dataDir, RecentFile);
            o := Outcome(
              Response(200, map["message" := Str("Recent log lines extracted successfully."), "log_count" := Int(|lines|)]),
              Some(Write(output, Text(Join(lines, '\n')))));
        }
    }
  }
}
