/** Task A6, `a6_docs` (app.py:147-179): index the first level-one heading of every Markdown
    file under `docs/`, by the file's path relative to `docs/`. */
module Docs {
  import opened Wrappers
  import opened Text
  import opened Paths
  import opened Responses

  /** A file as the handler reads it: its name, the lines that can be read, and the exception
      raised on reading past them (opening it or decoding the rest of it), if any. Lines are
      read lazily, so a failure after the heading is never seen. */
  datatype DocFile = DocFile(name: string, lines: seq<string>, failure: Option<string>)

  /** One triple `(root, _, files)` of `os.walk(docs_dir)`, its root given by its components
      below `docs_dir`. */
  datatype WalkStep = WalkStep(dir: seq<string>, files: seq<DocFile>)

  /** A file of the walk, with `os.path.relpath(os.path.join(root, file), docs_dir)`. */
  datatype Entry = Entry(path: string, file: DocFile)

  predicate IsMarkdownName(name: string)
  {
    EndsWith(name, ".md")
  }

  /** `line.strip().startswith("# ")` */
  predicate IsH1(line: string)
  {
    StartsWith(Strip(line), "# ")
  }

  /** `line.strip()[2:].strip()` */
  function Title(line: string): string
    requires IsH1(line)
  {
    Strip(Strip(line)[2..])
  }

  /** A line that starts with a character that is not whitespace loses only trailing
      whitespace to `strip()`. */
  lemma {:induction false} StripFromNonSpace(s: string)
    requires s != [] && !IsSpace(s[0])
    ensures |Strip(s)| <= |s| && Strip(s) == s[..|Strip(s)|]
    ensures forall i :: |Strip(s)| <= i < |s| ==> IsSpace(s[i])
  {
    assert TrimStart(s) == s;
    TrimEndSpec(s);
  }

  /** A line with no whitespace at either end is its own `strip()`. */
  lemma {:induction false} StripOfUnpadded(s: string)
    requires s != [] && !IsSpace(s[0]) && !IsSpace(s[|s| - 1])
    ensures Strip(s) == s
  {
    assert TrimStart(s) == s;
  }

  /** `##` and `#x` headings are not level-one headings, and neither is a lone `#`. */
  lemma {:induction false} NotH1(rest: string)
    ensures !IsH1("##" + rest)
    ensures rest == [] || rest[0] != ' ' ==> !IsH1("#" + rest)
  {
    var s := "##" + rest;
    StripFromNonSpace(s);
    assert !IsSpace(s[1]);
    assert |Strip(s)| >= 2 && Strip(s)[1] == '#';
    var t := "#" + rest;
    StripFromNonSpace(t);
    if |Strip(t)| >= 2 {
      assert Strip(t)[1] == rest[0];
    }
  }

  /** A recorded title is never empty: the stripped line ends in a character that is not
      whitespace, after the two characters of `# `. */
  lemma {:induction false} TitleNotEmpty(line: string)
    requires IsH1(line)
    ensures Title(line) != []
  {
    var s := Strip(line);
    StripIsTrimmedSlice(line);
    assert s[|s| - 1] != ' ' && |s| > 2;
    var rest := s[2..];
    StripIsTrimmedSlice(rest);
    assert !IsSpace(rest[|rest| - 1]);
  }

  /** The index of the first level-one heading among `lines`. */
  function FirstH1(lines: seq<string>): (r: Option<nat>)
    ensures r.Some? ==> r.value < |lines| && IsH1(lines[r.value])
    ensures r.Some? ==> forall i :: 0 <= i < r.value ==> !IsH1(lines[i])
    ensures r.None? <==> forall i :: 0 <= i < |lines| ==> !IsH1(lines[i])
  {
    if lines == [] then None
    else if IsH1(lines[0]) then Some(0)
    else
      match FirstH1(lines[1..])
      case None => None
      case Some(k) => Some(k + 1)
  }

  /** What reading one file yields: the title of its first level-one heading, no title, or the
      exception raised before a heading was found. */
  function TitleOf(f: DocFile): Result<Option<string>, string>
  {
    match FirstH1(f.lines)
    case Some(k) => Ok(Some(Title(f.lines[k])))
    case None => if f.failure.Some? then Err(f.failure.value) else Ok(None)
  }

  /** Of two headings only the first counts, and a file without one gives no title. */
  lemma FirstHeadingWins()
    ensures TitleOf(DocFile("a.md", ["intro text", "# Title One", "# Title Two"], None)) == Ok(Some("Title One"))
    ensures TitleOf(DocFile("b.md", ["no heading"], None)) == Ok(None)
  {
    var lines := ["intro text", "# Title One", "# Title Two"];
    StripOfUnpadded("intro text");
    StripOfUnpadded("# Title One");
    StripOfUnpadded("Title One");
    StripOfUnpadded("no heading");
    assert !IsH1(lines[0]);
    assert IsH1(lines[1]);
    assert FirstH1(lines) == Some(1);
    assert "# Title One"[2..] == "Title One";
    assert !IsH1("no heading");
  }

  /** The inner loop of app.py:166-170, with its `break`. */
  method ReadTitle(f: DocFile) returns (r: Result<Option<string>, string>)
    ensures r == TitleOf(f)
  {
    for i := 0 to |f.lines|
      invariant forall k :: 0 <= k < i ==> !IsH1(f.lines[k])
    {
      var line := Strip(f.lines[i]);
      if StartsWith(line, "# ") {
        assert FirstH1(f.lines) == Some(i);
        return Ok(Some(Strip(line[2..])));
      }
    }
    if f.failure.Some? {
      return Err(f.failure.value);
    }
    return Ok(None);
  }

  /** The Markdown files of one step of the walk, with their relative paths. */
  function StepEntries(dir: seq<string>, files: seq<DocFile>): seq<Entry>
  {
    if files == [] then []
    else
      var last := files[|files| - 1];
      StepEntries(dir, files[..|files| - 1])
        + (if IsMarkdownName(last.name) then [Entry(Join(dir + [last.name], '/'), last)] else [])
  }

  /** The Markdown files of the whole walk, in the order they are read. */
  function Entries(steps: seq<WalkStep>): seq<Entry>
  {
    if steps == [] then []
    else Entries(steps[..|steps| - 1]) + StepEntries(steps[|steps| - 1].dir, steps[|steps| - 1].files)
  }

  /** `e` is the entry of the file `f` of the directory `dir`: `f` is a Markdown file and `e`
      carries its path relative to `docs/` and the file itself. */
  predicate EntryOf(dir: seq<string>, f: DocFile, e: Entry)
  {
    IsMarkdownName(f.name) && e == Entry(Join(dir + [f.name], '/'), f)
  }

  /** The entries of one directory are exactly its Markdown files, each with its relative path. */
  lemma {:induction false} StepEntriesMembers(dir: seq<string>, files: seq<DocFile>, e: Entry)
    ensures e in StepEntries(dir, files) <==> exists k :: 0 <= k < |files| && EntryOf(dir, files[k], e)
    decreases |files|
  {
    if files != [] {
      var n := |files| - 1;
      var init, last := files[..n], files[n];
      StepEntriesMembers(dir, init, e);
      if e in StepEntries(dir, files) {
        if e in StepEntries(dir, init) {
          var k :| 0 <= k < |init| && EntryOf(dir, init[k], e);
          assert files[k] == init[k];
        } else {
          assert EntryOf(dir, files[n], e);
        }
      } else {
        forall k | 0 <= k < |files| ensures !EntryOf(dir, files[k], e) {
          if k < n {
            assert init[k] == files[k];
          }
        }
      }
    }
  }

  /** The entries of the walk are exactly the Markdown files of its directories, each with its
      path relative to `docs/`. */
  lemma {:induction false} EntriesMembers(steps: seq<WalkStep>, e: Entry)
    ensures e in Entries(steps) <==>
      exists s, k :: 0 <= s < |steps| && 0 <= k < |steps[s].files| && EntryOf(steps[s].dir, steps[s].files[k], e)
    decreases |steps|
  {
    if steps != [] {
      var n := |steps| - 1;
      var init, last := steps[..n], steps[n];
      EntriesMembers(init, e);
      StepEntriesMembers(last.dir, last.files, e);
      if e in Entries(steps) {
        if e in Entries(init) {
          var s, k :| 0 <= s < |init| && 0 <= k < |init[s].files| && EntryOf(init[s].dir, init[s].files[k], e);
          assert steps[s] == init[s];
        } else {
          var k :| 0 <= k < |last.files| && EntryOf(last.dir, last.files[k], e);
          assert EntryOf(steps[n].dir, steps[n].files[k], e);
        }
      } else {
        forall s, k | 0 <= s < |steps| && 0 <= k < |steps[s].files| ensures !EntryOf(steps[s].dir, steps[s].files[k], e) {
          if s < n {
            assert init[s] == steps[s];
          }
        }
      }
    }
  }

  /** The walk is read in order: the entries of consecutive parts of the walk follow each other. */
  lemma {:induction false} EntriesAppend(a: seq<WalkStep>, b: seq<WalkStep>)
    ensures Entries(a + b) == Entries(a) + Entries(b)
    decreases |b|
  {
    if b == [] {
      assert a + b == a;
    } else {
      var init, last := b[..|b| - 1], b[|b| - 1];
      EntriesAppend(a, init);
      assert (a + b)[..|a + b| - 1] == a + init;
      assert (a + b)[|a + b| - 1] == last;
    }
  }

  /** What reading one Markdown file contributes: its relative path and what reading it yields. */
  datatype Read = Read(path: string, title: Result<Option<string>, string>)

  /** The files of the walk as they are read. */
  function Reads(entries: seq<Entry>): (r: seq<Read>)
    ensures |r| == |entries|
    ensures forall i :: 0 <= i < |entries| ==> r[i] == Read(entries[i].path, TitleOf(entries[i].file))
  {
    if entries == [] then []
    else
      var last := entries[|entries| - 1];
      Reads(entries[..|entries| - 1]) + [Read(last.path, TitleOf(last.file))]
  }

  /** A read that found a title. */
  predicate HasTitle(r: Read)
  {
    r.title.Ok? && r.title.value.Some?
  }

  /** The `index` dictionary after the reads, in order, or the first exception. */
  function IndexOf(rs: seq<Read>): Result<map<string, string>, string>
  {
    if rs == [] then Ok(map[])
    else
      match IndexOf(rs[..|rs| - 1])
      case Err(e) => Err(e)
      case Ok(index) =>
        var last := rs[|rs| - 1];
        match last.title
        case Err(e) => Err(e)
        case Ok(None) => Ok(index)
        case Ok(Some(t)) => Ok(index[last.path := t])
  }

  /** The index fails exactly when reading some file fails before its heading. */
  lemma {:induction false} IndexFailsIffReadFails(rs: seq<Read>)
    ensures IndexOf(rs).Err? <==> exists i :: 0 <= i < |rs| && rs[i].title.Err?
  {
    if rs != [] {
      var init := rs[..|rs| - 1];
      IndexFailsIffReadFails(init);
      if exists i :: 0 <= i < |rs| && rs[i].title.Err? {
        var i :| 0 <= i < |rs| && rs[i].title.Err?;
        if i < |init| {
          assert init[i] == rs[i];
        }
      } else {
        forall i | 0 <= i < |init| ensures init[i].title.Ok? {
          assert init[i] == rs[i];
        }
      }
    }
  }

  /** A path is a key of the index exactly when one of its files has a heading. */
  lemma {:induction false} IndexKeys(rs: seq<Read>, path: string)
    requires IndexOf(rs).Ok?
    ensures path in IndexOf(rs).value <==> exists i :: 0 <= i < |rs| && rs[i].path == path && HasTitle(rs[i])
  {
    if rs != [] {
      var n := |rs| - 1;
      var init := rs[..n];
      IndexKeys(init, path);
      if exists i :: 0 <= i < |rs| && rs[i].path == path && HasTitle(rs[i]) {
        var i :| 0 <= i < |rs| && rs[i].path == path && HasTitle(rs[i]);
        if i < n {
          assert init[i] == rs[i];
        }
      } else {
        forall i | 0 <= i < n ensures !(init[i].path == path && HasTitle(init[i])) {
          assert init[i] == rs[i];
        }
      }
    }
  }

  /** The value of a key is the title of the last file with that path that has a heading. */
  lemma {:induction false} IndexValue(rs: seq<Read>, path: string)
    requires IndexOf(rs).Ok? && path in IndexOf(rs).value
    ensures exists i ::
      && 0 <= i < |rs| && rs[i].path == path
      && rs[i].title == Ok(Some(IndexOf(rs).value[path]))
      && forall j :: i < j < |rs| && rs[j].path == path ==> !HasTitle(rs[j])
  {
    var n := |rs| - 1;
    var init, last := rs[..n], rs[n];
    var index := IndexOf(rs).value;
    if last.path == path && HasTitle(last) {
      assert rs[n].title == Ok(Some(index[path]));
    } else {
      var before := IndexOf(init).value;
      IndexValue(init, path);
      var i :| 0 <= i < n && init[i].path == path && init[i].title == Ok(Some(before[path]))
        && forall j :: i < j < n && init[j].path == path ==> !HasTitle(init[j]);
      assert rs[i] == init[i];
      forall j | i < j < |rs| && rs[j].path == path ensures !HasTitle(rs[j]) {
        if j < n {
          assert rs[j] == init[j];
        }
      }
    }
  }

  lemma {:induction false} ReadsAppend(entries: seq<Entry>, e: Entry)
    ensures Reads(entries + [e]) == Reads(entries) + [Read(e.path, TitleOf(e.file))]
  {
    assert (entries + [e])[..|entries|] == entries;
  }

  /** Reading one more file whose reading yields `title`. */
  lemma {:induction false} IndexAfterOneMore(entries: seq<Entry>, e: Entry, title: Result<Option<string>, string>)
    requires title == TitleOf(e.file)
    ensures IndexOf(Reads(entries + [e])) ==
      match IndexOf(Reads(entries))
      case Err(m) => Err(m)
      case Ok(index) =>
        match title
        case Err(m) => Err(m)
        case Ok(None) => Ok(index)
        case Ok(Some(t)) => Ok(index[e.path := t])
  {
    ReadsAppend(entries, e);
    IndexOfAppend(Reads(entries), Read(e.path, title));
  }

  lemma {:induction false} IndexOfAppend(rs: seq<Read>, r: Read)
    ensures IndexOf(rs + [r]) ==
      match IndexOf(rs)
      case Err(m) => Err(m)
      case Ok(index) =>
        match r.title
        case Err(m) => Err(m)
        case Ok(None) => Ok(index)
        case Ok(Some(t)) => Ok(index[r.path := t])
  {
    assert (rs + [r])[..|rs|] == rs;
  }

  lemma {:induction false} ReadsConcat(a: seq<Entry>, b: seq<Entry>)
    ensures Reads(a + b) == Reads(a) + Reads(b)
  {
    var r, ra, rb := Reads(a + b), Reads(a), Reads(b);
    forall i | 0 <= i < |r| ensures r[i] == (ra + rb)[i] {
      if i < |a| {
        assert (a + b)[i] == a[i];
      } else {
        assert (a + b)[i] == b[i - |a|];
      }
    }
  }

  /** After a failure, the rest of the files change nothing. */
  lemma {:induction false} IndexKeepsFailure(rs: seq<Read>, more: seq<Read>)
    requires IndexOf(rs).Err?
    ensures IndexOf(rs + more) == IndexOf(rs)
    decreases |more|
  {
    if more == [] {
      assert rs + more == rs;
    } else {
      var init := more[..|more| - 1];
      IndexKeepsFailure(rs, init);
      assert (rs + more)[..|rs + more| - 1] == rs + init;
    }
  }

  lemma {:induction false} StepEntriesPrefix(dir: seq<string>, files: seq<DocFile>, f: nat)
    requires f <= |files|
    ensures StepEntries(dir, files[..f]) <= StepEntries(dir, files)
    decreases |files| - f
  {
    if f < |files| {
      StepEntriesPrefix(dir, files, f + 1);
      assert files[..f + 1][..f] == files[..f];
    } else {
      assert files[..f] == files;
    }
  }

  lemma {:induction false} EntriesPrefix(steps: seq<WalkStep>, k: nat)
    requires k <= |steps|
    ensures Entries(steps[..k]) <= Entries(steps)
    decreases |steps| - k
  {
    if k < |steps| {
      EntriesPrefix(steps, k + 1);
      assert steps[..k + 1][..k] == steps[..k];
    } else {
      assert steps[..k] == steps;
    }
  }

  /** Once reading `pre` fails, the files read after it change nothing. */
  lemma {:induction false} FailureIsFinal(pre: seq<Entry>, rest: seq<Entry>)
    requires IndexOf(Reads(pre)).Err?
    ensures IndexOf(Reads(pre + rest)) == IndexOf(Reads(pre))
  {
    ReadsConcat(pre, rest);
    IndexKeepsFailure(Reads(pre), Reads(rest));
  }

  /** The same for a prefix `pre` of `all`. */
  lemma {:induction false} FailureOfPrefix(pre: seq<Entry>, all: seq<Entry>)
    requires pre <= all && IndexOf(Reads(pre)).Err?
    ensures IndexOf(Reads(all)) == IndexOf(Reads(pre))
  {
    assert all == pre + all[|pre|..];
    FailureIsFinal(pre, all[|pre|..]);
  }

  /** Once reading the first `f` files of a directory fails, that failure is the outcome of
      the whole directory. */
  lemma {:induction false} StepFailure(pre: seq<Entry>, dir: seq<string>, files: seq<DocFile>, f: nat)
    requires f <= |files| && IndexOf(Reads(pre + StepEntries(dir, files[..f]))).Err?
    ensures IndexOf(Reads(pre + StepEntries(dir, files))) == IndexOf(Reads(pre + StepEntries(dir, files[..f])))
  {
    StepEntriesPrefix(dir, files, f);
    FailureAfterPre(pre, StepEntries(dir, files[..f]), StepEntries(dir, files));
  }

  /** A failure inside `part` is final for `whole`, after the same files `pre`. */
  lemma {:induction false} FailureAfterPre(pre: seq<Entry>, part: seq<Entry>, whole: seq<Entry>)
    requires part <= whole && IndexOf(Reads(pre + part)).Err?
    ensures IndexOf(Reads(pre + whole)) == IndexOf(Reads(pre + part))
  {
    PrefixAfterPre(pre, part, whole);
    FailureOfPrefix(pre + part, pre + whole);
  }

  lemma {:induction false} PrefixAfterPre<T>(pre: seq<T>, part: seq<T>, whole: seq<T>)
    requires part <= whole
    ensures pre + part <= pre + whole
  {
    assert (pre + whole)[..|pre + part|] == pre + part;
  }

  /** The index of the whole walk. */
  function Index(steps: seq<WalkStep>): Result<map<string, string>, string>
  {
    IndexOf(Reads(Entries(steps)))
  }

  /** The keys of the index of a walk are the relative paths of its Markdown files that have a
      level-one heading. */
  lemma {:induction false} IndexKeysOfWalk(steps: seq<WalkStep>, path: string)
    requires Index(steps).Ok?
    ensures path in Index(steps).value <==>
      exists e :: e in Entries(steps) && e.path == path && TitleOf(e.file).Ok? && TitleOf(e.file).value.Some?
  {
    var entries := Entries(steps);
    var rs := Reads(entries);
    IndexKeys(rs, path);
    if path in Index(steps).value {
      var i :| 0 <= i < |rs| && rs[i].path == path && HasTitle(rs[i]);
      assert entries[i] in entries;
    } else {
      forall e | e in entries && e.path == path ensures !(TitleOf(e.file).Ok? && TitleOf(e.file).value.Some?) {
        var i :| 0 <= i < |entries| && entries[i] == e;
        assert !HasTitle(rs[i]);
      }
    }
  }

  /** Reading one more file of a step. */
  lemma {:induction false} ReadOneMore(pre: seq<Entry>, dir: seq<string>, files: seq<DocFile>, f: nat)
    requires f < |files|
    ensures var e := Entry(Join(dir + [files[f].name], '/'), files[f]);
      pre + StepEntries(dir, files[..f + 1]) ==
        if IsMarkdownName(files[f].name) then pre + StepEntries(dir, files[..f]) + [e]
        else pre + StepEntries(dir, files[..f])
  {
    assert files[..f + 1][..f] == files[..f];
  }

  /** The inner loop of app.py:159-170 over the files of one directory, after the files `pre`
      have been read into `index`. */
  method IndexDirectory(ghost pre: seq<Entry>, dir: seq<string>, files: seq<DocFile>, index: map<string, string>)
    returns (r: Result<map<string, string>, string>)
    requires IndexOf(Reads(pre)) == Ok(index)
    ensures r == IndexOf(Reads(pre + StepEntries(dir, files)))
  {
    var current := index;
    assert pre + StepEntries(dir, files[..0]) == pre;
    for f := 0 to |files|
      invariant IndexOf(Reads(pre + StepEntries(dir, files[..f]))) == Ok(current)
    {
      var file := files[f];
      ghost var entries := pre + StepEntries(dir, files[..f]);
      ReadOneMore(pre, dir, files, f);
      if IsMarkdownName(file.name) {
        var path := Join(dir + [file.name], '/');
        var title := ReadTitle(file);
        IndexAfterOneMore(entries, Entry(path, file), title);
        match title {
          case Err(e) =>
            StepFailure(pre, dir, files, f + 1);
            return Err(e);
          case Ok(None) =>
          case Ok(Some(t)) =>
            current := current[path := t];
        }
      }
    }
    assert files[..|files|] == files;
    return Ok(current);
  }

  /** The outer loop of app.py:158, over the directories of the walk. */
  method BuildIndex(steps: seq<WalkStep>) returns (r: Result<map<string, string>, string>)
    ensures r == Index(steps)
  {
    var index: map<string, string> := map[];
    for s := 0 to |steps|
      invariant IndexOf(Reads(Entries(steps[..s]))) == Ok(index)
    {
      assert steps[..s + 1][..s] == steps[..s];
      var step := IndexDirectory(Entries(steps[..s]), steps[s].dir, steps[s].files, index);
      match step {
        case Err(e) =>
          EntriesPrefix(steps, s + 1);
          FailureOfPrefix(Entries(steps[..s + 1]), Entries(steps));
          return step;
        case Ok(m) =>
          index := m;
      }
    }
    assert steps[..|steps|] == steps;
    return Ok(index);
  }

  /** Where the index is written: `get_abs_path("docs/index.json")` keeps only the base name. */
  const IndexFile := "docs/index.json"

  /** What `a6_docs` answers and writes. */
  function ExtractHeadersOutcome(dataDir: Path, docs: Option<seq<WalkStep>>): Outcome
  {
    match docs
    case None => Reply(ErrorResponse(404, "Docs directory not found."))
    case Some(steps) =>
      match Index(steps)
      case Err(e) => Reply(FailedResponse(e))
      case Ok(m) => Outcome(MessageResponse("Task executed successfully."), Some(Write(dataDir + ["index.json"], JsonIndex(m))))
  }

  /** The handler writes `index.json` in `DATA_DIR` or nothing, and answers with 200, 400 or 404. */
  lemma {:induction false} ExtractHeadersOutcomeShape(dataDir: Path, docs: Option<seq<WalkStep>>)
    ensures var o := ExtractHeadersOutcome(dataDir, docs);
      && (o.written.Some? ==> o.written.value.path == dataDir + ["index.json"])
      && (o.response.status == 200 || o.response.status == 400 || o.response.status == 404)
  {
  }

  /** The whole handler: 404 without `docs/`, the exception's text with 400 when a read fails
      before a heading, else the index written and a fixed message returned. The index lands in
      `DATA_DIR` itself, not in `docs/`. */
  method ExtractHeadersTask(dataDir: Path, docs: Option<seq<WalkStep>>) returns (o: Outcome)
    requires IsNormal(dataDir)
    ensures o == ExtractHeadersOutcome(dataDir, docs)
    ensures docs.None? ==> o == Reply(ErrorResponse(404, "Docs directory not found."))
    ensures docs.Some? && Index(docs.value).Err? ==>
      o == Reply(FailedResponse(Index(docs.value).error))
    ensures docs.Some? && Index(docs.value).Ok? ==>
      o == Outcome(MessageResponse("Task executed successfully."),
        Some(Write(dataDir + ["index.json"], JsonIndex(Index(docs.value).value))))
  {
    match docs {
      case None =>
        return Reply(ErrorResponse(404, "Docs directory not found."));
      case Some(steps) =>
        var index := BuildIndex(steps);
        match index {
          case Err(e) =>
            return Reply(FailedResponse(e));
          case Ok(m) =>
            GetAbsPathFlattensDocsIndex(dataDir);
            var output := GetAbsPath(dataDir, IndexFile);
            o := Outcome(MessageResponse("Task executed successfully."), Some(Write(output, JsonIndex(m))));
        }
    }
  }
}
