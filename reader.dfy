/** `read_file` (app.py:28-40) and the `/read` endpoint (app.py:529-534): return the contents
    of a file of `DATA_DIR`. The file system is a parameter: what opening and reading the file
    at a path finds. */
module FileReader {
  import opened Wrappers
  import opened Paths
  import opened Responses

  /** `read_file(file_path)`: 404 with the resolved path when nothing is there, 500 with the
      exception's text when reading fails, else 200 with the contents. Only the file at
      `get_abs_path(file_path)` is consulted, and for a plain base name that is the file of that
      name directly inside `DATA_DIR`. */
  function ReadFile(dataDir: Path, filePath: string, files: Path -> Input<string>): (r: Response)
    ensures r.status == 200 || r.status == 404 || r.status == 500
    ensures r.status == 404 <==> files(GetAbsPath(dataDir, filePath)).Missing?
    ensures r.status == 500 <==> files(GetAbsPath(dataDir, filePath)).Unreadable?
    ensures r.status == 200 <==> files(GetAbsPath(dataDir, filePath)).Present?
    ensures r.status == 200 ==>
      "content" in r.fields && r.fields["content"] == Str(files(GetAbsPath(dataDir, filePath)).contents)
    ensures r.status == 500 ==>
      "details" in r.fields && r.fields["details"] == Str(files(GetAbsPath(dataDir, filePath)).message)
    ensures IsNormal(dataDir) && IsComponent(Basename(filePath)) ==>
      && (files(dataDir + [Basename(filePath)]).Missing? <==> r.status == 404)
      && (r.status == 404 ==> "path" in r.fields && r.fields["path"] == Str(Render(dataDir + [Basename(filePath)])))
  {
    var absPath := GetAbsPath(dataDir, filePath);
    if IsNormal(dataDir) then GetAbsPathConfined(dataDir, filePath); ReadResponse(absPath, files(absPath))
    else ReadResponse(absPath, files(absPath))
  }

  /** The response for what was found at the resolved path `absPath`. */
  function ReadResponse(absPath: Path, found: Input<string>): Response
  {
    match found
    case Missing => Response(404, map["error" := Str("File not found."), "path" := Str(Render(absPath))])
    case Unreadable(m) => Response(500, map["error" := Str("Internal Server Error"), "details" := Str(m)])
    case Present(content) => Response(200, map["content" := Str(content)])
  }

  /** Only the base name of the argument matters: `read_file("a/b/x")` is `read_file("x")`. */
  lemma {:induction false} ReadFileOfBasename(dataDir: Path, filePath: string, files: Path -> Input<string>)
    ensures ReadFile(dataDir, filePath, files) == ReadFile(dataDir, Basename(filePath), files)
  {
    BasenameSpec(filePath);
    BasenameOfPlain(Basename(filePath));
  }

  /** Whatever directories `filePath` names, a plain base name is looked up in `DATA_DIR` only:
      the answer depends on that one file and on nothing else in the file system. */
  lemma {:induction false} ReadFileLooksOnlyInDataDir(dataDir: Path, filePath: string, files1: Path -> Input<string>, files2: Path -> Input<string>)
    requires IsNormal(dataDir) && IsComponent(Basename(filePath))
    requires files1(dataDir + [Basename(filePath)]) == files2(dataDir + [Basename(filePath)])
    ensures ReadFile(dataDir, filePath, files1) == ReadFile(dataDir, filePath, files2)
  {
    GetAbsPathIsStep(dataDir, filePath);
  }

  /** `/read?path=...`: without a path, 400. */
  function ReadEndpoint(dataDir: Path, path: Option<string>, files: Path -> Input<string>): (r: Response)
    ensures (path.None? || path.value == []) <==> r == ErrorResponse(400, "Missing file path.")
    ensures path.Some? && path.value != [] ==> r == ReadFile(dataDir, path.value, files)
  {
    if path.None? || path.value == [] then ErrorResponse(400, "Missing file path.")
    else ReadFile(dataDir, path.value, files)
  }
}
