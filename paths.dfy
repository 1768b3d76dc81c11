/** Path confinement: `get_abs_path` and `secure_path` (app.py:19-25, 310-316), over a model of
    POSIX `os.path` in which an absolute path is the sequence of its components. */
module Paths {
  import opened Wrappers
  import opened Text

  /** A normalised absolute path, as its components; the root directory `/` is `[]`. */
  type Path = seq<string>

  /** A component that `normpath` keeps as it is. */
  predicate IsComponent(c: string)
  {
    c != "" && c != "." && c != ".." && '/' !in c
  }

  /** What `os.path.normpath` produces for an absolute path: no empty, `.` or `..` component. */
  predicate IsNormal(p: Path)
  {
    forall i :: 0 <= i < |p| ==> IsComponent(p[i])
  }

  predicate IsAbs(s: string)
  {
    StartsWith(s, "/")
  }

  /** `os.path.basename(s)`: everything after the last `/` (all of `s` when it has none). */
  function Basename(s: string): string
  {
    if s == [] || s[|s| - 1] == '/' then [] else Basename(s[..|s| - 1]) + [s[|s| - 1]]
  }

  /** `os.path.join(a, b)` for two arguments. */
  function PyJoin(a: string, b: string): (r: string)
    ensures IsAbs(a) ==> IsAbs(r)
  {
    if IsAbs(b) then b
    else if a == [] || a[|a| - 1] == '/' then a + b
    else a + "/" + b
  }

  function Parent(p: Path): Path
  {
    if p == [] then [] else p[..|p| - 1]
  }

  /** How `normpath` treats one component of an absolute path. */
  function Step(p: Path, c: string): Path
  {
    if c == "" || c == "." then p
    else if c == ".." then Parent(p)
    else p + [c]
  }

  /** `normpath` applied to the components `comps` under the absolute directory `base`. */
  function Resolve(base: Path, comps: seq<string>): Path
    decreases |comps|
  {
    if comps == [] then base else Resolve(Step(base, comps[0]), comps[1..])
  }

  /** `os.path.normpath(s)` for an absolute path string: never an empty, `.` or `..` component. */
  function NormAbs(s: string): (p: Path)
    requires IsAbs(s)
    ensures IsNormal(p)
  {
    var comps := Split(s, '/');
    ResolveKeepsNormal([], comps);
    Resolve([], comps)
  }

  /** Resolving `/`-free components from a normal path gives a normal path. */
  lemma {:induction false} ResolveKeepsNormal(base: Path, comps: seq<string>)
    requires IsNormal(base)
    requires forall i :: 0 <= i < |comps| ==> '/' !in comps[i]
    ensures IsNormal(Resolve(base, comps))
    decreases |comps|
  {
    if comps != [] {
      var next := Step(base, comps[0]);
      assert IsNormal(next) by {
        if comps[0] == ".." && base != [] {
          assert forall i :: 0 <= i < |next| ==> next[i] == base[i];
        }
      }
      assert forall i :: 0 <= i < |comps| - 1 ==> comps[1..][i] == comps[i + 1];
      ResolveKeepsNormal(next, comps[1..]);
    }
  }

  /** The string `normpath` writes for a path. */
  function Render(p: Path): (s: string)
    ensures IsAbs(s)
  {
    "/" + Join(p, '/')
  }

  /** `os.path.abspath(s)` in a process whose working directory is `cwd`. */
  function Abspath(cwd: Path, s: string): (p: Path)
    ensures IsNormal(p)
  {
    if IsAbs(s) then NormAbs(s) else NormAbs(PyJoin(Render(cwd), s))
  }

  /** `get_abs_path(filename)`: `abspath(join(DATA_DIR, basename(filename)))`; the joined
      string is already absolute, so `abspath` is `normpath` on it. */
  function GetAbsPath(dataDir: Path, filename: string): (p: Path)
    ensures IsNormal(p)
  {
    NormAbs(PyJoin(Render(dataDir), Basename(filename)))
  }

  /** The message of the `PermissionError` that `secure_path` raises. */
  const OutsideDataDir := "Access to files outside /data is not allowed."

  /** A string that begins with exactly two slashes: POSIX leaves the meaning of such a path to
      the system, and `normpath` keeps both slashes (three or more become one). */
  predicate KeepsDoubleSlash(s: string)
  {
    |s| >= 2 && s[0] == '/' && s[1] == '/' && (|s| == 2 || s[2] != '/')
  }

  /** The string `os.path.abspath(s)` returns: the rendered path, with the second leading slash
      that `normpath` keeps. */
  function AbspathString(cwd: Path, s: string): (r: string)
    ensures IsAbs(r)
    ensures KeepsDoubleSlash(s) <==> |r| >= 2 && r[1] == '/'
    ensures r == Render(Abspath(cwd, s)) || r == "/" + Render(Abspath(cwd, s))
  {
    RenderSingleSlash(Abspath(cwd, s));
    if KeepsDoubleSlash(s) then "/" + Render(Abspath(cwd, s)) else Render(Abspath(cwd, s))
  }

  /** The rendering of a normal path never begins with two slashes. */
  lemma {:induction false} RenderSingleSlash(p: Path)
    requires IsNormal(p)
    ensures |Render(p)| < 2 || Render(p)[1] != '/'
  {
    if p != [] {
      assert IsComponent(p[0]);
      assert Join(p, '/')[0] == p[0][0];
    }
  }

  /** `secure_path(file_path)`: `abspath(file_path)` if that string starts with `abspath(DATA_DIR)`,
      else the `PermissionError`. */
  function SecurePath(cwd: Path, dataDir: Path, filePath: string): Result<string, string>
  {
    var absPath := AbspathString(cwd, filePath);
    if StartsWith(absPath, AbspathString(cwd, Render(dataDir))) then Ok(absPath) else Err(OutsideDataDir)
  }

  // ---------------------------------------------------------------------------------------------
  // normpath

  lemma {:induction false} ResolveNormal(base: Path, comps: seq<string>)
    requires IsNormal(comps)
    ensures Resolve(base, comps) == base + comps
    decreases |comps|
  {
    if comps != [] {
      ResolveNormal(base + [comps[0]], comps[1..]);
      assert base + [comps[0]] + comps[1..] == base + comps;
    }
  }

  lemma {:induction false} ResolveAppend(base: Path, comps: seq<string>, c: string)
    ensures Resolve(base, comps + [c]) == Step(Resolve(base, comps), c)
    decreases |comps|
  {
    if comps != [] {
      assert (comps + [c])[1..] == comps[1..] + [c];
      ResolveAppend(Step(base, comps[0]), comps[1..], c);
    }
  }

  /** `normpath` gives back a normal path from the string it renders it as. */
  lemma {:induction false} NormAbsRender(p: Path)
    requires IsNormal(p)
    ensures NormAbs(Render(p)) == p
  {
    var s := Render(p);
    assert s[0] == '/' && s[1..] == Join(p, '/');
    assert Split(s, '/') == [[]] + Split(Join(p, '/'), '/');
    if p == [] {
      assert Split([], '/') == [[]];
      assert Resolve([], [[], []]) == Resolve([], [[]]) == [];
    } else {
      SplitJoin(p, '/');
      assert Split(s, '/') == [[]] + p;
      ResolveNormal([], p);
    }
  }

  /** `abspath` of an absolute normal path string is that path, whatever the working directory. */
  lemma {:induction false} AbspathRender(cwd: Path, p: Path)
    requires IsNormal(p)
    ensures Abspath(cwd, Render(p)) == p
  {
    NormAbsRender(p);
  }

  /** The string `abspath` returns for the string of a normal path is that string. */
  lemma {:induction false} AbspathStringRender(cwd: Path, p: Path)
    requires IsNormal(p)
    ensures AbspathString(cwd, Render(p)) == Render(p)
  {
    AbspathRender(cwd, p);
    RenderSingleSlash(p);
  }

  lemma {:induction false} JoinEndsWithLast(parts: seq<string>)
    requires |parts| >= 1
    ensures EndsWith(Join(parts, '/'), parts[|parts| - 1])
  {
    if |parts| > 1 {
      JoinAppend(parts[..|parts| - 1], parts[|parts| - 1], '/');
      assert parts[..|parts| - 1] + [parts[|parts| - 1]] == parts;
    }
  }

  /** A normal path other than the root is rendered without a trailing `/`. */
  lemma {:induction false} RenderNoTrailingSlash(p: Path)
    requires IsNormal(p) && p != []
    ensures var s := Render(p); s[|s| - 1] != '/'
  {
    JoinEndsWithLast(p);
    var last := p[|p| - 1];
    assert last[|last| - 1] in last;
  }

  /** `join(str(dir), c)` for a normal directory `dir` and a string `c` without `/` is the
      rendering of the components of `dir` followed by `c`. */
  lemma {:induction false} JoinOntoRendered(dir: Path, c: string)
    requires IsNormal(dir) && '/' !in c
    ensures Split(PyJoin(Render(dir), c), '/') == [[]] + dir + [c]
  {
    var s := PyJoin(Render(dir), c);
    assert !IsAbs(c);
    if dir == [] {
      assert Render(dir) == "/";
      assert s == "/" + c;
      SplitWithoutSep(c, '/');
      assert s[0] == '/' && s[1..] == c;
    } else {
      RenderNoTrailingSlash(dir);
      JoinAppend(dir, c, '/');
      assert s == "/" + Join(dir + [c], '/');
      SplitJoin(dir + [c], '/');
      assert s[0] == '/' && s[1..] == Join(dir + [c], '/');
    }
  }

  /** `DATA_DIR = os.path.abspath("data")` (app.py:20) is the directory `data` under the
      working directory the process started in. */
  lemma {:induction false} DataDirUnderStartDirectory(cwd: Path)
    requires IsNormal(cwd)
    ensures Abspath(cwd, "data") == cwd + ["data"]
    ensures IsNormal(cwd + ["data"])
  {
    assert "data"[0] == 'd';
    assert '/' !in "data";
    JoinOntoRendered(cwd, "data");
    assert [[]] + cwd + ["data"] == [[]] + (cwd + ["data"]);
    ResolveNormal([], cwd + ["data"]);
  }

  // ---------------------------------------------------------------------------------------------
  // basename

  /** Whatever precedes the last `/` does not matter to `basename`. */
  lemma {:induction false} BasenameAfterSlash(x: string, y: string)
    ensures Basename(x + "/" + y) == Basename(y)
    decreases |y|
  {
    var s := x + "/" + y;
    if y == [] {
      assert s[|s| - 1] == '/';
    } else if y[|y| - 1] == '/' {
      assert s[|s| - 1] == '/';
    } else {
      assert s[..|s| - 1] == x + "/" + y[..|y| - 1];
      assert s[|s| - 1] == y[|y| - 1];
      BasenameAfterSlash(x, y[..|y| - 1]);
    }
  }

  /** `basename` is the longest suffix without `/`: what precedes it, if anything, is a `/`. */
  lemma {:induction false} BasenameSpec(s: string)
    ensures var b := Basename(s);
      && '/' !in b && |b| <= |s| && b == s[|s| - |b|..]
      && (|b| < |s| ==> s[|s| - |b| - 1] == '/')
  {
    if s != [] && s[|s| - 1] != '/' {
      BasenameSpec(s[..|s| - 1]);
    }
  }

  lemma {:induction false} BasenameOfPlain(s: string)
    requires '/' !in s
    ensures Basename(s) == s
  {
    if s != [] {
      var init := s[..|s| - 1];
      assert '/' !in init by {
        forall i | 0 <= i < |init| ensures init[i] != '/' { assert init[i] == s[i]; }
      }
      BasenameOfPlain(init);
      assert s == init + [s[|s| - 1]];
    }
  }

  /** `basename` is the last component of a path written with `/` separators. */
  lemma {:induction false} BasenameIsLastComponent(parts: seq<string>)
    requires |parts| >= 1
    requires forall i :: 0 <= i < |parts| ==> '/' !in parts[i]
    ensures Basename(Join(parts, '/')) == parts[|parts| - 1]
  {
    if |parts| == 1 {
      BasenameOfPlain(parts[0]);
    } else {
      var rest := Join(parts[1..], '/');
      assert Join(parts, '/') == parts[0] + "/" + rest;
      BasenameAfterSlash(parts[0], rest);
      BasenameIsLastComponent(parts[1..]);
      assert parts[1..][|parts| - 2] == parts[|parts| - 1];
    }
  }

  // ---------------------------------------------------------------------------------------------
  // get_abs_path

  /** The components of `/dir/c`, as `split` leaves them, resolve to one step from `dir`. */
  lemma {:induction false} ResolveRooted(dir: Path, c: string)
    requires IsNormal(dir)
    ensures Resolve([], [[]] + dir + [c]) == Step(dir, c)
  {
    ResolveAppend([], [[]] + dir, c);
    assert ([[]] + dir)[1..] == dir;
    ResolveNormal([], dir);
  }

  /** `get_abs_path(f)` is one normpath step from `DATA_DIR` with the base name of `f`. */
  lemma {:induction false} GetAbsPathIsStep(dataDir: Path, filename: string)
    requires IsNormal(dataDir)
    ensures GetAbsPath(dataDir, filename) == Step(dataDir, Basename(filename))
  {
    var b := Basename(filename);
    BasenameSpec(filename);
    JoinOntoRendered(dataDir, b);
    ResolveRooted(dataDir, b);
  }

  /** The three outcomes of `get_abs_path`: a file directly inside `DATA_DIR`, `DATA_DIR` itself
      (base name `""` or `"."`), or the parent of `DATA_DIR` (base name `".."`). Every directory
      component of the argument is discarded. */
  lemma {:induction false} GetAbsPathConfined(dataDir: Path, filename: string)
    requires IsNormal(dataDir)
    ensures var b, r := Basename(filename), GetAbsPath(dataDir, filename);
      && (IsComponent(b) ==> r == dataDir + [b] && IsNormal(r))
      && (b == "" || b == "." ==> r == dataDir)
      && (b == ".." ==> r == Parent(dataDir))
  {
    GetAbsPathIsStep(dataDir, filename);
  }

  /** A fixed output name without `/` lands directly inside `DATA_DIR`. */
  lemma {:induction false} GetAbsPathOfPlainName(dataDir: Path, name: string)
    requires IsNormal(dataDir) && IsComponent(name)
    ensures GetAbsPath(dataDir, name) == dataDir + [name]
  {
    BasenameOfPlain(name);
    GetAbsPathIsStep(dataDir, name);
  }

  /** Directory components in front of the base name are thrown away, `..` included. */
  lemma {:induction false} GetAbsPathDropsDirectories(dataDir: Path, dir: string, name: string)
    requires IsNormal(dataDir)
    ensures GetAbsPath(dataDir, dir + "/" + name) == GetAbsPath(dataDir, name)
  {
    BasenameAfterSlash(dir, name);
    GetAbsPathIsStep(dataDir, dir + "/" + name);
    GetAbsPathIsStep(dataDir, name);
  }

  /** A traversal prefix is thrown away: `get_abs_path("../../etc/passwd")` is `DATA_DIR/passwd`. */
  lemma {:induction false} GetAbsPathDropsTraversal(dataDir: Path)
    requires IsNormal(dataDir)
    ensures GetAbsPath(dataDir, "../../etc/passwd") == dataDir + ["passwd"]
  {
    var dir, name := "../../etc", "passwd";
    assert dir + "/" + name == "../../etc/passwd";
    GetAbsPathDropsDirectories(dataDir, dir, name);
    GetAbsPathOfPlainName(dataDir, name);
  }

  /** `get_abs_path("a/..")` escapes to the parent of `DATA_DIR`: `basename("a/..")` is `".."`. */
  lemma {:induction false} GetAbsPathParentEscape(dataDir: Path)
    requires IsNormal(dataDir) && dataDir != []
    ensures GetAbsPath(dataDir, "a/..") == dataDir[..|dataDir| - 1]
  {
    var dir, name := "a", "..";
    assert dir + "/" + name == "a/..";
    GetAbsPathDropsDirectories(dataDir, dir, name);
    BasenameOfPlain(name);
    GetAbsPathIsStep(dataDir, name);
  }

  /** `get_abs_path("docs/index.json")` (app.py:149) is `DATA_DIR/index.json`, not a file in `docs`. */
  lemma {:induction false} GetAbsPathFlattensDocsIndex(dataDir: Path)
    requires IsNormal(dataDir)
    ensures GetAbsPath(dataDir, "docs/index.json") == dataDir + ["index.json"]
    ensures GetAbsPath(dataDir, "docs/index.json") != GetAbsPath(dataDir, "docs") + ["index.json"]
  {
    assert "docs/index.json" == "docs" + "/" + "index.json";
    BasenameAfterSlash("docs", "index.json");
    BasenameOfPlain("index.json");
    BasenameOfPlain("docs");
    GetAbsPathIsStep(dataDir, "docs/index.json");
    GetAbsPathIsStep(dataDir, "docs");
    assert IsComponent("docs") && IsComponent("index.json");
    assert |dataDir + ["docs"] + ["index.json"]| != |dataDir + ["index.json"]|;
  }

  // ---------------------------------------------------------------------------------------------
  // secure_path

  /** `secure_path` returns the absolute path exactly when the rendered `DATA_DIR` is a string
      prefix of it, and raises otherwise. */
  lemma {:induction false} SecurePathIsPrefixCheck(cwd: Path, dataDir: Path, filePath: string)
    requires IsNormal(dataDir)
    ensures var absPath := AbspathString(cwd, filePath);
      && (SecurePath(cwd, dataDir, filePath).Ok? <==> Render(dataDir) <= absPath)
      && (SecurePath(cwd, dataDir, filePath).Ok? ==> SecurePath(cwd, dataDir, filePath).value == absPath)
      && (SecurePath(cwd, dataDir, filePath).Err? ==> SecurePath(cwd, dataDir, filePath).error == OutsideDataDir)
  {
    AbspathStringRender(cwd, dataDir);
  }

  /** A path that begins with exactly two slashes keeps them under `abspath`, so it never passes
      `secure_path` unless `DATA_DIR` is the root: `"//x/data/f"` is refused for `DATA_DIR` `/x/data`. */
  lemma {:induction false} SecurePathRejectsDoubleSlash(cwd: Path, dataDir: Path, filePath: string)
    requires IsNormal(dataDir) && dataDir != []
    requires KeepsDoubleSlash(filePath)
    ensures SecurePath(cwd, dataDir, filePath) == Err(OutsideDataDir)
  {
    SecurePathIsPrefixCheck(cwd, dataDir, filePath);
    RenderSingleSlash(dataDir);
    assert |Render(dataDir)| >= 2 by {
      assert Join(dataDir, '/')[0] == dataDir[0][0];
    }
  }

  /** The string of a normal path passes `secure_path` unchanged when the string of `DATA_DIR`
      is a prefix of it. */
  lemma {:induction false} SecurePathOfRendered(cwd: Path, dataDir: Path, q: Path)
    requires IsNormal(dataDir) && IsNormal(q) && Render(dataDir) <= Render(q)
    ensures SecurePath(cwd, dataDir, Render(q)) == Ok(Render(q))
  {
    AbspathStringRender(cwd, q);
    SecurePathIsPrefixCheck(cwd, dataDir, Render(q));
  }

  lemma {:induction false} JoinExtendLast(parts: seq<string>, suffix: string)
    requires |parts| >= 1
    ensures Join(parts, '/') + suffix
         == Join(parts[..|parts| - 1] + [parts[|parts| - 1] + suffix], '/')
  {
    var init, last := parts[..|parts| - 1], parts[|parts| - 1];
    if |parts| > 1 {
      JoinAppend(init, last, '/');
      JoinAppend(init, last + suffix, '/');
      assert init + [last] == parts;
    }
  }

  /** The guard compares strings, not components: a sibling directory whose name extends the
      last component of `DATA_DIR` (`DATA_DIR + "2/x"`) passes, although it is not inside `DATA_DIR`. */
  lemma {:induction false} SecurePathAcceptsSibling(cwd: Path, dataDir: Path, suffix: string, name: string)
    requires IsNormal(dataDir) && dataDir != []
    requires suffix != [] && '/' !in suffix && IsComponent(name)
    ensures var p := Render(dataDir) + suffix + "/" + name;
      && SecurePath(cwd, dataDir, p) == Ok(p)
      && Abspath(cwd, p) == Parent(dataDir) + [dataDir[|dataDir| - 1] + suffix, name]
      && !(dataDir <= Abspath(cwd, p))
  {
    var init, last := dataDir[..|dataDir| - 1], dataDir[|dataDir| - 1];
    var sib := init + [last + suffix];
    var q := sib + [name];
    var p := Render(dataDir) + suffix + "/" + name;
    assert IsComponent(last) && last == (last + suffix)[..|last|];
    assert IsComponent(last + suffix);
    assert IsNormal(q);
    JoinExtendLast(dataDir, suffix);
    JoinAppend(sib, name, '/');
    assert p == Render(q);
    AbspathRender(cwd, q);
    assert Render(dataDir) <= p;
    SecurePathOfRendered(cwd, dataDir, q);
    assert q[|dataDir| - 1] != last;
  }

  lemma {:induction false} JoinLength(parts: seq<string>)
    requires |parts| >= 1
    ensures |Join(parts, '/')| >= |Join(parts[..|parts| - 1], '/')| + |parts[|parts| - 1]|
  {
    if |parts| > 1 {
      JoinAppend(parts[..|parts| - 1], parts[|parts| - 1], '/');
      assert parts[..|parts| - 1] + [parts[|parts| - 1]] == parts;
    }
  }

  /** The rendering of a normal path has the rendering of its directory as a prefix. */
  lemma {:induction false} RenderExtends(dir: Path, c: string)
    requires IsNormal(dir)
    ensures Render(dir) <= Render(dir + [c])
  {
    if dir != [] {
      JoinAppend(dir, c, '/');
    }
  }

  /** The parent of a path other than the root is rendered as a strictly shorter string. */
  lemma {:induction false} RenderParentShorter(dir: Path)
    requires IsNormal(dir) && dir != []
    ensures |Render(Parent(dir))| < |Render(dir)|
  {
    JoinLength(dir);
  }

  /** The two guards agree except at the parent: whatever `get_abs_path` returns passes
      `secure_path`, unless the base name is `".."`, and then `secure_path` rejects it. */
  lemma {:induction false} GetAbsPathPassesSecurePath(cwd: Path, dataDir: Path, filename: string)
    requires IsNormal(dataDir)
    ensures var r := Render(GetAbsPath(dataDir, filename));
      && (Basename(filename) != ".." ==> SecurePath(cwd, dataDir, r) == Ok(r))
      && (Basename(filename) == ".." && dataDir != [] ==> SecurePath(cwd, dataDir, r).Err?)
  {
    var b := Basename(filename);
    var p := GetAbsPath(dataDir, filename);
    BasenameSpec(filename);
    GetAbsPathConfined(dataDir, filename);
    if IsComponent(b) {
      RenderExtends(dataDir, b);
    } else if b == ".." && dataDir != [] {
      RenderParentShorter(dataDir);
    }
    AbspathStringRender(cwd, p);
    SecurePathIsPrefixCheck(cwd, dataDir, Render(p));
  }
}
