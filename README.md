# Task runner core, modelled in Dafny

The system is a small Flask service (`app.py`). Its `/run` endpoint takes a task name and
normalises it to a key: lower case, with spaces turned into underscores. It looks the key up in
the registry `TASKS` and runs the handler it finds. The handlers work in the data directory
`DATA_DIR` and answer with a JSON body and a status:

- A2 runs Prettier on `format.md`. It writes nothing itself; Prettier rewrites that file.
- A3, A4, A7 and A10 each read one input file (or database) and write one output file.
- A5 lists the directory `logs`, and A6 walks the directory tree `docs`. Each writes one
  output file.

Each handler names its input file or directory, and its output file, through `get_abs_path`.
That function keeps only the base name of its argument and joins it onto `DATA_DIR`. A5 and
A6 then open entries of the directory they list: A5 the `.log` files directly inside `logs`,
A6 every `.md` file at any depth under `docs`. Those paths are joined with `os.path.join` and
do not pass through `get_abs_path`. Phase B defines a second guard,
`secure_path`, which compares absolute path strings. No code in `app.py` calls `secure_path`
(it is defined at app.py:311-316 and used nowhere). The lemmas about it, including
`GetAbsPathPassesSecurePath`, describe what the guard would accept. That lemma is about a
composition of the two guards that the program never performs.

The model has these parts:

- **Paths** (`paths.dfy`) models the POSIX path functions the service relies on.
  - An absolute path is the sequence of its components.
  - `normpath` becomes a fold over components. `basename` and `join` work on strings, as
    Python's do. `abspath` takes the working directory as a parameter.
  - On this model the file proves what `get_abs_path` can and cannot reach, and what the
    string-prefix test of `secure_path` accepts.
- **Router** (`router.dfy`) holds the registry, the name normalisation, the dispatch of
  `run_task`, and the combined handler.
- **Handlers**, one module each: `Dates` (A3), `Contacts` (A4), `Logs` (A5), `Docs` (A6),
  `Tickets` (A10), and `ExternalTasks` (A2 and A7). Each handler is a method over an `Input`.
  - An `Input` is missing, unreadable (carrying the exception text), or present (carrying
    what was read).
  - A handler returns an `Outcome`: the response, plus the file it writes with that file's
    content.
  - The pure part of each handler is a specification function, and lemmas state its
    properties. The loops of the source are methods proved equal to those functions.
- **Sorting** (`sorting.dfy`) is the stable sort that `list.sort` and `sorted` perform. It
  is specified as a stable insertion sort and implemented in place on an array. Lemmas prove
  it is a permutation, sorted, and stable.
- **Text** (`text.dfy`) models the string methods the handlers use: `strip`, `split`, `join`,
  `lower`, `replace`, `str` of an integer, and Python's `<` on strings.
- **FileReader** (`reader.dfy`) models `read_file` and the `/read` endpoint.
- **Responses** and **Wrappers** hold the shared datatypes.

Where the code and its documentation disagree, the model follows the code:

- The A6 index is written to `DATA_DIR/index.json`, not to `docs/index.json`.
  `get_abs_path("docs/index.json")` keeps only the base name; `GetAbsPathFlattensDocsIndex`
  proves it.
- `get_abs_path` is not confined to `DATA_DIR`. A base name of `..` (for example `"a/.."`)
  resolves to the parent of `DATA_DIR`.
- `secure_path` accepts a sibling directory whose name extends the last component of
  `DATA_DIR`.

## Model

| member | source | states |
|---|---|---|
| Paths.GetAbsPathIsStep | app.py:23-25 | `GetAbsPath` (the model of `get_abs_path(f)`) is one `normpath` step from `DATA_DIR` with `basename(f)`, for any string `f` |
| Paths.GetAbsPath | app.py:23-25 | the result is a normal absolute path: no empty, `.` or `..` component |
| Paths.GetAbsPathConfined | app.py:23-25 | the only three results: `DATA_DIR/b` for a plain base name `b` (a normal path), `DATA_DIR` itself for `""` or `"."`, and the parent of `DATA_DIR` for `".."` |
| Paths.GetAbsPathOfPlainName | app.py:23-25 | a name without `/` other than `.`/`..`/empty lands directly inside `DATA_DIR` |
| Paths.GetAbsPathDropsDirectories | app.py:23-25 | any directory prefix `dir/` in front of the base name is discarded |
| Paths.GetAbsPathDropsTraversal | app.py:23-25 | `get_abs_path("../../etc/passwd")` is `DATA_DIR/passwd` |
| Paths.GetAbsPathParentEscape | app.py:23-25 | `get_abs_path("a/..")` is the parent of `DATA_DIR`: confinement fails for base name `..` |
| Paths.GetAbsPathFlattensDocsIndex | app.py:149 | the A6 output path `docs/index.json` becomes `DATA_DIR/index.json`, not a file inside `DATA_DIR/docs` |
| Paths.BasenameSpec | app.py:25 | `Basename` (the model of `os.path.basename`) is the longest `/`-free suffix, and only a `/` precedes it |
| Paths.BasenameIsLastComponent | app.py:25 | `basename` of components joined by `/` is the last component |
| Paths.BasenameAfterSlash | app.py:25 | whatever precedes the last `/` does not affect `basename` |
| Paths.BasenameOfPlain | app.py:25 | a string without `/` is its own base name |
| Paths.NormAbsRender | app.py:25 | `normpath` of the string of a normal absolute path gives that path back |
| Paths.NormAbs | app.py:25 | `normpath` of an absolute path string has no empty, `.` or `..` component |
| Paths.ResolveKeepsNormal | app.py:25 | resolving `/`-free components one by one from a normal path gives a normal path |
| Paths.AbspathRender | app.py:313-314 | `abspath` of an absolute normal path string is that path, whatever the working directory |
| Paths.Abspath | app.py:313-314 | `abspath` of any string, relative or absolute, is a normal absolute path |
| Paths.AbspathString | app.py:313 | the string `abspath(s)` returns is absolute, and it begins with two slashes exactly when `s` begins with exactly two; otherwise it is the rendered normal path |
| Paths.DataDirUnderStartDirectory | app.py:20 | `DATA_DIR = abspath("data")` is `cwd/data`, a normal path |
| Paths.PyJoin | app.py:25 | `os.path.join` onto an absolute path stays absolute |
| Paths.SecurePathIsPrefixCheck | app.py:311-316 | `SecurePath` (the model of `secure_path`) returns the string `abspath(p)` exactly when `str(DATA_DIR)` is a string prefix of it, else raises the `PermissionError` message |
| Paths.SecurePathRejectsDoubleSlash | app.py:311-316 | a path that begins with exactly two slashes (such as `"//x/data/f"`) keeps them under `abspath`, so `secure_path` rejects it unless `DATA_DIR` is the root |
| Paths.SecurePathAcceptsSibling | app.py:311-316 | a path `DATA_DIR + s + "/" + name`, for a non-empty `s` without `/`, passes `secure_path` unchanged, yet it names a file in the sibling directory `last(DATA_DIR) + s`, which is not inside `DATA_DIR` |
| Paths.GetAbsPathPassesSecurePath | app.py:311-316 | were `secure_path` applied to a result of `get_abs_path` (the program never does this), it would pass unless the base name is `..`; with base name `..` (and `DATA_DIR` not the root) it would be rejected |
| FileReader.ReadFile | app.py:28-40 | the status is 200, 404 or 500: 404 exactly when the resolved file is missing, 500 (with the exception text as `details`) exactly when reading it fails, 200 (with the contents) exactly when it is read; for a plain base name the file looked up is `DATA_DIR/basename(path)`, and a 404 reports that path |
| FileReader.ReadFileOfBasename | app.py:28-31 | `read_file(p)` answers exactly as `read_file(basename(p))`: the directory part of the argument is ignored |
| FileReader.ReadFileLooksOnlyInDataDir | app.py:28-40 | for a plain base name, the answer depends only on the file `DATA_DIR/basename(path)` |
| FileReader.ReadEndpoint | app.py:530-534 | a missing or empty `path` is exactly the 400 "Missing file path."; otherwise it is `read_file` |
| Router.NormalizeTaskName | app.py:522 | the key has the name's length, has no space and no upper-case ASCII letter, has `_` wherever the name has a space, and the lower-case form of the name's character everywhere else |
| Router.NormalizeIdempotent | app.py:522 | normalising a key again changes nothing |
| Router.NormalizeKeepsKeys | app.py:504-513 | a name already in key form (every registered key) is its own key |
| Router.KeyIsNormal | app.py:504-513 | a key made of lower-case ASCII letters and `_` is its own normal form |
| Router.RegisteredKeysAreNormal | app.py:504-513 | each of the seven keys of `TASKS` is its own normal form |
| Router.RegisteredKeysDispatch | app.py:504-526 | every key of `Tasks` (the model of `TASKS`), given as the task name, runs the handler registered under it |
| Router.Route | app.py:517-526 | a missing or empty name gives 400 "Missing task description."; an unregistered key gives 400 "Invalid task description."; a handler runs exactly when the key is registered, and it is the one registered under that key |
| Router.RouteDependsOnKeyOnly | app.py:522-526 | two names with the same key are routed alike |
| Router.RouteExamples | app.py:504-526 | "Count Wednesdays" runs A3; "count-wednesdays" is invalid |
| Router.RunHandler | app.py:504-513 | the outcome is `HandlerOutcome` of the handler kind: exactly what that handler does on the inputs; the file it writes is directly inside `DATA_DIR`, and its status is 200, 400 or 404 |
| Router.HandlerOutcomeStaysInDataDir | app.py:504-513 | for every handler, the file written is directly inside `DATA_DIR` and the status is 200, 400 or 404 |
| Router.RunTask | app.py:517-526 | a rejected request is answered with the rejection; otherwise the outcome is that of the handler `Route` chose for the key, with the same guarantees as `RunHandler` |
| ExternalTasks.ShellResponse | app.py:43-48 | the status is 200 exactly when the exit status is 0; otherwise 400 with the command's standard error |
| ExternalTasks.PrettierFormatsDataFile | app.py:51-54 | the command formats `DATA_DIR/format.md` |
| ExternalTasks.SenderText | app.py:221-224 | the written text is never empty: the stripped completion, or "Extraction failed." when that is empty |
| ExternalTasks.EmailSenderTask | app.py:183-233 | 404 without `email.txt`; the exception text when reading fails; 400 without a token, even with an empty one; the exception text when the request fails; otherwise the sender text written to `DATA_DIR/email-sender.txt` |
| ExternalTasks.EmailSenderOutcomeShape | app.py:183-233 | A7 writes only `DATA_DIR/email-sender.txt` and answers 200, 400 or 404 |
| Dates.Weekday | app.py:74 | `weekday()` lies in 0..6 |
| Dates.WeekdayAdvances | app.py:74 | a week later is the same weekday; the next day is the next weekday |
| Dates.WeekdayExamples | app.py:74 | 1 January 2024 is a Monday (0) and 3 January 2024 is a Wednesday (2) |
| Dates.TallyStopsAtRaise | app.py:68-77 | once a line raises an exception other than `ValueError`, later lines do not matter |
| Dates.TallyFailsIffRaise | app.py:68-84 | the count fails exactly when some line raises an exception other than `ValueError` |
| Dates.TallyCountsWednesdays | app.py:68-77 | without such an exception, the count is the number of lines that `Judge` (strip, parse, test the weekday) counts as Wednesdays |
| Dates.Tally | app.py:68-77 | the count the loop reaches never exceeds the number of lines |
| Dates.InvalidLineSkipped | app.py:76-77 | an unparsable line, wherever it stands, changes nothing |
| Dates.CountWednesdays | app.py:68-77 | the loop computes the specification `Tally` |
| Dates.CountWednesdaysTask | app.py:57-84 | 404 without `dates.txt`; 400 with the exception text on failure; otherwise 200 with the count, and the count written in decimal to `DATA_DIR/dates-wednesdays.txt` |
| Dates.CountWednesdaysOutcomeShape | app.py:57-84 | A3 writes only `DATA_DIR/dates-wednesdays.txt` and answers 200, 400 or 404 |
| Contacts.KeyLessIsStrictTotalOrder | app.py:102 | `KeyLess`, comparing `(last_name, first_name)` pairs, is a strict total order |
| Contacts.FirstNonObject | app.py:102 | the first element that is not an object, or none |
| Contacts.SortFailure | app.py:102-109 | the sort fails exactly when some element is not an object, or when two or more elements include a non-string name; a non-object gives the `AttributeError` text of the first one |
| Contacts.SortContacts | app.py:102 | the in-place sort computes the stable sort by key |
| Contacts.SortedContacts | app.py:102 | the result holds the same contacts, ordered by key, with contacts of equal key in their original order |
| Contacts.SortTwo | app.py:102 | two contacts whose keys are out of order are swapped |
| Contacts.SortExample | app.py:102 | Z/B before A/A comes out as A/A, Z/B |
| Contacts.MissingNamesAreEmpty | app.py:102 | `ContactKey` of a contact without names is `("", "")` |
| Contacts.SortContactsTask | app.py:87-109 | 404 without `contacts.json`; 400 "Invalid JSON format. Expected a list." for a non-list; the exception text when the sort fails; otherwise the sorted list written to `DATA_DIR/contacts-sorted.json` |
| Contacts.SortContactsOutcomeShape | app.py:87-109 | A4 writes only `DATA_DIR/contacts-sorted.json` and answers 200, 400 or 404 |
| Logs.LogFiles | app.py:122 | the `.log` entries are exactly the listed entries whose names end in `.log` |
| Logs.LogFilesAppend | app.py:122 | the filter keeps listing order: filtering two listings one after the other is filtering each |
| Logs.LogFilesOne | app.py:122 | one entry is kept exactly when its name ends in `.log` |
| Logs.MtimeFailure | app.py:121-125 | the selection fails exactly when some `getmtime` raises, with the exception of the first file whose `getmtime` raises |
| Logs.LaterIsStrictTotalOrder | app.py:124 | `reverse=True` on modification times is a strict total order |
| Logs.RecentSelection | app.py:121-125 | `Recent`: the sort is a permutation of the `.log` files; `min(10, n)` of them are kept, all listed `.log` files, newest first; no dropped file is newer than a kept one; ties stay in listing order |
| Logs.TenOfTwelve | app.py:125 | with twelve `.log` files, ten are kept |
| Logs.ExtractLines | app.py:127-135 | one line per selected file, `name: first line stripped`, or `name: Error reading file (...)` for that file alone |
| Logs.LogLine | app.py:127-135 | every line written starts with the file's name and `: ` |
| Logs.SelectRecent | app.py:121-125 | the in-place sort and slice compute `Recent` |
| Logs.ExtractRecentLogsTask | app.py:112-143 | 404 without the `logs` directory; the exception text when listing or `getmtime` fails; otherwise 200 with `log_count`, and the lines joined by newlines written to `DATA_DIR/logs-recent.txt` |
| Logs.ExtractRecentLogsOutcomeShape | app.py:112-143 | A5 writes only `DATA_DIR/logs-recent.txt` and answers 200, 400 or 404 |
| Docs.FirstH1 | app.py:166-170 | the index of the first line that is a level-one heading: every earlier line is not one; none exactly when no line is |
| Docs.NotH1 | app.py:168 | `##…`, `#x…` and a lone `#` are not level-one headings |
| Docs.TitleNotEmpty | app.py:169 | `Title` of a level-one heading (`IsH1`) is never empty |
| Docs.FirstHeadingWins | app.py:166-170 | of two headings only the first counts; a file without one gives no title |
| Docs.ReadTitle | app.py:165-170 | the loop with its `break` computes `TitleOf` |
| Docs.Reads | app.py:165-170 | one read per walked Markdown file, in order, pairing its relative path with what reading it yields |
| Docs.StepEntriesMembers | app.py:159-162 | the files read in one directory are exactly its `.md` files, each with the relative path of `dir/name` |
| Docs.EntriesMembers | app.py:158-162 | the files read in the walk are exactly the `.md` files of its directories, each with its relative path |
| Docs.EntriesAppend | app.py:158-162 | the walk reads its directories in order: reading two walks one after the other is reading each |
| Docs.IndexKeysOfWalk | app.py:158-169 | the keys of `Index` are exactly the relative paths of the walk's `.md` files that have a level-one heading |
| Docs.IndexFailsIffReadFails | app.py:165-179 | the index fails exactly when reading some file fails before its heading |
| Docs.IndexKeys | app.py:169 | a path is a key exactly when one of its files has a heading |
| Docs.IndexValue | app.py:169 | a key's value is the title of the last file with that path that has a heading |
| Docs.IndexKeepsFailure | app.py:156-179 | after a failure, later files change nothing |
| Docs.FailureIsFinal | app.py:156-179 | once reading some files fails, the files after them do not change the outcome |
| Docs.StepFailure | app.py:159-170 | a failure within one directory is the outcome of the whole directory |
| Docs.IndexDirectory | app.py:159-170 | the inner loop over one directory extends the index as the specification says |
| Docs.BuildIndex | app.py:158-170 | the walk computes `Index` |
| Docs.ExtractHeadersTask | app.py:147-179 | 404 without `docs`; the exception text when a read fails; otherwise the index written to `DATA_DIR/index.json` |
| Docs.ExtractHeadersOutcomeShape | app.py:147-179 | A6 writes only `DATA_DIR/index.json` and answers 200, 400 or 404 |
| Tickets.GoldAggregate | app.py:297 | `SUM` is `NULL` exactly when there is no Gold row |
| Tickets.TotalIsGoldSum | app.py:297-298 | `OrZero(SUM(...))` is `GoldSum`, the sum over the Gold rows, 0 when there is none |
| Tickets.WrittenTotalReadsBack | app.py:302 | the text written is a decimal integer that reads back as the total |
| Tickets.NoGoldWritesZero | app.py:298-302 | without Gold rows, `"0"` is written |
| Tickets.GoldTicketSalesTask | app.py:287-306 | 404 without the database; the exception text when the query fails; otherwise 200 with `total_sales`, and the total written to `DATA_DIR/ticket-sales-gold.txt` |
| Tickets.GoldTicketSalesOutcomeShape | app.py:287-306 | A10 writes only `DATA_DIR/ticket-sales-gold.txt` and answers 200, 400 or 404 |
| Sorting.SortPermutes | app.py:102 | the sort is a permutation |
| Sorting.SortSorted | app.py:102 | for a strict total order, the result is sorted by key |
| Sorting.SortStable | app.py:102 | elements with equal keys keep their relative order |
| Sorting.InsertInPlace | app.py:102 | one insertion step on the array computes `Insert` and leaves the rest of the array alone |
| Sorting.SortInPlace | app.py:102 | the in-place sort computes `StableSort` |
| Text.StripIsTrimmedSlice | app.py:70 | `Strip` (the model of `strip()`) returns a slice with no whitespace at either end, and only whitespace was removed |
| Text.StripIdempotent | app.py:70 | stripping twice is stripping once |
| Text.TrimStartSpec | app.py:70 | `lstrip` keeps the suffix from the first non-whitespace character |
| Text.TrimEndSpec | app.py:70 | `rstrip` keeps the prefix up to the last non-whitespace character |
| Text.Lower | app.py:522 | `lower()` keeps the length, leaves no upper-case ASCII letter, and changes no other character |
| Text.ReplaceChar | app.py:522 | `replace(c, d)` keeps the length, leaves no `c` when `c != d`, and changes no other character |
| Text.Split | app.py:25 | `split` returns at least one part, and no part contains the separator |
| Text.JoinSplit | app.py:25 | joining what was split gives back the string |
| Text.SplitJoin | app.py:25 | splitting what was joined gives back the parts when no part holds the separator |
| Text.NatToString | app.py:80 | `str(n)` is decimal digits without a leading zero |
| Text.DecimalRoundTrip | app.py:80 | reading back `str(n)` gives `n` |
| Text.IntToString | app.py:302 | `str(i)` starts with `-` exactly when `i` is negative |
| Text.StrLessIrreflexive | app.py:102 | no string is less than itself |
| Text.StrLessTransitive | app.py:102 | string `<` is transitive |
| Text.StrLessTotal | app.py:102 | of two different strings, one is less |

## Left out

- Flask itself is not modelled: request parsing, `jsonify`, the server loop, and debug mode.
  A response is a status and a map of fields. JSON serialisation and the 4-space indentation
  of written JSON are not modelled.
- A2 does not run Prettier. Only its exit status and standard error are parameters. The
  rewrite of `format.md` that Prettier performs is not recorded as a write.
- A7 does not model the HTTP request to the completion service. Its answer (the content, `""`
  when the answer has none, or the exception raised) is a parameter. The token is a
  parameter standing for the environment variable.
- A3 does not model `dateutil.parser.parse`. It is a parameter that returns a date, a
  `ValueError`, or another exception. Weekdays are computed for the proleptic Gregorian
  calendar, as `datetime` does.
- A10 does not model SQLite. The table is a list of rows with integer `units` and `price`.
  SQL `REAL` values, `NULL` cells, and type affinity are left out. So are the float totals
  that `str` would print with a decimal point.
- Tickets.GoldTicketSalesTask: SQLite integers are 64-bit, and the model's are unbounded.
  When the integer `SUM` overflows, SQLite raises "integer overflow", and A10 answers 400 with
  that text; the model answers 200 with the exact sum. When one `units * price` overflows,
  SQLite turns that product into a `REAL`, and the total is then a float; the model keeps
  the exact integer.
- A5 models modification times as integers, not floats.
- The file system is a set of inputs, and the following are not modelled:
  - `os.path.exists` and `isdir` are folded into `Missing`.
  - The order of `os.listdir` and `os.walk` is the order of the given sequences.
  - Failures to write the output files are not modelled.
  - Concurrent requests are not modelled.
- Paths.NormAbs: a `Path` is a list of components, so it cannot say whether the string began
  with exactly two slashes. `normpath("//a")` is `"//a"` in Python, and `NormAbs` gives the
  components of `/a`. `get_abs_path` is not affected: it joins onto the string of `DATA_DIR`,
  which begins with a single `/`.
- Paths.Abspath: the same holds for `abspath`: `Abspath("//a/b")` is the path `/a/b`. Where the
  string matters, in `secure_path`, the model uses `AbspathString`, which keeps the two slashes.
- Paths: symbolic links are not resolved, just as `abspath` does not resolve them.
- Text.Lower: `str.lower` is modelled on ASCII letters only. Other characters are left as
  they are, although Python lower-cases every cased letter.
- Router.NormalizeTaskName: `str.lower` is modelled on ASCII letters only (`Text.Lower`).
  Python also lower-cases other letters, and some of them become ASCII. The KELVIN SIGN
  U+212A lower-cases to `k`, so `app.py` dispatches `"extract_mar\u212Adown_headers"` to A6,
  while the model answers 400 "Invalid task description.".
- `str.strip` uses the whitespace set of Python 3 (ASCII whitespace, the separators
  `\x1c`–`\x1f`, and the Unicode spaces).
- Contacts.SortFailure: the exception `list.sort` raises when a name is not a string is
  approximated. With two or more contacts, any non-string name is taken to fail, with one
  fixed message. Python fails only if the sort actually compares that name with a string,
  and it names the two types in its message.
- Contacts.SortContactsTask: `json.load` is not modelled. The parsed value, or its
  exception text, is the input.
- Contacts.SortFailure: a JSON number is an integer (`JNum` holds an `int`); floats are not
  modelled. A float in the list makes Python raise `'float' object has no attribute 'get'`,
  and that message cannot arise in the model.
- Docs.ExtractHeadersTask: a file is its readable lines plus an optional exception raised
  after them. Decoding errors are therefore tied to a position, not to bytes.
- `safe_remove` and the other phase B handlers are not part of this model: API fetching, git
  cloning, SQL queries, scraping, image compression, Markdown conversion and CSV filtering.
- The commented-out credit-card task (app.py:235-283) is not modelled.
