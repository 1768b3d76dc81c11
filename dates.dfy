/** Task A3, `a3_dates` (app.py:56-84): count the lines of `dates.txt` that are Wednesdays. */
module Dates {
  import opened Wrappers
  import opened Text
  import opened Paths
  import opened Responses

  /** A calendar date of the proleptic Gregorian calendar. */
  datatype Date = Date(year: int, month: int, day: int)

  /** What `dateutil.parser.parse` does with one stripped line: a date, a `ValueError` (which the
      loop skips), or another exception, such as `OverflowError`, which the inner
      `except ValueError` does not catch. The parser itself is not modelled: it is a parameter. */
  datatype ParseOutcome = Parsed(date: Date) | Invalid | Raised(message: string)

  /** `datetime.weekday()` numbers Monday as 0, so Wednesday is 2 (app.py:74). */
  const Wednesday := 2

  predicate IsLeap(y: int)
  {
    y % 4 == 0 && (y % 100 != 0 || y % 400 == 0)
  }

  /** Days in the years before `y` (Python's `_days_before_year`). */
  function DaysBeforeYear(y: int): int
  {
    var p := y - 1;
    p * 365 + p / 4 - p / 100 + p / 400
  }

  /** Days in the months of year `y` before month `m`, for `1 <= m <= 12`. */
  function DaysBeforeMonth(y: int, m: int): int
  {
    var common :=
      if m <= 1 then 0 else if m == 2 then 31 else if m == 3 then 59 else if m == 4 then 90
      else if m == 5 then 120 else if m == 6 then 151 else if m == 7 then 181 else if m == 8 then 212
      else if m == 9 then 243 else if m == 10 then 273 else if m == 11 then 304 else 334;
    if m > 2 && IsLeap(y) then common + 1 else common
  }

  /** `date.toordinal()`: 1 January of year 1 is day 1. */
  function Ordinal(d: Date): int
  {
    DaysBeforeYear(d.year) + DaysBeforeMonth(d.year, d.month) + d.day
  }

  /** `date.weekday()`: day 1 was a Monday. */
  function Weekday(d: Date): (w: int)
    ensures 0 <= w < 7
  {
    (Ordinal(d) + 6) % 7
  }

  /** A week later is the same weekday, and the next day is the next weekday. */
  lemma {:induction false} WeekdayAdvances(d: Date)
    ensures Weekday(Date(d.year, d.month, d.day + 7)) == Weekday(d)
    ensures Weekday(Date(d.year, d.month, d.day + 1)) == (Weekday(d) + 1) % 7
  {
    var o := Ordinal(d);
    assert Ordinal(Date(d.year, d.month, d.day + 7)) == o + 7;
    assert Ordinal(Date(d.year, d.month, d.day + 1)) == o + 1;
    ModSevenShift(o + 6);
  }

  /** Adding 7 does not change the remainder modulo 7, and adding 1 advances it by one. */
  lemma {:induction false} ModSevenShift(x: int)
    ensures (x + 7) % 7 == x % 7
    ensures (x + 1) % 7 == (x % 7 + 1) % 7
  {
    var q, r := x / 7, x % 7;
    assert x == 7 * q + r && 0 <= r < 7;
    assert x + 7 == 7 * (q + 1) + r;
    if r < 6 {
      assert x + 1 == 7 * q + (r + 1);
    } else {
      assert x + 1 == 7 * (q + 1) + 0;
    }
  }

  /** 1 January 2024 was a Monday and 3 January 2024 a Wednesday. */
  lemma WeekdayExamples()
    ensures Weekday(Date(2024, 1, 1)) == 0
    ensures Weekday(Date(2024, 1, 3)) == Wednesday
  {
  }

  /** What the loop body makes of one line: it counts, it is a date on another day, it is
      skipped as a `ValueError`, or its exception ends the loop. */
  datatype Verdict = Counted | OtherDay | Skipped | Stopped(message: string)

  /** The loop body of app.py:69-77 on one raw line: strip it, parse it, test the weekday. */
  function Judge(parse: string -> ParseOutcome): string -> Verdict
  {
    line =>
      match parse(Strip(line))
      case Raised(m) => Stopped(m)
      case Invalid => Skipped
      case Parsed(d) => if Weekday(d) == Wednesday then Counted else OtherDay
  }

  /** The count the loop of app.py:68-77 reaches over `lines`, or the exception that ends it.
      The count never exceeds the number of lines. */
  function Tally(lines: seq<string>, judge: string -> Verdict): (r: Result<nat, string>)
    ensures r.Ok? ==> r.value <= |lines|
  {
    if lines == [] then Ok(0)
    else
      match Tally(lines[..|lines| - 1], judge)
      case Err(e) => Err(e)
      case Ok(n) =>
        match judge(lines[|lines| - 1])
        case Stopped(m) => Err(m)
        case Counted => Ok(n + 1)
        case _ => Ok(n)
  }

  /** The indices of the lines that count. */
  function WednesdayLines(lines: seq<string>, judge: string -> Verdict): set<nat>
  {
    set i: nat | i < |lines| && judge(lines[i]).Counted?
  }

  /** Once a line raises, the rest of the lines are not looked at. */
  lemma {:induction false} TallyStopsAtRaise(lines: seq<string>, k: nat, judge: string -> Verdict)
    requires k <= |lines| && Tally(lines[..k], judge).Err?
    ensures Tally(lines, judge) == Tally(lines[..k], judge)
    decreases |lines| - k
  {
    if k < |lines| {
      assert lines[..k + 1][..k] == lines[..k];
      TallyStopsAtRaise(lines, k + 1, judge);
    } else {
      assert lines[..k] == lines;
    }
  }

  /** The count fails exactly when some line raises something other than `ValueError`. */
  lemma {:induction false} TallyFailsIffRaise(lines: seq<string>, judge: string -> Verdict)
    ensures Tally(lines, judge).Err? <==> exists i :: 0 <= i < |lines| && judge(lines[i]).Stopped?
  {
    if lines != [] {
      var init := lines[..|lines| - 1];
      TallyFailsIffRaise(init, judge);
      if exists i :: 0 <= i < |lines| && judge(lines[i]).Stopped? {
        var i :| 0 <= i < |lines| && judge(lines[i]).Stopped?;
        if i < |lines| - 1 {
          assert init[i] == lines[i];
        }
      } else {
        forall i | 0 <= i < |init| ensures !judge(init[i]).Stopped? {
          assert init[i] == lines[i];
        }
      }
    }
  }

  /** Without an unexpected exception, the result is the number of lines that parse to a Wednesday. */
  lemma {:induction false} TallyCountsWednesdays(lines: seq<string>, judge: string -> Verdict)
    requires forall i :: 0 <= i < |lines| ==> !judge(lines[i]).Stopped?
    ensures Tally(lines, judge) == Ok(|WednesdayLines(lines, judge)|)
  {
    if lines != [] {
      var n := |lines| - 1;
      var init := lines[..n];
      forall i | 0 <= i < |init| ensures !judge(init[i]).Stopped? {
        assert init[i] == lines[i];
      }
      TallyCountsWednesdays(init, judge);
      var before, after := WednesdayLines(init, judge), WednesdayLines(lines, judge);
      var extra: set<nat> := if judge(lines[n]).Counted? then {n} else {};
      forall i: nat ensures i in after <==> i in before + extra {
        if i < n {
          assert init[i] == lines[i];
        }
      }
      assert after == before + extra;
      assert before * extra == {};
      assert |after| == |before| + |extra|;
    }
  }

  /** A line that fails to parse, wherever it stands, changes nothing. */
  lemma {:induction false} InvalidLineSkipped(before: seq<string>, bad: string, after: seq<string>, judge: string -> Verdict)
    requires judge(bad).Skipped?
    ensures Tally(before + [bad] + after, judge) == Tally(before + after, judge)
    decreases |after|
  {
    if after == [] {
      assert before + [bad] + after == before + [bad];
      assert (before + [bad])[..|before|] == before;
      assert before + after == before;
    } else {
      var init, last := after[..|after| - 1], after[|after| - 1];
      InvalidLineSkipped(before, bad, init, judge);
      assert (before + [bad] + after)[..|before + [bad] + after| - 1] == before + [bad] + init;
      assert (before + after)[..|before + after| - 1] == before + init;
    }
  }

  /** The loop of app.py:68-77. */
  method CountWednesdays(lines: seq<string>, parse: string -> ParseOutcome) returns (r: Result<nat, string>)
    ensures r == Tally(lines, Judge(parse))
  {
    var count := 0;
    for i := 0 to |lines|
      invariant Tally(lines[..i], Judge(parse)) == Ok(count)
    {
      assert lines[..i + 1][..i] == lines[..i];
      ghost var verdict := Judge(parse)(lines[i]);
      match parse(Strip(lines[i])) {
        case Raised(m) =>
          assert verdict == Stopped(m);
          TallyStopsAtRaise(lines, i + 1, Judge(parse));
          return Err(m);
        case Invalid =>
          assert verdict == Skipped;
        case Parsed(d) =>
          if Weekday(d) == Wednesday {
            assert verdict == Counted;
            count := count + 1;
          } else {
            assert verdict == OtherDay;
          }
      }
    }
    assert lines[..|lines|] == lines;
    r := Ok(count);
  }

  /** The file the count is written to, in `DATA_DIR`. */
  const WednesdaysFile := "dates-wednesdays.txt"

  lemma {:induction false} WednesdaysFileInDataDir(dataDir: Path)
    requires IsNormal(dataDir)
    ensures IsComponent(WednesdaysFile)
    ensures GetAbsPath(dataDir, WednesdaysFile) == dataDir + [WednesdaysFile]
  {
    GetAbsPathOfPlainName(dataDir, WednesdaysFile);
  }

  /** What `a3_dates` answers and writes: 404 without the input, the exception's text with 400,
      or the count, written in decimal to `dates-wednesdays.txt` in `DATA_DIR`. */
  function CountWednesdaysOutcome(dataDir: Path, dates: Input<seq<string>>, parse: string -> ParseOutcome): Outcome
  {
    match dates
    case Missing => Reply(ErrorResponse(404, "File not found."))
    case Unreadable(m) => Reply(FailedResponse(m))
    case Present(lines) =>
      match Tally(lines, Judge(parse))
      case Err(m) => Reply(FailedResponse(m))
      case Ok(n) =>
        Outcome(
          Response(200, map["message" := Str("Task executed successfully."), "wednesday_count" := Int(n)]),
          Some(Write(dataDir + [WednesdaysFile], Text(NatToString(n)))))
  }

  /** The handler writes `dates-wednesdays.txt` in `DATA_DIR` or nothing, and answers with 200, 400 or 404. */
  lemma {:induction false} CountWednesdaysOutcomeShape(dataDir: Path, dates: Input<seq<string>>, parse: string -> ParseOutcome)
    ensures var o := CountWednesdaysOutcome(dataDir, dates, parse);
      && (o.written.Some? ==> o.written.value.path == dataDir + [WednesdaysFile])
      && (o.response.status == 200 || o.response.status == 400 || o.response.status == 404)
  {
  }

  /** The whole handler: 404 without the input, the count written to `dates-wednesdays.txt`
      in `DATA_DIR` and returned, or the exception's text with 400. */
  method CountWednesdaysTask(dataDir: Path, dates: Input<seq<string>>, parse: string -> ParseOutcome)
    returns (o: Outcome)
    requires IsNormal(dataDir)
    ensures o == CountWednesdaysOutcome(dataDir, dates, parse)
    ensures dates.Missing? ==> o == Reply(ErrorResponse(404, "File not found."))
    ensures dates.Unreadable? ==> o == Reply(FailedResponse(dates.message))
    ensures dates.Present? && Tally(dates.contents, Judge(parse)).Err? ==>
      o == Reply(FailedResponse(Tally(dates.contents, Judge(parse)).error))
    ensures dates.Present? && Tally(dates.contents, Judge(parse)).Ok? ==>
      var n := Tally(dates.contents, Judge(parse)).value;
      && o.response == Response(200, map["message" := Str("Task executed successfully."), "wednesday_count" := Int(n)])
      && o.written == Some(Write(dataDir + [WednesdaysFile], Text(NatToString(n))))
  {
    match dates {
      case Missing =>
        return Reply(ErrorResponse(404, "File not found."));
      case Unreadable(m) =>
        return Reply(FailedResponse(m));
      case Present(lines) =>
        var counted := CountWednesdays(lines, parse);
        match counted {
          case Err(m) =>
            return Reply(FailedResponse(m));
          case Ok(n) =>
            WednesdaysFileInDataDir(dataDir);
            var output := GetAbsPath(dataDir, WednesdaysFile);
            o := Outcome(
              Response(200, map["message" := Str("Task executed successfully."), "wednesday_count" := Int(n)]),
              Some(Write(output, Text(NatToString(n)))));
        }
    }
  }
}
