/** Task A10, `a10_ticket_sales` (app.py:287-306): the total sales of the `Gold` tickets. */
module Tickets {
  import opened Wrappers
  import opened Text
  import opened Paths
  import opened Responses

  /** A row of the `tickets` table. */
  datatype Ticket = Ticket(kind: string, units: int, price: int)

  /** `SELECT SUM(units * price) FROM tickets WHERE type = 'Gold'`: SQL's `SUM` over no row is
      `NULL`. */
  function GoldAggregate(rows: seq<Ticket>): (r: Option<int>)
    ensures r.None? <==> forall i :: 0 <= i < |rows| ==> rows[i].kind != "Gold"
  {
    if rows == [] then None
    else
      var last := rows[|rows| - 1];
      var before := GoldAggregate(rows[..|rows| - 1]);
      assert forall i :: 0 <= i < |rows| - 1 ==> rows[..|rows| - 1][i] == rows[i];
      if last.kind != "Gold" then before
      else if before.None? then Some(last.units * last.price)
      else Some(before.value + last.units * last.price)
  }

  /** The sum of `units * price` over the Gold rows, `0` when there is none. */
  function GoldSum(rows: seq<Ticket>): int
  {
    if rows == [] then 0
    else
      var last := rows[|rows| - 1];
      GoldSum(rows[..|rows| - 1]) + (if last.kind == "Gold" then last.units * last.price else 0)
  }

  /** `cursor.fetchone()[0] or 0`: `NULL` (and a zero sum) become `0`. */
  function OrZero(aggregate: Option<int>): int
  {
    if aggregate.None? then 0 else aggregate.value
  }

  /** The total is never `NULL`: it is the plain sum of the Gold rows, `0` for none. */
  lemma {:induction false} TotalIsGoldSum(rows: seq<Ticket>)
    ensures OrZero(GoldAggregate(rows)) == GoldSum(rows)
  {
    if rows != [] {
      TotalIsGoldSum(rows[..|rows| - 1]);
    }
  }

  /** The value of a string written by `str` on an integer. */
  function IntValue(s: string): int
    requires s != [] && (s[0] == '-' ==> |s| > 1)
    requires forall i :: 0 < i < |s| ==> '0' <= s[i] <= '9'
    requires s[0] == '-' || '0' <= s[0] <= '9'
  {
    if s[0] == '-' then -(DecimalValue(s[1..]) as int) else DecimalValue(s)
  }

  /** The text written to the output file reads back as the total. */
  lemma {:induction false} WrittenTotalReadsBack(total: int)
    ensures var s := IntToString(total);
      && s != [] && (s[0] == '-' ==> |s| > 1)
      && (forall i :: 0 < i < |s| ==> '0' <= s[i] <= '9')
      && (s[0] == '-' || '0' <= s[0] <= '9')
      && IntValue(s) == total
  {
    var s := IntToString(total);
    if total < 0 {
      assert s[1..] == NatToString(-total);
      DecimalRoundTrip(-total);
    } else {
      DecimalRoundTrip(total);
    }
  }

  /** The file the total is written to, in `DATA_DIR`. */
  const GoldFile := "ticket-sales-gold.txt"

  lemma {:induction false} GoldFileInDataDir(dataDir: Path)
    requires IsNormal(dataDir)
    ensures IsComponent(GoldFile)
    ensures GetAbsPath(dataDir, GoldFile) == dataDir + [GoldFile]
  {
    GetAbsPathOfPlainName(dataDir, GoldFile);
  }

  /** What `a10_ticket_sales` answers and writes. */
  function GoldTicketSalesOutcome(dataDir: Path, db: Input<seq<Ticket>>): Outcome
  {
    match db
    case Missing => Reply(ErrorResponse(404, "Database file not found."))
    case Unreadable(m) => Reply(FailedResponse(m))
    case Present(rows) =>
      var total := OrZero(GoldAggregate(rows));
      Outcome(
        Response(200, map["message" := Str("Gold ticket sales calculated successfully."), "total_sales" := Int(total)]),
        Some(Write(dataDir + [GoldFile], Text(IntToString(total)))))
  }

  /** The handler writes `ticket-sales-gold.txt` in `DATA_DIR` or nothing, and answers with 200, 400 or 404. */
  lemma {:induction false} GoldTicketSalesOutcomeShape(dataDir: Path, db: Input<seq<Ticket>>)
    ensures var o := GoldTicketSalesOutcome(dataDir, db);
      && (o.written.Some? ==> o.written.value.path == dataDir + [GoldFile])
      && (o.response.status == 200 || o.response.status == 400 || o.response.status == 404)
  {
  }

  /** The whole handler: 404 without the database, the exception's text with 400 when the query
      fails, else the total written to `ticket-sales-gold.txt` and returned. */
  method GoldTicketSalesTask(dataDir: Path, db: Input<seq<Ticket>>) returns (o: Outcome)
    requires IsNormal(dataDir)
    ensures o == GoldTicketSalesOutcome(dataDir, db)
    ensures db.Missing? ==> o == Reply(ErrorResponse(404, "Database file not found."))
    ensures db.Unreadable? ==> o == Reply(FailedResponse(db.message))
    ensures db.Present? ==>
      var total := GoldSum(db.contents);
      && o.response == Response(200, map["message" := Str("Gold ticket sales calculated successfully."), "total_sales" := Int(total)])
      && o.written == Some(Write(dataDir + [GoldFile], Text(IntToString(total))))
  {
    match db {
      case Missing =>
        return Reply(ErrorResponse(404, "Database file not found."));
      case Unreadable(m) =>
        return Reply(FailedResponse(m));
      case Present(rows) =>
        var total := OrZero(GoldAggregate(rows));
        TotalIsGoldSum(rows);
        GoldFileInDataDir(dataDir);
        var output := GetAbsPath(dataDir, GoldFile);
        o := Outcome(
          Response(200, map["message" := Str("Gold ticket sales calculated successfully."), "total_sales" := Int(total)]),
          Some(Write(output, Text(IntToString(total)))));
    }
  }

  /** No Gold ticket: `0` is written, not `None`. */
  lemma {:induction false} NoGoldWritesZero(rows: seq<Ticket>)
    requires forall i :: 0 <= i < |rows| ==> rows[i].kind != "Gold"
    ensures GoldSum(rows) == 0 && IntToString(GoldSum(rows)) == "0"
  {
    TotalIsGoldSum(rows);
  }
}
