/** internal/radarstorage/radarstorage.go: the bulk insert of observations.
    The statement text and its argument list are modelled exactly; the
    database call is an input outcome, and RFC 3339 formatting of a Unix
    second is a function parameter. */
module RadarStorage {
  import opened Wrappers
  import opened Observations

  /** The driver errors told apart by the retry logic of the caller. */
  datatype DbError = ConnectionReset | OtherDbFailure

  /** What `ExecContext`, then `RowsAffected`, answer. */
  datatype ExecOutcome = ExecFailed(error: DbError) | Executed(rowsAffected: Result<int, DbError>)

  /** An exec failure is wrapped (`%w`); a RowsAffected failure is returned as it is. */
  datatype UploadError = ExecError(cause: DbError) | RowsAffectedError(cause: DbError)

  /** The statement and arguments handed to `ExecContext`. */
  datatype Exec = Exec(query: string, args: seq<string>)

  datatype UploadResult = UploadResult(executed: Option<Exec>, err: Option<UploadError>)

  const InsertPrefix: string := "insert into flights (flight_designator, seen_time) values "
  const OnConflictSuffix: string := " on conflict do nothing;"

  /** The character that closes a placeholder group. */
  const GroupClose: char := ')'

  function DigitChar(d: nat): char
    requires d < 10
  {
    ('0' as int + d) as char
  }

  function DigitValue(c: char): nat
  {
    if '0' <= c <= '9' then c as int - '0' as int else 0
  }

  /** `%d` of a non-negative integer. */
  function Decimal(n: nat): string
  {
    if n < 10 then [DigitChar(n)] else Decimal(n / 10) + [DigitChar(n % 10)]
  }

  function ParseDecimal(s: string): nat
  {
    if s == [] then 0 else ParseDecimal(s[..|s| - 1]) * 10 + DigitValue(s[|s| - 1])
  }

  /** `%d` loses nothing: distinct counters give distinct placeholder numbers. */
  lemma {:induction false} DecimalRoundTrip(n: nat)
    ensures ParseDecimal(Decimal(n)) == n
  {
    if n >= 10 {
      DecimalRoundTrip(n / 10);
      var s := Decimal(n);
      assert s[..|s| - 1] == Decimal(n / 10);
    }
  }

  /** The placeholder pair written for counter value `i`: `($i, $i+1)`. */
  function Group(i: nat): string
  {
    "($" + Decimal(i) + ", $" + Decimal(i + 1) + ")"
  }

  /** The groups of `n` flights separated by ", ": the k-th flight (from 0)
      gets `($2k+1, $2k+2)`. */
  function ValuesList(n: nat): string
  {
    if n == 0 then ""
    else if n == 1 then Group(1)
    else ValuesList(n - 1) + ", " + Group(2 * n - 1)
  }

  /** The statement for `n` flights. */
  function InsertStatement(n: nat): string
  {
    InsertPrefix + ValuesList(n) + OnConflictSuffix
  }

  /** The arguments in the order the flights were visited: each flight's code,
      then its formatted time. */
  function Args(order: seq<FlightObservation>, formatTime: int -> string): seq<string>
  {
    if order == [] then []
    else
      var last := order[|order| - 1];
      Args(order[..|order| - 1], formatTime) + [last.code, formatTime(last.when)]
  }

  /** What UploadToFlyPostgresInstance returns. */
  function UploadFailure(flights: set<FlightObservation>, db: ExecOutcome): Option<UploadError>
  {
    if flights == {} then None
    else
      match db
      case ExecFailed(e) => Some(ExecError(e))
      case Executed(Failure(e)) => Some(RowsAffectedError(e))
      case Executed(Success(_)) => None
  }

  /** The builder's content after `n` flights: every group followed by ", ". */
  function Built(n: nat): string
  {
    if n == 0 then "" else ValuesList(n) + ", "
  }

  /** Writing the next group keeps the builder equal to its initial content
      followed by every group so far. */
  lemma BuilderStep(start: string, qb: string, n: nat)
    requires qb == start + Built(n)
    ensures qb + (Group(2 * n + 1) + ", ") == start + Built(n + 1)
  {
  }

  lemma ArgsStep(order: seq<FlightObservation>, k: FlightObservation, formatTime: int -> string)
    ensures Args(order + [k], formatTime) == Args(order, formatTime) + [k.code, formatTime(k.when)]
  {
    assert (order + [k])[..|order|] == order;
  }

  /** The argument list has two entries per flight, code then time, so its
      length is the highest placeholder number. */
  lemma {:induction false} ArgsLayout(order: seq<FlightObservation>, formatTime: int -> string)
    ensures |Args(order, formatTime)| == 2 * |order|
    ensures forall k :: 0 <= k < |order| ==>
      Args(order, formatTime)[2 * k] == order[k].code && Args(order, formatTime)[2 * k + 1] == formatTime(order[k].when)
  {
    if order != [] {
      var init := order[..|order| - 1];
      ArgsLayout(init, formatTime);
      forall k | 0 <= k < |init|
        ensures order[k] == init[k]
      {
      }
    }
  }

  /** The groups of the first `k` flights open the list of `n` flights. */
  lemma {:induction false} ValuesListPrefix(k: nat, n: nat)
    requires 0 < k <= n
    ensures ValuesList(k) + (if k < n then ", " else "") <= ValuesList(n)
    decreases n - k
  {
    if k < n {
      if k + 1 < n {
        ValuesListPrefix(k + 1, n);
      }
      assert ValuesList(k + 1) == ValuesList(k) + ", " + Group(2 * k + 1);
    }
  }

  /** The k-th flight (from 0) contributes the group `($2k+1, $2k+2)`, placed
      in the list for n flights right after the groups of the flights before
      it and their ", ". */
  lemma GroupAt(k: nat, n: nat)
    requires k < n
    ensures ValuesList(k) + (if k > 0 then ", " else "") + Group(2 * k + 1) <= ValuesList(n)
  {
    assert ValuesList(k + 1) == ValuesList(k) + (if k > 0 then ", " else "") + Group(2 * k + 1);
    ValuesListPrefix(k + 1, n);
  }

  /** For at least one flight the statement starts with the insert prefix,
      ends with the conflict clause, the last group is `($2n-1, $2n)` and
      no ", " is left before the conflict clause. */
  lemma InsertStatementShape(n: nat)
    requires n > 0
    ensures InsertStatement(n)[..|InsertPrefix|] == InsertPrefix
    ensures InsertStatement(n)[|InsertStatement(n)| - |OnConflictSuffix|..] == OnConflictSuffix
    ensures ValuesList(n)[|ValuesList(n)| - |Group(2 * n - 1)|..] == Group(2 * n - 1)
    ensures InsertStatement(n)[|InsertStatement(n)| - |OnConflictSuffix| - 1] == GroupClose
  {
    var s := InsertStatement(n);
    var g := Group(2 * n - 1);
    var v := ValuesList(n);
    assert s == InsertPrefix + v + OnConflictSuffix;
    if n == 1 {
      assert v == g;
    } else {
      assert v == ValuesList(n - 1) + ", " + g;
    }
    assert v[|v| - |g|..] == g;
    assert v[|v| - 1] == g[|g| - 1] == GroupClose;
    assert s[|s| - |OnConflictSuffix| - 1] == v[|v| - 1];
  }

  /** The state of the group loop after visiting `order`, with `pending`
      left: each flight visited once, the counter at the next odd number,
      one group per visited flight written after `start`, and two arguments
      per visited flight. */
  ghost predicate Writing(start: string, flights: set<FlightObservation>, formatTime: int -> string,
    pending: set<FlightObservation>, order: seq<FlightObservation>, i: int, qb: string, rows: seq<string>)
  {
    && pending <= flights
    && Distinct(order) && Elements(order) == flights - pending
    && |order| + |pending| == |flights|
    && i == 2 * |order| + 1
    && qb == start + Built(|order|)
    && rows == Args(order, formatTime)
  }

  /** One iteration of the group loop keeps `Writing`. */
  lemma WritingStep(start: string, flights: set<FlightObservation>, formatTime: int -> string,
    pending: set<FlightObservation>, order: seq<FlightObservation>, i: int, qb: string, rows: seq<string>,
    k: FlightObservation)
    requires Writing(start, flights, formatTime, pending, order, i, qb, rows)
    requires k in pending
    ensures Writing(start, flights, formatTime, pending - {k}, order + [k], i + 2,
      qb + (Group(i) + ", "), rows + [k.code, formatTime(k.when)])
  {
    BuilderStep(start, qb, |order|);
    ArgsStep(order, k, formatTime);
    AppendFresh(order, k);
  }

  /** Lines 25-30: one placeholder group per flight, followed by ", ", with a
      counter that starts at 1 and advances by 2, the flight's two arguments
      appended alongside. `start` is what the builder held before the loop.
      The flights are visited in the (unspecified) order a Go map hands out
      its keys, returned as the ghost `order`. */
  method AppendGroups(start: string, flights: set<FlightObservation>, formatTime: int -> string)
    returns (qb: string, rows: seq<string>, ghost order: seq<FlightObservation>)
    ensures Distinct(order) && Elements(order) == flights && |order| == |flights|
    ensures qb == start + Built(|flights|)
    ensures rows == Args(order, formatTime)
  {
    order := [];
    qb := start;
    rows := [];
    var i := 1;
    var pending := flights;
    while pending != {}
      invariant Writing(start, flights, formatTime, pending, order, i, qb, rows)
      decreases pending
    {
      var k :| k in pending;
      WritingStep(start, flights, formatTime, pending, order, i, qb, rows, k);
      qb := qb + (Group(i) + ", ");
      i := i + 2;
      rows := rows + [k.code, formatTime(k.when)];
      order := order + [k];
      pending := pending - {k};
    }
  }

  /** Lines 22-40: the builder starts with the insert prefix, receives the
      groups, then loses its trailing ", " and gains the conflict clause. */
  method BuildInsert(flights: set<FlightObservation>, formatTime: int -> string)
    returns (q: string, rows: seq<string>, ghost order: seq<FlightObservation>)
    requires flights != {}
    ensures Distinct(order) && Elements(order) == flights && |order| == |flights|
    ensures q == InsertStatement(|flights|)
    ensures rows == Args(order, formatTime)
  {
    var qb := InsertPrefix;
    qb, rows, order := AppendGroups(qb, flights, formatTime);
    q := qb;
    assert q == (InsertPrefix + ValuesList(|flights|)) + ", ";
    q := q[..|q| - 2];
    q := q + OnConflictSuffix;
  }

  /** UploadToFlyPostgresInstance: nothing is executed for no flights;
      otherwise one statement with a placeholder pair and two arguments per
      flight. An exec failure is returned wrapped without consulting
      RowsAffected. */
  method UploadToFlyPostgresInstance(flights: set<FlightObservation>, formatTime: int -> string, db: ExecOutcome)
    returns (r: UploadResult, ghost order: seq<FlightObservation>)
    ensures Distinct(order) && Elements(order) == flights && |order| == |flights|
    ensures flights == {} ==> r.executed == None
    ensures flights != {} ==> r.executed == Some(Exec(InsertStatement(|flights|), Args(order, formatTime)))
    ensures r.err == UploadFailure(flights, db)
  {
    order := [];
    if |flights| == 0 {
      return UploadResult(None, None), order;
    }
    var q, rows;
    q, rows, order := BuildInsert(flights, formatTime);
    var exec := Exec(q, rows);
    match db {
      case ExecFailed(e) =>
        return UploadResult(Some(exec), Some(ExecError(e))), order;
      case Executed(rowsAffected) =>
        if rowsAffected.Failure? {
          return UploadResult(Some(exec), Some(RowsAffectedError(rowsAffected.error))), order;
        }
        return UploadResult(Some(exec), None), order;
    }
  }
}
