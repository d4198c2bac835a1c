/**
 The gauge example's step implementations. The suite's shared globals
 (Numbers, Result and Error; the Calc pointer names a stateless calculator)
 are one record, and each step is a transition on it. A step that panics
 fails; the panic's message is returned instead.
 */
module Gauge {
  import opened GoBase

  function Add(a: int, b: int): int
  {
    a + b
  }

  function Subtract(a: int, b: int): int
  {
    a - b
  }

  function Multiply(a: int, b: int): int
  {
    a * b
  }

  function Divide(a: int, b: int): (r: Returns<int>)
    ensures b == 0 <==> r.err.Some?
    ensures b == 0 ==> r.value == 0 && r.err.value.message == "cannot divide by zero"
    ensures b != 0 ==> IsTruncatedQuotient(a, b, r.value)
  {
    if b == 0 then Returns(0, Some(Error("cannot divide by zero"))) else Returns(Quot(a, b), None)
  }

  /** The suite globals; an empty Error string means no error has been recorded. */
  datatype Suite = Suite(numbers: seq<int>, result: int, error: string)

  /** "Initialize calculator". */
  function Initialize(s: Suite): (r: Suite)
    ensures r.numbers == [] && r.result == 0 && r.error == ""
  {
    Suite([], 0, "")
  }

  /** "Enter number <number>". */
  function Enter(s: Suite, number: int): (r: Suite)
    ensures r.numbers == s.numbers + [number]
    ensures r.result == s.result && r.error == s.error
  {
    s.(numbers := s.numbers + [number])
  }

  /**
   "Press <operation> button". A failure only writes Error and keeps Result; a
   success only writes Result, so an Error recorded earlier stays in place.
   */
  function Press(s: Suite, operation: string): (r: Suite)
    ensures r.numbers == s.numbers
    ensures |s.numbers| < 2 ==> r == s.(error := "need at least 2 numbers")
    ensures |s.numbers| >= 2 && operation !in Operations ==>
              r == s.(error := "unknown operation: " + operation)
    ensures |s.numbers| >= 2 && operation == "divide" && s.numbers[1] == 0 ==>
              r == s.(error := "cannot divide by zero")
    ensures |s.numbers| >= 2 && operation in Operations && !(operation == "divide" && s.numbers[1] == 0) ==>
              r.error == s.error && r.result == Calculated(operation, s.numbers[0], s.numbers[1])
  {
    if |s.numbers| < 2 then s.(error := "need at least 2 numbers")
    else
      var a, b := s.numbers[0], s.numbers[1];
      match operation
      case "add" => s.(result := Add(a, b))
      case "subtract" => s.(result := Subtract(a, b))
      case "multiply" => s.(result := Multiply(a, b))
      case "divide" =>
        var q := Divide(a, b);
        if q.err.Some? then s.(error := q.err.value.message)
        else
          QuotUnique(a, b, q.value);
          s.(result := q.value)
      case _ => s.(error := "unknown operation: " + operation)
  }

  /** "Result should be <expected>": panics exactly when Result differs. */
  function ResultShouldBe(s: Suite, expected: int): (panic: Option<string>)
    ensures panic.None? <==> s.result == expected
    ensures panic.Some? ==> panic.value == "Expected " + Decimal(expected) + " but got " + Decimal(s.result)
  {
    if s.result != expected then Some("Expected " + Decimal(expected) + " but got " + Decimal(s.result))
    else None
  }

  /** "Should see error <message>": panics exactly when Error differs, so "" checks for no error. */
  function ShouldSeeError(s: Suite, message: string): (panic: Option<string>)
    ensures panic.None? <==> s.error == message
  {
    if s.error != message then Some("Expected error '" + message + "' but got '" + s.error + "'")
    else None
  }

  /** One row of the calculation table, its cells already read as integers. */
  datatype Row = Row(operation: string, first: int, second: int, expected: int)

  /** The table step either runs every row or panics at the first row whose Result is off (see PanicEndsTable). */
  datatype TableRun = Completed(state: Suite) | Panicked(state: Suite, message: string)

  /** The Result one table row leaves: an unknown operation keeps the old one, a zero divisor gives 0. */
  function RowResult(s: Suite, row: Row): int
  {
    match row.operation
    case "add" => Add(row.first, row.second)
    case "subtract" => Subtract(row.first, row.second)
    case "multiply" => Multiply(row.first, row.second)
    case "divide" => Divide(row.first, row.second).value
    case _ => s.result
  }

  /** "Perform calculation with data table". */
  function PerformCalculation(s: Suite, rows: seq<Row>): (r: TableRun)
    ensures r.state.error == s.error
    ensures rows == [] ==> r == Completed(s)
    ensures r.Panicked? ==>
              exists k :: 0 <= k < |rows| && r.state.numbers == [rows[k].first, rows[k].second]
                          && r.state.result != rows[k].expected
    ensures r.Completed? && rows != [] ==>
              r.state.numbers == [rows[|rows| - 1].first, rows[|rows| - 1].second]
              && r.state.result == rows[|rows| - 1].expected
    decreases |rows|
  {
    if rows == [] then Completed(s)
    else
      var row := rows[0];
      var next := s.(numbers := [row.first, row.second], result := RowResult(s, row));
      if next.result != row.expected then
        Panicked(next, "For " + row.operation + "(" + Decimal(row.first) + ", " + Decimal(row.second)
                       + "): expected " + Decimal(row.expected) + " but got " + Decimal(next.result))
      else PerformCalculation(next, rows[1..])
  }

  /** A row is right when its expected cell is what its (known) operation computes. */
  ghost predicate RowHolds(row: Row)
    requires row.operation in Operations
  {
    row.expected == Calculated(row.operation, row.first, row.second)
  }

  lemma RowResultIsCalculated(s: Suite, row: Row)
    requires row.operation in Operations
    ensures RowResult(s, row) == Calculated(row.operation, row.first, row.second)
  {
    if row.operation == "divide" && row.second != 0 {
      QuotUnique(row.first, row.second, RowResult(s, row));
    }
  }

  /**
   With only known operations, the table step completes exactly when every row
   holds, and then the globals hold the last row's numbers and answer, with Error untouched.
   */
  lemma {:induction false} PerformCalculationChecksEveryRow(s: Suite, rows: seq<Row>)
    requires forall i :: 0 <= i < |rows| ==> rows[i].operation in Operations
    ensures PerformCalculation(s, rows).Completed? <==> forall i :: 0 <= i < |rows| ==> RowHolds(rows[i])
    ensures PerformCalculation(s, rows).state.error == s.error
    ensures PerformCalculation(s, rows).Completed? && rows != [] ==>
              var last := rows[|rows| - 1];
              PerformCalculation(s, rows).state == Suite([last.first, last.second], last.expected, s.error)
    decreases |rows|
  {
    if rows != [] {
      var row := rows[0];
      RowResultIsCalculated(s, row);
      var next := s.(numbers := [row.first, row.second], result := RowResult(s, row));
      if next.result == row.expected {
        PerformCalculationChecksEveryRow(next, rows[1..]);
        assert forall i :: 1 <= i < |rows| ==> rows[i] == rows[1..][i - 1];
        if |rows| > 1 {
          assert rows[1..][|rows[1..]| - 1] == rows[|rows| - 1];
        }
      }
    }
  }

  /**
   Row k is the first row of the table that does not hold, and the globals
   t are what that row leaves: its numbers and its computed answer.
   */
  ghost predicate FirstFailureAt(s: Suite, rows: seq<Row>, k: int, t: Suite)
    requires forall i :: 0 <= i < |rows| ==> rows[i].operation in Operations
  {
    && 0 <= k < |rows|
    && !RowHolds(rows[k])
    && (forall j :: 0 <= j < k ==> RowHolds(rows[j]))
    && t == Suite([rows[k].first, rows[k].second],
                  Calculated(rows[k].operation, rows[k].first, rows[k].second), s.error)
  }

  /**
   With only known operations, a table step that panics does so at the first
   row that does not hold: every earlier row holds, and the globals keep that
   row's numbers and its computed answer.
   */
  lemma {:induction false} PanicAtFirstFailingRow(s: Suite, rows: seq<Row>)
    requires forall i :: 0 <= i < |rows| ==> rows[i].operation in Operations
    ensures PerformCalculation(s, rows).Panicked? ==>
              exists k :: FirstFailureAt(s, rows, k, PerformCalculation(s, rows).state)
    decreases |rows|
  {
    if rows != [] {
      var row := rows[0];
      RowResultIsCalculated(s, row);
      var next := s.(numbers := [row.first, row.second], result := RowResult(s, row));
      if next.result != row.expected {
        assert FirstFailureAt(s, rows, 0, PerformCalculation(s, rows).state);
      } else if PerformCalculation(next, rows[1..]).Panicked? {
        var tail := rows[1..];
        PanicAtFirstFailingRow(next, tail);
        var k' :| FirstFailureAt(next, tail, k', PerformCalculation(next, tail).state);
        ShiftFirstFailure(s, next, rows, k', PerformCalculation(s, rows).state);
      }
    }
  }

  /** A first failure in the rows after a holding first row is a first failure of the whole table. */
  lemma ShiftFirstFailure(s: Suite, next: Suite, rows: seq<Row>, k: int, t: Suite)
    requires forall i :: 0 <= i < |rows| ==> rows[i].operation in Operations
    requires |rows| > 0 && RowHolds(rows[0]) && next.error == s.error
    requires FirstFailureAt(next, rows[1..], k, t)
    ensures FirstFailureAt(s, rows, k + 1, t)
  {
    var tail := rows[1..];
    assert rows[k + 1] == tail[k];
    assert forall j :: 1 <= j < k + 1 ==> rows[j] == tail[j - 1];
  }

  /** Once a row panics the step is over: rows after it never run, whatever their operations. */
  lemma {:induction false} PanicEndsTable(s: Suite, rows: seq<Row>, later: seq<Row>)
    requires PerformCalculation(s, rows).Panicked?
    ensures PerformCalculation(s, rows + later) == PerformCalculation(s, rows)
    decreases |rows|
  {
    var row := rows[0];
    var next := s.(numbers := [row.first, row.second], result := RowResult(s, row));
    assert (rows + later)[0] == row;
    if next.result == row.expected {
      assert (rows + later)[1..] == rows[1..] + later;
      PanicEndsTable(next, rows[1..], later);
    }
  }

  /**
   A row naming no known operation leaves the previous Result in place and
   compares that against its expected cell.
   */
  lemma UnknownRowCarries(s: Suite, row: Row, rest: seq<Row>)
    requires row.operation !in Operations
    ensures RowResult(s, row) == s.result
    ensures PerformCalculation(s, [row] + rest).Completed? ==> s.result == row.expected
    ensures s.result == row.expected ==>
              PerformCalculation(s, [row] + rest)
                == PerformCalculation(s.(numbers := [row.first, row.second]), rest)
  {
    assert ([row] + rest)[0] == row && ([row] + rest)[1..] == rest;
  }

  /** A later successful press does not clear an error an earlier step recorded. */
  lemma ErrorOutlivesSuccess(s: Suite)
    requires |s.numbers| >= 2
    ensures Press(s, "add").error == s.error
    ensures Press(Press(s, "unknown"), "add").error == "unknown operation: unknown"
  {
  }
}
