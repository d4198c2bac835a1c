/**
 The godog example: a Calculator and the scenario context its step
 definitions mutate. Each step is a transition from one context to the next,
 together with the error the step function returns (a non-nil one fails the step).
 */
module Godog {
  import opened GoBase

  function Add(a: int, b: int): int
  {
    a + b
  }

  function Subtract(a: int, b: int): int
  {
    a - b
  }

  function Multiply(a: int, b: int): int
  {
    a * b
  }

  /** Division whose zero-divisor error is built with fmt.Errorf. */
  function Divide(a: int, b: int): (r: Returns<int>)
    ensures b == 0 <==> r.err.Some?
    ensures b == 0 ==> r.value == 0 && r.err.value.message == "cannot divide by zero"
    ensures b != 0 ==> IsTruncatedQuotient(a, b, r.value)
  {
    if b == 0 then Returns(0, Some(Error("cannot divide by zero"))) else Returns(Quot(a, b), None)
  }

  /** The calculatorContext: numbers entered so far, the last result and the last division error. */
  datatype Context = Context(numbers: seq<int>, result: int, err: Option<Error>)

  /** The context after a step, and the error the step returned. */
  datatype Stepped = Stepped(next: Context, failure: Option<Error>)

  const NeedTwoNumbers: Error := Error("need at least 2 numbers")

  /** "a calculator": whatever came before, the context starts afresh. */
  function ACalculator(cc: Context): (r: Stepped)
    ensures r.next.numbers == [] && r.next.result == 0 && r.next.err.None?
    ensures r.failure.None?
  {
    Stepped(Context([], 0, None), None)
  }

  /** "I have entered N into the calculator": N joins the end of the entered numbers. */
  function IHaveEnteredIntoTheCalculator(cc: Context, number: int): (r: Stepped)
    ensures r.next.numbers == cc.numbers + [number]
    ensures r.next.result == cc.result && r.next.err == cc.err
    ensures r.failure.None?
  {
    Stepped(cc.(numbers := cc.numbers + [number]), None)
  }

  function IPressAdd(cc: Context): (r: Stepped)
    ensures |cc.numbers| < 2 ==> r == Stepped(cc, Some(NeedTwoNumbers))
    ensures |cc.numbers| >= 2 ==>
              r.failure.None? && r.next == cc.(result := cc.numbers[0] + cc.numbers[1])
  {
    if |cc.numbers| < 2 then Stepped(cc, Some(NeedTwoNumbers))
    else Stepped(cc.(result := Add(cc.numbers[0], cc.numbers[1])), None)
  }

  function IPressSubtract(cc: Context): (r: Stepped)
    ensures |cc.numbers| < 2 ==> r == Stepped(cc, Some(NeedTwoNumbers))
    ensures |cc.numbers| >= 2 ==>
              r.failure.None? && r.next == cc.(result := cc.numbers[0] - cc.numbers[1])
  {
    if |cc.numbers| < 2 then Stepped(cc, Some(NeedTwoNumbers))
    else Stepped(cc.(result := Subtract(cc.numbers[0], cc.numbers[1])), None)
  }

  function IPressMultiply(cc: Context): (r: Stepped)
    ensures |cc.numbers| < 2 ==> r == Stepped(cc, Some(NeedTwoNumbers))
    ensures |cc.numbers| >= 2 ==>
              r.failure.None? && r.next == cc.(result := cc.numbers[0] * cc.numbers[1])
  {
    if |cc.numbers| < 2 then Stepped(cc, Some(NeedTwoNumbers))
    else Stepped(cc.(result := Multiply(cc.numbers[0], cc.numbers[1])), None)
  }

  /**
   Division stores both of Divide's results: a zero divisor leaves result 0 and the
   error in the context, yet the step itself succeeds; a good division clears any
   earlier error.
   */
  function IPressDivide(cc: Context): (r: Stepped)
    ensures |cc.numbers| < 2 ==> r == Stepped(cc, Some(NeedTwoNumbers))
    ensures |cc.numbers| >= 2 ==> r.failure.None? && r.next.numbers == cc.numbers
    ensures |cc.numbers| >= 2 && cc.numbers[1] == 0 ==>
              r.next.result == 0 && r.next.err == Some(Error("cannot divide by zero"))
    ensures |cc.numbers| >= 2 && cc.numbers[1] != 0 ==>
              r.next.err.None? && IsTruncatedQuotient(cc.numbers[0], cc.numbers[1], r.next.result)
  {
    if |cc.numbers| < 2 then Stepped(cc, Some(NeedTwoNumbers))
    else
      var q := Divide(cc.numbers[0], cc.numbers[1]);
      Stepped(cc.(result := q.value, err := q.err), None)
  }

  /** "I press <operation>": dispatches on the operation's name. */
  function IPressOperation(cc: Context, operation: string): (r: Stepped)
    ensures operation == "add" ==> r == IPressAdd(cc)
    ensures operation == "subtract" ==> r == IPressSubtract(cc)
    ensures operation == "multiply" ==> r == IPressMultiply(cc)
    ensures operation == "divide" ==> r == IPressDivide(cc)
    ensures operation !in Operations ==>
              r == Stepped(cc, Some(Error("unknown operation: " + operation)))
  {
    match operation
    case "add" => IPressAdd(cc)
    case "subtract" => IPressSubtract(cc)
    case "multiply" => IPressMultiply(cc)
    case "divide" => IPressDivide(cc)
    case _ => Stepped(cc, Some(Error("unknown operation: " + operation)))
  }

  /** "the result should be N on the screen". */
  function TheResultShouldBeOnTheScreen(cc: Context, expected: int): (r: Option<Error>)
    ensures r.None? <==> cc.result == expected
    ensures r.Some? ==> r.value.message == "expected " + Decimal(expected) + ", got " + Decimal(cc.result)
  {
    if cc.result != expected then Some(Error("expected " + Decimal(expected) + ", got " + Decimal(cc.result)))
    else None
  }

  /** "I should see an error message \"M\"". */
  function IShouldSeeAnErrorMessage(cc: Context, expectedMsg: string): (r: Option<Error>)
    ensures r.None? <==> cc.err.Some? && cc.err.value.message == expectedMsg
    ensures cc.err.None? ==>
              r == Some(Error("expected error with message '" + expectedMsg + "', but got no error"))
  {
    if cc.err.None? then
      Some(Error("expected error with message '" + expectedMsg + "', but got no error"))
    else if cc.err.value.message != expectedMsg then
      Some(Error("expected error '" + expectedMsg + "', got '" + cc.err.value.message + "'"))
    else None
  }

  /** The context after entering each of xs in turn. */
  function EnterAll(cc: Context, xs: seq<int>): Context
    decreases |xs|
  {
    if xs == [] then cc
    else EnterAll(IHaveEnteredIntoTheCalculator(cc, xs[0]).next, xs[1..])
  }

  /** Entering a run of numbers appends them in order and touches nothing else. */
  lemma {:induction false} EnterAllAppends(cc: Context, xs: seq<int>)
    ensures EnterAll(cc, xs) == cc.(numbers := cc.numbers + xs)
    decreases |xs|
  {
    if xs == [] {
      assert cc.numbers + [] == cc.numbers;
    } else {
      var next := IHaveEnteredIntoTheCalculator(cc, xs[0]).next;
      EnterAllAppends(next, xs[1..]);
      assert next.numbers + xs[1..] == cc.numbers + xs;
    }
  }

  /**
   A whole scenario: a start calculator, at least two numbers entered, one known
   operation pressed. The result depends on the first two numbers only, and every
   step succeeds.
   */
  lemma Scenario(xs: seq<int>, operation: string)
    requires |xs| >= 2
    requires operation in Operations
    ensures var entered := EnterAll(ACalculator(Context([], 0, None)).next, xs);
            && entered.numbers == xs
            && IPressOperation(entered, operation).failure.None?
            && IPressOperation(entered, operation).next.result == Calculated(operation, xs[0], xs[1])
  {
    var start := ACalculator(Context([], 0, None)).next;
    EnterAllAppends(start, xs);
    var entered := EnterAll(start, xs);
    assert entered.numbers == xs;
    var a, b := xs[0], xs[1];
    if operation == "add" {
      assert IPressOperation(entered, operation) == IPressAdd(entered);
    } else if operation == "subtract" {
      assert IPressOperation(entered, operation) == IPressSubtract(entered);
    } else if operation == "multiply" {
      assert IPressOperation(entered, operation) == IPressMultiply(entered);
    } else {
      assert operation == "divide";
      assert IPressOperation(entered, operation) == IPressDivide(entered);
      if b != 0 {
        QuotUnique(a, b, IPressDivide(entered).next.result);
      }
    }
  }

  /** Fewer than two numbers makes every known operation fail and leaves the context as it was. */
  lemma TooFewNumbers(cc: Context, operation: string)
    requires |cc.numbers| < 2
    requires operation in Operations
    ensures IPressOperation(cc, operation) == Stepped(cc, Some(Error("need at least 2 numbers")))
  {
  }

  /** Numbers entered after the first two never change what an operation computes. */
  lemma LaterEntriesIgnored(cc: Context, extra: seq<int>, operation: string)
    requires |cc.numbers| >= 2
    ensures var longer := cc.(numbers := cc.numbers + extra);
            && IPressOperation(longer, operation).next.result == IPressOperation(cc, operation).next.result
            && IPressOperation(longer, operation).next.err == IPressOperation(cc, operation).next.err
            && IPressOperation(longer, operation).failure == IPressOperation(cc, operation).failure
  {
    var longer := cc.(numbers := cc.numbers + extra);
    assert longer.numbers[0] == cc.numbers[0] && longer.numbers[1] == cc.numbers[1];
  }

  /** An add scenario: 50 and 70 entered, then added, show 120 on the screen. */
  lemma AddScenario()
    ensures var cc := EnterAll(ACalculator(Context([], 0, None)).next, [50, 70]);
            TheResultShouldBeOnTheScreen(IPressOperation(cc, "add").next, 120).None?
  {
    EnterAllAppends(Context([], 0, None), [50, 70]);
  }
}
