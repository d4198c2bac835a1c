/**
 The production helpers of the GoConvey example. Its division error is a
 struct type of its own whose Error() text is "division by zero".
 */
module Goconvey {
  import opened GoBase

  function Sum(a: int, b: int): int
  {
    a + b
  }

  function Multiply(a: int, b: int): int
  {
    a * b
  }

  /** The value of type errDivisionByZero. */
  const ErrDivisionByZero: Error := Error("division by zero")

  function Divide(a: int, b: int): (r: Returns<int>)
    ensures b == 0 <==> r.err.Some?
    ensures b == 0 ==> r.value == 0 && r.err.value.message == "division by zero"
    ensures b != 0 ==> IsTruncatedQuotient(a, b, r.value)
  {
    if b == 0 then Returns(0, Some(ErrDivisionByZero)) else Returns(Quot(a, b), None)
  }

  /** The Divide scenarios: even, negative and truncating division succeed; 5/0 fails with 0. */
  lemma DivideScenarios()
    ensures Divide(6, 2) == Returns(3, None)
    ensures Divide(-6, 2) == Returns(-3, None)
    ensures Divide(7, 2) == Returns(3, None)
    ensures Divide(5, 0) == Returns(0, Some(ErrDivisionByZero))
  {
    QuotRoundsTowardZero();
  }

  /** Multiply is commutative, 1 leaves its argument alone and 0 absorbs it. */
  lemma MultiplyLaws(a: int, b: int)
    ensures Multiply(a, b) == Multiply(b, a)
    ensures Multiply(a, 1) == a
    ensures Multiply(a, 0) == 0 && Multiply(0, a) == 0
  {
  }
}
