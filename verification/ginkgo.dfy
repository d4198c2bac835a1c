/**
 The Ginkgo/Gomega example's Calculator: exact integer operations, a
 division that fails with ErrDivisionByZero, a sign test and a slice sum.
 The Calculator struct has no fields, so its methods are plain functions here.
 */
module Ginkgo {
  import opened GoBase

  function Add(a: int, b: int): int
  {
    a + b
  }

  function Subtract(a: int, b: int): int
  {
    a - b
  }

  function Multiply(a: int, b: int): int
  {
    a * b
  }

  /** This package's error for a zero divisor; its message differs from the testify one. */
  const ErrDivisionByZero: Error := Error("cannot divide by zero")

  function Divide(a: int, b: int): (r: Returns<int>)
    ensures b == 0 <==> r.err.Some?
    ensures b == 0 ==> r.value == 0 && r.err.value.message == "cannot divide by zero"
    ensures b != 0 ==> IsTruncatedQuotient(a, b, r.value)
  {
    if b == 0 then Returns(0, Some(ErrDivisionByZero)) else Returns(Quot(a, b), None)
  }

  /** True from 1 upward; zero and the negatives are not positive. */
  function IsPositive(n: int): (positive: bool)
    ensures positive <==> n >= 1
  {
    n > 0
  }

  /** Add, Subtract and Multiply undo and distribute as integer arithmetic does. */
  lemma ArithmeticLaws(a: int, b: int, c: int)
    ensures Add(a, b) == Add(b, a)
    ensures Subtract(Add(a, b), b) == a
    ensures Multiply(a, Add(b, c)) == Add(Multiply(a, b), Multiply(a, c))
  {
  }

  /** IsPositive holds exactly from 1 upward, so zero is not positive. */
  lemma IsPositiveBoundary(n: int)
    ensures IsPositive(n) <==> n >= 1
    ensures !IsPositive(0)
  {
  }

  /** The reference sum of a slice, first element first. */
  function Total(xs: seq<int>): int
  {
    if xs == [] then 0 else xs[0] + Total(xs[1..])
  }

  /** Appending an element adds it to the total. */
  lemma {:induction false} TotalAppend(xs: seq<int>, x: int)
    ensures Total(xs + [x]) == Total(xs) + x
  {
    if xs == [] {
      assert [] + [x] == [x];
    } else {
      assert (xs + [x])[1..] == xs[1..] + [x];
      TotalAppend(xs[1..], x);
    }
  }

  /** Total distributes over concatenation. */
  lemma {:induction false} TotalConcat(xs: seq<int>, ys: seq<int>)
    ensures Total(xs + ys) == Total(xs) + Total(ys)
  {
    if xs == [] {
      assert [] + ys == ys;
    } else {
      assert (xs + ys)[1..] == xs[1..] + ys;
      TotalConcat(xs[1..], ys);
    }
  }

  /** The range loop of Calculator.Sum: 0 for an empty slice, otherwise every element added once. */
  method Sum(numbers: seq<int>) returns (total: int)
    ensures total == Total(numbers)
    ensures numbers == [] ==> total == 0
  {
    total := 0;
    var i := 0;
    while i < |numbers|
      invariant 0 <= i <= |numbers|
      invariant total == Total(numbers[..i])
    {
      assert numbers[..i + 1] == numbers[..i] + [numbers[i]];
      TotalAppend(numbers[..i], numbers[i]);
      total := total + numbers[i];
      i := i + 1;
    }
    assert numbers[..i] == numbers;
  }
}
