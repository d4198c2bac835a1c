/**
 Values shared by every example package: Go's nil-able results, Go's `error`
 values, and Go's integer division, which rounds toward zero rather than
 Euclidean-style as Dafny's `/` does.
 */
module GoBase {

  /** A value that Go may leave nil: a pointer, or an error that may be absent. */
  datatype Option<+T> = None | Some(value: T)

  /** A Go `error`, observed through what its `Error()` method returns. */
  datatype Error = Error(message: string)

  /** What a Go function with results `(T, error)` hands back. */
  datatype Returns<+T> = Returns(value: T, err: Option<Error>)

  /** A Go call either returns normally or panics dereferencing a nil pointer. */
  datatype Outcome<+T> = Returned(result: T) | NilDereference

  /** A call of a service method: the calls it made on its dependency, in order, and its outcome. */
  datatype Traced<+C, +T> = Traced(calls: seq<C>, outcome: Outcome<T>)

  /** The magnitude of an integer. */
  function Magnitude(x: int): nat
  {
    if x < 0 then -x else x
  }

  /**
   q is what Go's `a / b` yields: the remainder `a - q * b` is smaller
   in magnitude than the divisor and is never of the opposite sign to the
   dividend, so the quotient is rounded toward zero.
   */
  ghost predicate IsTruncatedQuotient(a: int, b: int, q: int)
    requires b != 0
  {
    var r := a - q * b;
    && Magnitude(r) < Magnitude(b)
    && (a >= 0 ==> r >= 0)
    && (a < 0 ==> r <= 0)
  }

  /** Go's integer `/` on a non-zero divisor (without 64-bit wrap-around). */
  function Quot(a: int, b: int): (q: int)
    requires b != 0
    ensures IsTruncatedQuotient(a, b, q)
  {
    var m := Magnitude(a) / Magnitude(b);
    QuotOfMagnitudes(a, b, m);
    if (a < 0) == (b < 0) then m else -m
  }

  lemma QuotOfMagnitudes(a: int, b: int, m: int)
    requires b != 0
    requires m == Magnitude(a) / Magnitude(b)
    ensures IsTruncatedQuotient(a, b, if (a < 0) == (b < 0) then m else -m)
  {
    var q := if (a < 0) == (b < 0) then m else -m;
    var bm := Magnitude(b);
    var s := Magnitude(a) - m * bm;
    DivisionOfNaturals(Magnitude(a), bm, m);
    assert (a >= 0 ==> q * b == m * bm) && (a < 0 ==> q * b == -(m * bm)) by {
      SignedProduct(q, b, m, bm);
    }
    assert a - q * b == (if a >= 0 then s else -s);
  }

  lemma DivisionOfNaturals(x: nat, y: nat, m: int)
    requires y > 0 && m == x / y
    ensures 0 <= x - m * y < y
  {
  }

  lemma SignedProduct(q: int, b: int, m: int, bm: nat)
    requires bm == Magnitude(b) && (q == m || q == -m)
    ensures q * b == (if (q == m) == (b >= 0) then m * bm else -(m * bm))
  {
    if b >= 0 {
      assert bm == b;
    } else {
      assert bm == -b;
      assert m * bm == -(m * b);
    }
  }

  /** No integer other than Quot(a, b) satisfies the truncated-quotient law. */
  lemma QuotUnique(a: int, b: int, q: int)
    requires b != 0
    requires IsTruncatedQuotient(a, b, q)
    ensures q == Quot(a, b)
  {
    var p := Quot(a, b);
    var d := p - q;
    // (a - q*b) - (a - p*b) == d * b, and both remainders lie on the same side of 0
    assert (a - q * b) - (a - p * b) == d * b;
    assert Magnitude(d * b) < Magnitude(b);
    if d != 0 {
      NonZeroMultipleIsLarge(d, b);
      assert false;
    }
  }

  lemma NonZeroMultipleIsLarge(d: int, b: int)
    requires d != 0 && b != 0
    ensures Magnitude(d * b) >= Magnitude(b)
  {
    if d > 0 {
      if b > 0 { assert d * b >= b; } else { assert d * b <= b; }
    } else {
      if b > 0 { assert d * b <= -b; } else { assert d * b >= -b; }
    }
  }

  /** Go rounds toward zero where Dafny's Euclidean `/` does not: -7 / 2 is -3 in Go, -4 in Dafny. */
  lemma QuotRoundsTowardZero()
    ensures Quot(7, 2) == 3 && Quot(-7, 2) == -3 && Quot(-6, 2) == -3 && Quot(6, 2) == 3
    ensures Quot(-7, 2) != -7 / 2
  {
  }

  /** The operation names the calculator step definitions understand. */
  const Operations: set<string> := {"add", "subtract", "multiply", "divide"}

  /**
   The answer a named operation should give on a and b, stated directly on
   integers; a zero divisor is given the value 0 the Divide helpers return with their error.
   */
  ghost function Calculated(operation: string, a: int, b: int): int
    requires operation in Operations
  {
    if operation == "add" then a + b
    else if operation == "subtract" then a - b
    else if operation == "multiply" then a * b
    else if b == 0 then 0
    else Quot(a, b)
  }

  /** The decimal text `fmt` prints for `%d`. */
  function Decimal(n: int): string
    decreases if n < 0 then 1 - n else n
  {
    if n < 0 then "-" + Decimal(-n)
    else if n < 10 then [Digit(n)]
    else Decimal(n / 10) + [Digit(n % 10)]
  }

  function Digit(d: int): char
    requires 0 <= d < 10
  {
    "0123456789"[d]
  }
}
