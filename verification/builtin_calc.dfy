/**
 The calculator of the built-in `testing` example (package calc): plain
 integer helpers, where division by zero quietly yields 0.
 */
module BuiltinCalc {
  import opened GoBase

  function Sum(a: int, b: int): int
  {
    a + b
  }

  function Multiply(a: int, b: int): int
  {
    a * b
  }

  /** Division that signals nothing on a zero divisor: the answer is simply 0. */
  function Divide(a: int, b: int): (q: int)
    ensures b == 0 ==> q == 0
    ensures b != 0 ==> IsTruncatedQuotient(a, b, q)
  {
    if b == 0 then 0 else Quot(a, b)
  }

  /** For a non-zero divisor, Divide's answer is the only integer obeying Go's truncation law. */
  lemma DivideIsGoQuotient(a: int, b: int)
    ensures b != 0 ==> forall q :: IsTruncatedQuotient(a, b, q) ==> q == Divide(a, b)
  {
    if b != 0 {
      forall q | IsTruncatedQuotient(a, b, q)
        ensures q == Divide(a, b)
      {
        QuotUnique(a, b, q);
      }
    }
  }

  /** The table-driven Sum cases: 0 acts as an identity. */
  lemma SumTableCases()
    ensures Sum(2, 3) == 5 && Sum(-1, -2) == -3 && Sum(0, 5) == 5 && Sum(0, 0) == 0
    ensures Sum(1000, 2000) == 3000
  {
  }

  /** The table-driven Divide cases: truncation, and 0 for a zero divisor. */
  lemma DivideTableCases()
    ensures Divide(6, 2) == 3 && Divide(5, 0) == 0 && Divide(-6, 2) == -3
  {
    QuotRoundsTowardZero();
  }

  /** Sum and Multiply are exact: 0 is Sum's identity and 1 is Multiply's. */
  lemma Identities(a: int)
    ensures Sum(a, 0) == a && Sum(0, a) == a
    ensures Multiply(a, 1) == a && Multiply(a, 0) == 0
  {
  }
}
