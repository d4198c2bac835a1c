/**
 The gopter example's functions, with the algebraic properties its
 property-based tests sample, stated here for every integer and every slice.
 */
module Gopter {
  import opened Seqs

  function Sum(a: int, b: int): int
  {
    a + b
  }

  function Multiply(a: int, b: int): int
  {
    a * b
  }

  function Abs(x: int): (r: int)
    ensures r >= 0
    ensures r == x || r == -x
  {
    if x < 0 then -x else x
  }

  /** Sum is commutative and associative, with 0 as its identity. */
  lemma SumLaws(a: int, b: int, c: int)
    ensures Sum(a, b) == Sum(b, a)
    ensures Sum(a, 0) == a
    ensures Sum(Sum(a, b), c) == Sum(a, Sum(b, c))
  {
  }

  /** Adding a positive number increases the value. */
  lemma SumIncreases(a: int, b: int)
    requires b > 0
    ensures Sum(a, b) > a
  {
  }

  /** Multiply is commutative and associative, 1 is its identity and 0 its annihilator. */
  lemma MultiplyLaws(a: int, b: int, c: int)
    ensures Multiply(a, b) == Multiply(b, a)
    ensures Multiply(a, 1) == a
    ensures Multiply(a, 0) == 0
    ensures Multiply(Multiply(a, b), c) == Multiply(a, Multiply(b, c))
  {
  }

  /** Multiply distributes over Sum. */
  lemma MultiplyDistributes(a: int, b: int, c: int)
    ensures Multiply(a, Sum(b, c)) == Sum(Multiply(a, b), Multiply(a, c))
  {
  }

  /** Abs is never negative, is the identity from 0 upward, negates below 0, and is idempotent. */
  lemma AbsLaws(x: int)
    ensures Abs(x) >= 0
    ensures x >= 0 ==> Abs(x) == x
    ensures x < 0 ==> Abs(x) == -x
    ensures Abs(Abs(x)) == Abs(x)
  {
  }

  /** The loop of Reverse: the element at index i is written to index len(s)-1-i of a fresh slice. */
  method Reverse(s: seq<int>) returns (result: seq<int>)
    ensures |result| == |s|
    ensures forall i :: 0 <= i < |s| ==> result[|s| - 1 - i] == s[i]
    ensures result == Reversed(s)
  {
    result := seq(|s|, _ => 0);
    var i := 0;
    while i < |s|
      invariant 0 <= i <= |s|
      invariant |result| == |s|
      invariant forall k :: 0 <= k < i ==> result[|s| - 1 - k] == s[k]
    {
      result := result[|s| - 1 - i := s[i]];
      i := i + 1;
    }
    forall j | 0 <= j < |s|
      ensures result[j] == Reversed(s)[j]
    {
      var k := |s| - 1 - j;
      assert result[|s| - 1 - k] == s[k];
    }
  }

  /** Reversing twice returns the original, and first and last elements trade places. */
  lemma ReverseProperties(s: seq<int>)
    ensures Reversed(Reversed(s)) == s
    ensures |Reversed(s)| == |s|
    ensures |s| > 0 ==> s[0] == Reversed(s)[|s| - 1] && s[|s| - 1] == Reversed(s)[0]
  {
    ReversedInvolution(s);
    if |s| > 0 {
      ReversedSwapsEnds(s);
    }
  }
}
