/** The reference definition of a reversed sequence, shared by the slice and rune reversals. */
module Seqs {

  /** s read back to front: element i of the result is element |s|-1-i of s. */
  function Reversed<T>(s: seq<T>): (r: seq<T>)
    ensures |r| == |s|
    ensures forall i :: 0 <= i < |s| ==> r[i] == s[|s| - 1 - i]
  {
    if s == [] then [] else Reversed(s[1..]) + [s[0]]
  }

  /** Reversing twice gives back the original sequence. */
  lemma ReversedInvolution<T>(s: seq<T>)
    ensures Reversed(Reversed(s)) == s
  {
    var rr := Reversed(Reversed(s));
    assert forall i :: 0 <= i < |s| ==> rr[i] == s[i];
  }

  /** The first element ends up last and the last ends up first. */
  lemma ReversedSwapsEnds<T>(s: seq<T>)
    requires |s| > 0
    ensures Reversed(s)[|s| - 1] == s[0]
    ensures Reversed(s)[0] == s[|s| - 1]
  {
  }
}
