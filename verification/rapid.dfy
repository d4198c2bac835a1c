/**
 The rapid example: a stack driven by random pushes and pops, a Counter and
 a key-value Map each checked against an abstract model, rune-wise string
 reversal, and a sortedness test. The random draws become inputs.
 */
module Rapid {
  import opened GoBase
  import opened Seqs

  // ----- Stack -----

  /** One random stack operation: push a drawn value, or pop. */
  datatype StackOp = Push(value: int) | Pop

  /** Push appends; Pop drops the last element, and does nothing on an empty stack. */
  function StackStep(stack: seq<int>, op: StackOp): (r: seq<int>)
    ensures op.Push? ==> r == stack + [op.value]
    ensures op.Pop? && stack == [] ==> r == []
    ensures op.Pop? && stack != [] ==> r + [stack[|stack| - 1]] == stack
  {
    match op
    case Push(v) => stack + [v]
    case Pop => if |stack| > 0 then stack[..|stack| - 1] else stack
  }

  /** The stack after a run of operations, applied first to last to an empty stack. */
  function RunSteps(ops: seq<StackOp>): seq<int>
  {
    if ops == [] then [] else StackStep(RunSteps(ops[..|ops| - 1]), ops[|ops| - 1])
  }

  /** The values pushed by a run of operations, in order. */
  function Pushed(ops: seq<StackOp>): seq<int>
  {
    if ops == [] then []
    else (if ops[0].Push? then [ops[0].value] else []) + Pushed(ops[1..])
  }

  /** A pop undoes the push before it. */
  lemma PopUndoesPush(stack: seq<int>, v: int)
    ensures StackStep(StackStep(stack, Push(v)), Pop) == stack
  {
    assert (stack + [v])[..|stack|] == stack;
  }

  lemma {:induction false} PushedAppend(ops: seq<StackOp>, op: StackOp)
    ensures Pushed(ops + [op]) == Pushed(ops) + (if op.Push? then [op.value] else [])
  {
    if ops == [] {
      assert [] + [op] == [op];
    } else {
      assert (ops + [op])[1..] == ops[1..] + [op];
      PushedAppend(ops[1..], op);
    }
  }

  /** Every value lies in 0..100, the range the stack test draws pushes from. */
  ghost predicate InDrawRange(xs: seq<int>)
  {
    forall k :: 0 <= k < |xs| ==> 0 <= xs[k] <= 100
  }

  /** One step adds at most the pushed value to the stack's contents. */
  lemma StackStepContents(stack: seq<int>, op: StackOp)
    ensures multiset(StackStep(stack, op)) <= multiset(stack) + multiset(if op.Push? then [op.value] else [])
  {
    if op.Pop? && stack != [] {
      assert stack == StackStep(stack, op) + [stack[|stack| - 1]];
    }
  }

  /** Values drawn from a sub-multiset of an in-range sequence are in range. */
  lemma SubContentsInRange(xs: seq<int>, ys: seq<int>)
    requires multiset(xs) <= multiset(ys)
    requires InDrawRange(ys)
    ensures InDrawRange(xs)
  {
    forall k | 0 <= k < |xs|
      ensures 0 <= xs[k] <= 100
    {
      assert xs[k] in multiset(xs);
      assert xs[k] in multiset(ys);
    }
  }

  /**
   The operation loop of the stack test: the stack is the run of StackStep over
   the operations; every element left on it was
   pushed (with multiplicity), so the stack is never longer than the number of
   pushes, and with pushes drawn from 0..100 it only ever holds values in 0..100.
   */
  method RunStack(ops: seq<StackOp>) returns (stack: seq<int>)
    ensures stack == RunSteps(ops)
    ensures multiset(stack) <= multiset(Pushed(ops))
    ensures |stack| <= |Pushed(ops)|
    ensures InDrawRange(Pushed(ops)) ==> InDrawRange(stack)
  {
    stack := [];
    var i := 0;
    while i < |ops|
      invariant 0 <= i <= |ops|
      invariant stack == RunSteps(ops[..i])
      invariant multiset(stack) <= multiset(Pushed(ops[..i]))
    {
      assert ops[..i + 1] == ops[..i] + [ops[i]];
      assert ops[..i + 1][..i] == ops[..i];
      PushedAppend(ops[..i], ops[i]);
      StackStepContents(stack, ops[i]);
      stack := StackStep(stack, ops[i]);
      i := i + 1;
    }
    assert ops[..i] == ops;
    var pushed := multiset(Pushed(ops));
    assert pushed == multiset(stack) + (pushed - multiset(stack));
    if InDrawRange(Pushed(ops)) {
      SubContentsInRange(stack, Pushed(ops));
    }
  }

  // ----- Counter -----

  datatype Counter = Counter(value: int)

  function Increment(c: Counter): (r: Counter)
    ensures r.value == c.value + 1
  {
    c.(value := c.value + 1)
  }

  function Decrement(c: Counter): (r: Counter)
    ensures r.value == c.value - 1
  {
    c.(value := c.value - 1)
  }

  /** Whatever the count was, it is zero afterwards. */
  function Reset(c: Counter): (r: Counter)
    ensures r.value == 0
  {
    Counter(0)
  }

  function Value(c: Counter): (v: int)
    ensures v == c.value
  {
    c.value
  }

  /** Increment adds one, Decrement takes one away, Reset returns to zero, and Value reads the count. */
  lemma CounterMethods(c: Counter)
    ensures Value(Increment(c)) == Value(c) + 1
    ensures Value(Decrement(c)) == Value(c) - 1
    ensures Value(Reset(c)) == 0
    ensures Decrement(Increment(c)) == c
  {
  }

  /** The operation drawn from 0..2 in the counter test. */
  datatype CounterOp = IncrementOp | DecrementOp | ResetOp

  function ApplyCounter(c: Counter, op: CounterOp): Counter
  {
    match op
    case IncrementOp => Increment(c)
    case DecrementOp => Decrement(c)
    case ResetOp => Reset(c)
  }

  /** The counter after the operations, applied first to last. */
  function RunCounter(c: Counter, ops: seq<CounterOp>): Counter
  {
    if ops == [] then c else ApplyCounter(RunCounter(c, ops[..|ops| - 1]), ops[|ops| - 1])
  }

  /** The operations after the last reset (all of them if there is none). */
  function SinceLastReset(ops: seq<CounterOp>): (r: seq<CounterOp>)
    ensures |r| <= |ops| && r == ops[|ops| - |r|..]
    ensures ResetOp !in r
    ensures |r| < |ops| ==> ops[|ops| - |r| - 1] == ResetOp
  {
    if ops == [] then []
    else if ops[|ops| - 1] == ResetOp then []
    else SinceLastReset(ops[..|ops| - 1]) + [ops[|ops| - 1]]
  }

  /**
   The counter's value in closed form: the increments minus the decrements since
   the last reset, on top of the starting value if nothing reset it.
   */
  lemma {:induction false} RunCounterClosedForm(c: Counter, ops: seq<CounterOp>)
    ensures var since := multiset(SinceLastReset(ops));
            Value(RunCounter(c, ops))
              == (if ResetOp in ops then 0 else c.value) + since[IncrementOp] - since[DecrementOp]
  {
    if ops != [] {
      var prefix, last := ops[..|ops| - 1], ops[|ops| - 1];
      assert ops == prefix + [last];
      RunCounterClosedForm(c, prefix);
      if last != ResetOp {
        assert SinceLastReset(ops) == SinceLastReset(prefix) + [last];
        assert (ResetOp in ops) == (ResetOp in prefix);
      }
    }
  }

  /**
   The counter test: it applies each operation to the Counter and to the
   expected value in step, and fails if they ever differ. It never fails.
   */
  method CounterTest(ops: seq<CounterOp>) returns (mismatch: bool)
    ensures !mismatch
  {
    var counter := Counter(0);
    var expectedValue := 0;
    mismatch := false;
    var i := 0;
    while i < |ops|
      invariant 0 <= i <= |ops|
      invariant !mismatch
      invariant Value(counter) == expectedValue
    {
      counter := ApplyCounter(counter, ops[i]);
      match ops[i] {
        case IncrementOp => expectedValue := expectedValue + 1;
        case DecrementOp => expectedValue := expectedValue - 1;
        case ResetOp => expectedValue := 0;
      }
      if Value(counter) != expectedValue {
        mismatch := true;
        return;
      }
      i := i + 1;
    }
  }

  // ----- Map -----

  datatype Map = Map(data: map<string, int>)

  /** What Get hands back: the value (0 when absent, Go's zero value) and whether the key exists. */
  datatype Lookup = Lookup(value: int, found: bool)

  function NewMap(): (m: Map)
    ensures Size(m) == 0
  {
    Map(map[])
  }

  function Get(m: Map, key: string): (r: Lookup)
    ensures r.found <==> key in m.data
    ensures r.found ==> r.value == m.data[key]
    ensures !r.found ==> r.value == 0
  {
    if key in m.data then Lookup(m.data[key], true) else Lookup(0, false)
  }

  function Set(m: Map, key: string, value: int): (r: Map)
    ensures Get(r, key) == Lookup(value, true)
    ensures forall k :: k != key ==> Get(r, k) == Get(m, k)
  {
    Map(m.data[key := value])
  }

  function Delete(m: Map, key: string): (r: Map)
    ensures !Get(r, key).found
    ensures forall k :: k != key ==> Get(r, k) == Get(m, k)
    ensures key !in m.data ==> r == m
  {
    Map(m.data - {key})
  }

  /** The number of keys present. */
  function Size(m: Map): (n: nat)
    ensures n == |m.data.Keys|
  {
    |m.data|
  }

  /** Set grows the map by one exactly when the key is new; Delete shrinks it by one exactly when the key was there. */
  lemma SizeChanges(m: Map, key: string, value: int)
    ensures Size(Set(m, key, value)) == Size(m) + (if key in m.data then 0 else 1)
    ensures Size(Delete(m, key)) == Size(m) - (if key in m.data then 1 else 0)
  {
    if key in m.data {
      assert Set(m, key, value).data.Keys == m.data.Keys;
      assert m.data.Keys == (m.data.Keys - {key}) + {key};
    } else {
      assert Set(m, key, value).data.Keys == m.data.Keys + {key};
      assert Delete(m, key).data.Keys == m.data.Keys;
    }
  }

  /** The operation drawn in the map test, with its drawn key (and value). */
  datatype MapOp = SetOp(key: string, value: int) | GetOp(key: string) | DeleteOp(key: string)

  /**
   The map test: applies each operation to the Map and to a plain model map,
   comparing every Get and the size after each step. It never reports a failure.
   */
  method MapTest(ops: seq<MapOp>) returns (failure: Option<string>)
    ensures failure.None?
  {
    var m := NewMap();
    var model: map<string, int> := map[];
    failure := None;
    var i := 0;
    while i < |ops|
      invariant 0 <= i <= |ops|
      invariant failure.None?
      invariant m.data == model
    {
      match ops[i] {
        case SetOp(key, value) =>
          m := Set(m, key, value);
          model := model[key := value];
        case GetOp(key) =>
          var got := Get(m, key);
          var expectedExists := key in model;
          if got.found != expectedExists {
            failure := Some("existence mismatch for key " + key);
            return;
          }
          if got.found && got.value != model[key] {
            failure := Some("value mismatch for key " + key + ": got " + Decimal(got.value)
                             + ", expected " + Decimal(model[key]));
            return;
          }
        case DeleteOp(key) =>
          m := Delete(m, key);
          model := model - {key};
      }
      if Size(m) != |model| {
        failure := Some("size mismatch: got " + Decimal(Size(m)) + ", expected " + Decimal(|model|));
        return;
      }
      i := i + 1;
    }
  }

  // ----- Strings and slices -----

  /** reverseString on the string's runes: swap the ends, moving inward until the indices meet. */
  method ReverseString(s: seq<char>) returns (r: seq<char>)
    ensures |r| == |s|
    ensures r == Reversed(s)
  {
    r := s;
    var i, j := 0, |s| - 1;
    while i < j
      invariant 0 <= i && j == |s| - 1 - i && i <= j + 1
      invariant |r| == |s|
      invariant forall k :: 0 <= k < i ==> r[k] == s[|s| - 1 - k] && r[|s| - 1 - k] == s[k]
      invariant forall k :: i <= k <= j ==> r[k] == s[k]
      decreases j - i
    {
      r := r[i := r[j]][j := r[i]];
      i, j := i + 1, j - 1;
    }
    forall k | 0 <= k < |s|
      ensures r[k] == Reversed(s)[k]
    {
      if k >= i && k <= j {
        assert k == |s| - 1 - k;
      } else if k > j {
        var m := |s| - 1 - k;
        assert m < i;
      }
    }
  }

  /** Every adjacent pair is in non-decreasing order. */
  ghost predicate AdjacentOrdered(s: seq<int>)
  {
    forall i :: 0 < i < |s| ==> s[i - 1] <= s[i]
  }

  /** Every pair is in order, however far apart. */
  ghost predicate Ordered(s: seq<int>)
  {
    forall i, j :: 0 <= i < j < |s| ==> s[i] <= s[j]
  }

  /** Checking neighbours is enough: adjacent order is order. */
  lemma AdjacentOrderedIsOrdered(s: seq<int>)
    ensures AdjacentOrdered(s) <==> Ordered(s)
  {
    if AdjacentOrdered(s) {
      forall i, j | 0 <= i < j < |s|
        ensures s[i] <= s[j]
      {
        AdjacentChain(s, i, j);
      }
    }
  }

  lemma {:induction false} AdjacentChain(s: seq<int>, i: int, j: int)
    requires AdjacentOrdered(s)
    requires 0 <= i <= j < |s|
    ensures s[i] <= s[j]
    decreases j - i
  {
    if i < j {
      AdjacentChain(s, i, j - 1);
    }
  }

  /** isSorted: scans for a descent between neighbours. */
  method IsSorted(slice: seq<int>) returns (sorted: bool)
    ensures sorted <==> AdjacentOrdered(slice)
  {
    var i := 1;
    while i < |slice|
      invariant 1 <= i <= |slice| || (|slice| == 0 && i == 1)
      invariant forall k :: 0 < k < i && k < |slice| ==> slice[k - 1] <= slice[k]
    {
      if slice[i - 1] > slice[i] {
        return false;
      }
      i := i + 1;
    }
    return true;
  }

  /**
   The sorted-slice generator: a first element, then each element the previous
   one plus a drawn non-negative increment. What it builds is sorted.
   */
  method GenerateSorted(size: nat, first: int, increments: seq<int>) returns (slice: seq<int>)
    requires size == 0 || |increments| == size - 1
    requires forall k :: 0 <= k < |increments| ==> increments[k] >= 0
    ensures |slice| == size
    ensures size > 0 ==> slice[0] == first
    ensures forall k :: 0 < k < size ==> slice[k] == slice[k - 1] + increments[k - 1]
    ensures AdjacentOrdered(slice)
  {
    slice := seq(size, _ => 0);
    if size > 0 {
      slice := slice[0 := first];
    }
    var i := 1;
    while i < size
      invariant 1 <= i <= size || (size == 0 && i == 1)
      invariant |slice| == size
      invariant size > 0 ==> slice[0] == first
      invariant forall k :: 0 < k < i && k < size ==> slice[k] == slice[k - 1] + increments[k - 1]
    {
      slice := slice[i := slice[i - 1] + increments[i - 1]];
      i := i + 1;
    }
  }
}
