/**
 * mathutil/sum.go: SumInts and SumDurations. A duration is an int of
 * nanoseconds; Go's 64-bit wrap-around is not modelled.
 */
module MathSum {

  /** The sum of s, accumulated left to right as the Go loops do. */
  function Sum(s: seq<int>): int {
    if |s| == 0 then 0 else Sum(s[..|s| - 1]) + s[|s| - 1]
  }

  lemma {:induction false} SumConcat(a: seq<int>, b: seq<int>)
    ensures Sum(a + b) == Sum(a) + Sum(b)
    decreases |b|
  {
    if |b| > 0 {
      assert (a + b)[..|a + b| - 1] == a + b[..|b| - 1];
      SumConcat(a, b[..|b| - 1]);
    } else {
      assert a + b == a;
    }
  }

  /** Summing a permutation gives the same total. */
  lemma {:induction false} SumPermutation(a: seq<int>, b: seq<int>)
    requires multiset(a) == multiset(b)
    ensures Sum(a) == Sum(b)
    decreases |a|
  {
    if |a| == 0 {
      assert |b| == |multiset(b)| == 0;
    } else {
      var x := a[|a| - 1];
      assert a == a[..|a| - 1] + [x];
      assert x in multiset(b);
      var i :| 0 <= i < |b| && b[i] == x;
      var rest := b[..i] + b[i + 1..];
      assert b == b[..i] + [x] + b[i + 1..];
      assert multiset(b) == multiset(b[..i]) + multiset{x} + multiset(b[i + 1..]);
      assert multiset(a) == multiset(a[..|a| - 1]) + multiset{x};
      assert multiset(rest) == multiset(b[..i]) + multiset(b[i + 1..]);
      assert multiset(a[..|a| - 1]) == multiset(a) - multiset{x};
      assert multiset(rest) == multiset(b) - multiset{x};
      SumPermutation(a[..|a| - 1], rest);
      SumConcat(b[..i] + [x], b[i + 1..]);
      SumConcat(b[..i], [x]);
      SumConcat(b[..i], b[i + 1..]);
    }
  }

  /** n copies of lo bound the sum below and n copies of hi above. */
  lemma {:induction false} SumBounds(s: seq<int>, lo: int, hi: int)
    requires forall i :: 0 <= i < |s| ==> lo <= s[i] <= hi
    ensures |s| * lo <= Sum(s) <= |s| * hi
    decreases |s|
  {
    if |s| > 0 {
      SumBounds(s[..|s| - 1], lo, hi);
    }
  }

  method SumInts(values: seq<int>) returns (total: int)
    ensures total == Sum(values)
  {
    total := 0;
    var x := 0;
    while x < |values|
      invariant 0 <= x <= |values|
      invariant total == Sum(values[..x])
    {
      assert values[..x + 1][..x] == values[..x];
      total := total + values[x];
      x := x + 1;
    }
    assert values[..x] == values;
  }

  method SumDurations(values: seq<int>) returns (total: int)
    ensures total == Sum(values)
  {
    total := 0;
    var x := 0;
    while x < |values|
      invariant 0 <= x <= |values|
      invariant total == Sum(values[..x])
    {
      assert values[..x + 1][..x] == values[..x];
      total := total + values[x];
      x := x + 1;
    }
    assert values[..x] == values;
  }
}
