/**
 * mathutil/copy_sort.go: copying a slice into a fresh one and sorting the
 * copy. sort.Ints and sort.Sort are specified by what they promise (the
 * result is nondecreasing and a permutation); Sort below meets that promise
 * using only the Len/Less/Swap interface of the Durations type.
 */
module MathSort {

  predicate Sorted(s: seq<int>) {
    forall i, j :: 0 <= i < j < |s| ==> s[i] <= s[j]
  }

  /** Inserts x into a sorted sequence, before the first element not below it. */
  function Insert(x: int, s: seq<int>): (r: seq<int>)
    requires Sorted(s)
    ensures Sorted(r) && multiset(r) == multiset(s) + multiset{x} && |r| == |s| + 1
  {
    if |s| == 0 then [x]
    else if x <= s[0] then [x] + s
    else
      var t := Insert(x, s[1..]);
      assert s == [s[0]] + s[1..];
      TailAbove(x, s, t);
      PrependSorted(s[0], t);
      [s[0]] + t
  }

  /** Every element of s[1..] + [x] is at least s[0] when s is sorted and s[0] < x. */
  lemma TailAbove(x: int, s: seq<int>, t: seq<int>)
    requires Sorted(s) && |s| > 0 && s[0] < x
    requires multiset(t) == multiset(s[1..]) + multiset{x}
    ensures forall k :: 0 <= k < |t| ==> s[0] <= t[k]
  {
    forall k | 0 <= k < |t|
      ensures s[0] <= t[k]
    {
      assert t[k] in multiset(t);
      if t[k] != x {
        assert t[k] in s[1..];
        var m :| 0 <= m < |s| - 1 && s[1..][m] == t[k];
        assert s[m + 1] == t[k];
      }
    }
  }

  lemma PrependSorted(h: int, t: seq<int>)
    requires Sorted(t)
    requires forall k :: 0 <= k < |t| ==> h <= t[k]
    ensures Sorted([h] + t)
  {
    var r := [h] + t;
    forall i, j | 0 <= i < j < |r|
      ensures r[i] <= r[j]
    {
      assert r[j] == t[j - 1];
      if i > 0 {
        assert r[i] == t[i - 1];
      }
    }
  }

  /** The reference sort: the nondecreasing permutation of s. */
  function SortSeq(s: seq<int>): (r: seq<int>)
    ensures Sorted(r) && multiset(r) == multiset(s) && |r| == |s|
  {
    if |s| == 0 then []
    else
      assert s == [s[0]] + s[1..];
      Insert(s[0], SortSeq(s[1..]))
  }

  /** Two sorted sequences with the same elements are equal. */
  lemma {:induction false} SortedUnique(a: seq<int>, b: seq<int>)
    requires Sorted(a) && Sorted(b) && multiset(a) == multiset(b)
    ensures a == b
    decreases |a|
  {
    SameLength(a, b);
    if |a| > 0 {
      SameFirst(a, b);
      SortedUnique(a[1..], b[1..]);
      SameHeadTail(a, b);
    }
  }

  /** Sorted sequences with the same elements start alike and continue alike. */
  lemma SameFirst(a: seq<int>, b: seq<int>)
    requires Sorted(a) && Sorted(b) && multiset(a) == multiset(b) && |a| > 0 && |b| > 0
    ensures a[0] == b[0]
    ensures Sorted(a[1..]) && Sorted(b[1..]) && multiset(a[1..]) == multiset(b[1..])
  {
    DropFirst(a);
    DropFirst(b);
    FirstIsLeast(b, a[0]);
    FirstIsLeast(a, b[0]);
  }

  /** Sequences with the same elements have the same length. */
  lemma SameLength(a: seq<int>, b: seq<int>)
    requires multiset(a) == multiset(b)
    ensures |a| == |b|
  {
    assert |a| == |multiset(a)| && |b| == |multiset(b)|;
  }

  /** Sequences agreeing in their first element and in the rest are equal. */
  lemma SameHeadTail(a: seq<int>, b: seq<int>)
    requires |a| > 0 && |b| > 0 && a[0] == b[0] && a[1..] == b[1..]
    ensures a == b
  {
    assert a == [a[0]] + a[1..] && b == [b[0]] + b[1..];
  }

  /** Dropping the first element keeps a sequence sorted and removes one copy of it. */
  lemma DropFirst(s: seq<int>)
    requires Sorted(s) && |s| > 0
    ensures Sorted(s[1..])
    ensures s[0] in multiset(s) && multiset(s[1..]) == multiset(s) - multiset{s[0]}
  {
    assert s == [s[0]] + s[1..];
  }

  /** The first element of a sorted sequence is at most any of its elements. */
  lemma FirstIsLeast(s: seq<int>, x: int)
    requires Sorted(s) && x in multiset(s)
    ensures s[0] <= x
  {
    assert x in s;
    var k :| 0 <= k < |s| && s[k] == x;
    assert s[0] <= s[k];
  }

  /** Durations.Len. */
  function Len(d: array<int>): int {
    d.Length
  }

  /** Durations.Less: strict less-than on the elements at i and j. */
  predicate Less(d: array<int>, i: int, j: int)
    requires 0 <= i < d.Length && 0 <= j < d.Length
    reads d
  {
    d[i] < d[j]
  }

  /** Durations.Swap: exchanges two slots in place. */
  method Swap(d: array<int>, i: int, j: int)
    requires 0 <= i < d.Length && 0 <= j < d.Length
    modifies d
    ensures d[i] == old(d[j]) && d[j] == old(d[i])
    ensures forall k :: 0 <= k < d.Length && k != i && k != j ==> d[k] == old(d[k])
    ensures multiset(d[..]) == old(multiset(d[..]))
  {
    d[i], d[j] := d[j], d[i];
  }

  /**
   * sort.Sort over the Len/Less/Swap interface (also what sort.Ints does):
   * afterwards d is nondecreasing and a permutation of what it held.
   */
  method Sort(d: array<int>)
    modifies d
    ensures Sorted(d[..])
    ensures multiset(d[..]) == old(multiset(d[..]))
  {
    var n := Len(d);
    if n < 2 {
      return;
    }
    var i := 1;
    while i < n
      invariant 1 <= i <= n
      invariant Sorted(d[..i])
      invariant multiset(d[..]) == old(multiset(d[..]))
    {
      var j := i;
      while j > 0 && Less(d, j, j - 1)
        invariant 0 <= j <= i
        invariant forall x, y :: 0 <= x < y <= i && y != j ==> d[x] <= d[y]
        invariant multiset(d[..]) == old(multiset(d[..]))
      {
        Swap(d, j, j - 1);
        j := j - 1;
      }
      i := i + 1;
    }
  }

  method CopyInts(input: array<int>) returns (output: array<int>)
    ensures fresh(output)
    ensures output[..] == input[..]
  {
    output := new int[input.Length](k requires 0 <= k < input.Length reads input => input[k]);
  }

  method CopyDurations(input: array<int>) returns (output: array<int>)
    ensures fresh(output)
    ensures output[..] == input[..]
  {
    output := new int[input.Length](k requires 0 <= k < input.Length reads input => input[k]);
  }

  /** A fresh sorted copy; the caller's slice is left as it was. */
  method CopySortInts(input: array<int>) returns (output: array<int>)
    ensures fresh(output)
    ensures input[..] == old(input[..])
    ensures Sorted(output[..]) && multiset(output[..]) == multiset(input[..])
    ensures output[..] == SortSeq(input[..])
  {
    output := CopyInts(input);
    Sort(output);
    SortedUnique(output[..], SortSeq(input[..]));
  }

  method CopySortDurations(input: array<int>) returns (output: array<int>)
    ensures fresh(output)
    ensures input[..] == old(input[..])
    ensures Sorted(output[..]) && multiset(output[..]) == multiset(input[..])
    ensures output[..] == SortSeq(input[..])
  {
    output := CopyDurations(input);
    Sort(output);
    SortedUnique(output[..], SortSeq(input[..]));
  }
}
