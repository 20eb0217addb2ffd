/**
 * mathutil/percentile.go and mean.go, duration variants, with main.go's
 * roundPlaces. Durations are non-negative nanosecond counts; the float64
 * arithmetic is modelled by exact reals, so idx = (p / 100) * n is the exact
 * rational index.
 */
module MathPercentile {
  import opened MathSum
  import opened MathSort

  predicate NonNegative(s: seq<int>) {
    forall k :: 0 <= k < |s| ==> 0 <= s[k]
  }

  /**
   * MeanDurations: 0 for an empty slice, otherwise the sum divided by the
   * length with unsigned (truncating) division.
   */
  function MeanDurations(input: seq<int>): (r: int)
    requires NonNegative(input)
    ensures |input| == 0 ==> r == 0
    ensures |input| > 0 ==> 0 <= r && r * |input| <= Sum(input) < (r + 1) * |input|
  {
    SumNonNegative(input);
    if |input| == 0 then 0 else Sum(input) / |input|
  }

  lemma {:induction false} SumNonNegative(s: seq<int>)
    requires NonNegative(s)
    ensures 0 <= Sum(s)
    decreases |s|
  {
    if |s| > 0 {
      SumNonNegative(s[..|s| - 1]);
    }
  }

  /** A single sample is its own mean. */
  lemma MeanOfOne(x: int)
    requires 0 <= x
    ensures MeanDurations([x]) == x
  {
    assert [x][..0] == [];
    assert Sum([x]) == x;
  }

  /** The mean of two samples is their halved sum, rounded down. */
  lemma MeanOfTwo(a: int, b: int)
    requires 0 <= a && 0 <= b
    ensures MeanDurations([a, b]) == (a + b) / 2
  {
    assert [a, b][..1] == [a];
    assert [a][..0] == [];
    assert Sum([a]) == a;
    assert Sum([a, b]) == a + b;
  }

  /** The mean lies between the smallest and the largest sample. */
  lemma MeanBetween(input: seq<int>, lo: int, hi: int)
    requires NonNegative(input) && |input| > 0
    requires forall k :: 0 <= k < |input| ==> lo <= input[k] <= hi
    ensures lo <= MeanDurations(input) <= hi
  {
    var n := |input|;
    var r := MeanDurations(input);
    SumBounds(input, lo, hi);
    assert n * lo <= Sum(input) < (r + 1) * n;
    ScaleLess(lo, r + 1, n);
    assert r * n <= Sum(input) <= n * hi;
    ScaleAtMost(r, hi, n);
  }

  /** Cancelling a positive factor from a strict inequality. */
  lemma ScaleLess(a: int, b: int, n: int)
    requires 0 < n && a * n < b * n
    ensures a < b
  {
  }

  /** Cancelling a positive factor from a non-strict inequality. */
  lemma ScaleAtMost(a: int, b: int, n: int)
    requires 0 < n && a * n <= b * n
    ensures a <= b
  {
  }

  function Ceil(x: real): int {
    if x == x.Floor as real then x.Floor else x.Floor + 1
  }

  function Pow10(places: nat): (p: real)
    ensures p >= 1.0
  {
    if places == 0 then 1.0 else 10.0 * Pow10(places - 1)
  }

  /**
   * The rounding step of roundPlaces on a non-negative digit: ceiling when the
   * fractional part is at least one half, floor otherwise.
   */
  function HalfUp(digit: real): (k: int)
    requires 0.0 <= digit
    ensures 0 <= k && k == (digit + 0.5).Floor
    ensures digit - 0.5 < k as real <= digit + 0.5
  {
    var decimal := digit - digit.Floor as real;
    if decimal >= 0.5 then Ceil(digit) else digit.Floor
  }

  /**
   * roundPlaces: rounds to the given number of decimal places, halves away
   * from zero.
   */
  function RoundPlaces(input: real, places: nat): (r: real)
    ensures (0.0 <= input ==> 0.0 <= r) && (input <= 0.0 ==> r <= 0.0)
  {
    var precision := Pow10(places);
    var magnitude := if input < 0.0 then -input else input;
    var k := HalfUp(Digit(magnitude, places)) as real;
    if input < 0.0 then -(k / precision) else k / precision
  }

  /** The digit roundPlaces rounds: the magnitude scaled by 10^places. */
  function Digit(magnitude: real, places: nat): (d: real)
    requires 0.0 <= magnitude
    ensures 0.0 <= d
  {
    magnitude * Pow10(places)
  }

  /**
   * With zero places, rounding a non-negative number is floor(x + 1/2): the
   * nearest whole number, halves rounded up.
   */
  lemma RoundHalfUp(x: real)
    requires 0.0 <= x
    ensures RoundPlaces(x, 0) == (x + 0.5).Floor as real
    ensures -0.5 < RoundPlaces(x, 0) - x <= 0.5
  {
    assert Pow10(0) == 1.0;
    assert Digit(x, 0) == x * 1.0 == x;
    var k := HalfUp(x);
    assert k as real / 1.0 == k as real;
  }

  /** roundPlaces yields a whole number n of units of 10^-places. */
  lemma RoundPlacesWhole(input: real, places: nat) returns (n: int)
    ensures RoundPlaces(input, places) * Pow10(places) == n as real
  {
    var p := Pow10(places);
    var m := if input < 0.0 then -input else input;
    var h := HalfUp(Digit(m, places));
    var k := h as real;
    assert k / p * p == k;
    n := if input < 0.0 then -h else h;
  }

  /** roundPlaces is symmetric about zero: halves are rounded away from zero. */
  lemma RoundPlacesSymmetric(input: real, places: nat)
    ensures RoundPlaces(-input, places) == -RoundPlaces(input, places)
  {
    var p := Pow10(places);
    if input < 0.0 {
      var k := HalfUp(Digit(-input, places)) as real;
      assert RoundPlaces(input, places) == -(k / p);
      assert RoundPlaces(-input, places) == k / p;
    } else if 0.0 < input {
      var k := HalfUp(Digit(input, places)) as real;
      assert RoundPlaces(input, places) == k / p;
      assert RoundPlaces(-input, places) == -(k / p);
    } else {
      assert Digit(0.0, places) == 0.0;
      assert HalfUp(0.0) == 0;
    }
  }

  /**
   * PercentileSortedDurations: idx = (p / 100) * n; a whole idx averages the
   * samples at idx - 1 and idx, a fractional one takes the sample at
   * round(idx) - 1; an index below 1 gives 0.
   */
  function PercentileSortedDurations(sortedInput: seq<int>, percentile: real): (r: int)
    requires NonNegative(sortedInput)
    requires 0.0 <= percentile < 100.0
    ensures 0 <= r
    ensures |sortedInput| == 0 ==> r == 0
  {
    AtIndex(sortedInput, RankIndex(percentile, |sortedInput|))
  }

  /** The branch on the rank index that PercentileSortedDurations takes. */
  function AtIndex(s: seq<int>, index: real): (r: int)
    requires NonNegative(s)
    requires 0.0 <= index && (|s| > 0 ==> index < |s| as real) && (|s| == 0 ==> index == 0.0)
    ensures 0 <= r
  {
    RoundHalfUp(index);
    if index == index.Floor as real then
      var i := RoundPlaces(index, 0).Floor;
      assert i == (index + 0.5).Floor == index.Floor && i as real == index;
      if i < 1 then 0
      else MeanDurations([s[i - 1], s[i]])
    else
      var i := RoundPlaces(index, 0).Floor;
      assert i == (index + 0.5).Floor;
      if i < 1 then 0
      else s[i - 1]
  }

  /** The rank index (p / 100) * n, an exact rational below n. */
  function RankIndex(percentile: real, n: nat): (idx: real)
    requires 0.0 <= percentile < 100.0
    ensures 0.0 <= idx
    ensures n > 0 ==> idx < n as real
    ensures n == 0 ==> idx == 0.0
  {
    (percentile / 100.0) * (n as real)
  }

  /** PercentileOfDuration: 0 for no samples, else the percentile of a sorted copy. */
  function PercentileOfDuration(input: seq<int>, percentile: real): (r: int)
    requires NonNegative(input)
    requires 0.0 <= percentile < 100.0
    ensures |input| == 0 ==> r == 0
    ensures 0 <= r
  {
    if |input| == 0 then 0
    else
      var sorted := SortSeq(input);
      assert forall k :: 0 <= k < |sorted| ==> sorted[k] in multiset(input);
      PercentileSortedDurations(sorted, percentile)
  }

  lemma AtWholeIndex(s: seq<int>, index: real)
    requires NonNegative(s)
    requires 1.0 <= index < |s| as real && index == index.Floor as real
    ensures var i := index.Floor; 1 <= i < |s| && AtIndex(s, index) == (s[i - 1] + s[i]) / 2
  {
    RoundHalfUp(index);
    var i := index.Floor;
    assert RoundPlaces(index, 0).Floor == i;
    MeanOfTwo(s[i - 1], s[i]);
  }

  lemma AtFractionalIndex(s: seq<int>, index: real)
    requires NonNegative(s)
    requires 0.0 <= index < |s| as real && index != index.Floor as real
    ensures var i := (index + 0.5).Floor;
      && (i < 1 ==> AtIndex(s, index) == 0)
      && (1 <= i ==> i <= |s| && AtIndex(s, index) == s[i - 1])
  {
    RoundHalfUp(index);
    assert RoundPlaces(index, 0).Floor == (index + 0.5).Floor;
  }

  lemma AtIndexWithinRange(s: seq<int>, index: real)
    requires NonNegative(s) && Sorted(s)
    requires 0.0 <= index && (|s| > 0 ==> index < |s| as real) && (|s| == 0 ==> index == 0.0)
    ensures var r := AtIndex(s, index); r == 0 || (|s| > 0 && s[0] <= r <= s[|s| - 1])
  {
    RoundHalfUp(index);
    if index == index.Floor as real {
      if 1.0 <= index {
        AtWholeIndex(s, index);
      }
    } else {
      AtFractionalIndex(s, index);
    }
  }

  /** A whole index of at least 1 averages two in-range neighbours. */
  lemma PercentileWholeIndex(s: seq<int>, percentile: real)
    requires NonNegative(s) && 0.0 <= percentile < 100.0
    requires var idx := RankIndex(percentile, |s|); idx == idx.Floor as real && 1.0 <= idx
    ensures var i := (RankIndex(percentile, |s|)).Floor;
      1 <= i < |s| && PercentileSortedDurations(s, percentile) == (s[i - 1] + s[i]) / 2
  {
    AtWholeIndex(s, RankIndex(percentile, |s|));
  }

  /** A whole index of 0 (percentile 0, or no samples) gives 0 rather than a failure. */
  lemma PercentileZeroIndex(s: seq<int>, percentile: real)
    requires NonNegative(s) && 0.0 <= percentile < 100.0
    requires RankIndex(percentile, |s|) == 0.0
    ensures PercentileSortedDurations(s, percentile) == 0
  {
    RoundHalfUp(0.0);
  }

  /**
   * A fractional index is rounded half up to i; below 1 the result is 0,
   * otherwise the sample at i - 1, with 1 <= i <= n.
   */
  lemma PercentileFractionalIndex(s: seq<int>, percentile: real)
    requires NonNegative(s) && 0.0 <= percentile < 100.0
    requires var idx := RankIndex(percentile, |s|); idx != idx.Floor as real
    ensures var i := (RankIndex(percentile, |s|) + 0.5).Floor;
      && (i < 1 ==> PercentileSortedDurations(s, percentile) == 0)
      && (1 <= i ==> i <= |s| && PercentileSortedDurations(s, percentile) == s[i - 1])
  {
    AtFractionalIndex(s, RankIndex(percentile, |s|));
  }

  /** On sorted samples the result is 0 or lies between the smallest and the largest. */
  lemma PercentileWithinRange(s: seq<int>, percentile: real)
    requires NonNegative(s) && Sorted(s) && 0.0 <= percentile < 100.0
    ensures var r := PercentileSortedDurations(s, percentile);
      r == 0 || (|s| > 0 && s[0] <= r <= s[|s| - 1])
  {
    AtIndexWithinRange(s, RankIndex(percentile, |s|));
  }

  /** The unsorted entry point is bounded by the samples it was given. */
  lemma PercentileOfDurationWithinRange(input: seq<int>, percentile: real)
    requires NonNegative(input) && 0.0 <= percentile < 100.0
    ensures var r := PercentileOfDuration(input, percentile);
      r == 0 || exists lo, hi :: 0 <= lo < |input| && 0 <= hi < |input| && input[lo] <= r <= input[hi]
  {
    if |input| > 0 {
      var sorted := SortSeq(input);
      assert forall k :: 0 <= k < |sorted| ==> sorted[k] in multiset(input);
      PercentileWithinRange(sorted, percentile);
      var r := PercentileOfDuration(input, percentile);
      if r != 0 {
        assert sorted[0] in multiset(input) && sorted[|sorted| - 1] in multiset(input);
        var lo :| 0 <= lo < |input| && input[lo] == sorted[0];
        var hi :| 0 <= hi < |input| && input[hi] == sorted[|sorted| - 1];
        assert input[lo] <= r <= input[hi];
      }
    }
  }

  /** The worked example: p50 of [10, 20, 30, 40] averages 20 and 30; p95 takes 40. */
  lemma PercentileExample()
    ensures PercentileSortedDurations([10, 20, 30, 40], 50.0) == 25
    ensures PercentileSortedDurations([10, 20, 30, 40], 95.0) == 40
    ensures PercentileOfDuration([], 95.0) == 0
  {
    PercentileWholeIndex([10, 20, 30, 40], 50.0);
    PercentileFractionalIndex([10, 20, 30, 40], 95.0);
  }
}
