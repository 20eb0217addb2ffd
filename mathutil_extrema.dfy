/**
 * mathutil/min.go, max.go and min_max.go: the integer and duration variants.
 * An empty slice yields the zero value.
 */
module MathExtrema {

  method MinInts(input: seq<int>) returns (min: int)
    ensures |input| == 0 ==> min == 0
    ensures |input| > 0 ==> min in input && forall k :: 0 <= k < |input| ==> min <= input[k]
  {
    if |input| == 0 {
      return 0;
    }
    min := input[0];
    var i := 1;
    while i < |input|
      invariant 1 <= i <= |input|
      invariant min in input[..i]
      invariant forall k :: 0 <= k < i ==> min <= input[k]
    {
      if input[i] < min {
        min := input[i];
      }
      i := i + 1;
    }
  }

  method MaxInts(input: seq<int>) returns (max: int)
    ensures |input| == 0 ==> max == 0
    ensures |input| > 0 ==> max in input && forall k :: 0 <= k < |input| ==> input[k] <= max
  {
    if |input| == 0 {
      return 0;
    }
    max := input[0];
    var i := 1;
    while i < |input|
      invariant 1 <= i <= |input|
      invariant max in input[..i]
      invariant forall k :: 0 <= k < i ==> input[k] <= max
    {
      if input[i] > max {
        max := input[i];
      }
      i := i + 1;
    }
  }

  method MinMaxInts(values: seq<int>) returns (min: int, max: int)
    ensures |values| == 0 ==> min == 0 && max == 0
    ensures |values| > 0 ==> min in values && max in values
    ensures forall k :: 0 <= k < |values| ==> min <= values[k] <= max
  {
    if |values| == 0 {
      return 0, 0;
    }
    min, max := values[0], values[0];
    for i := 0 to |values|
      invariant min in values && max in values
      invariant forall k :: 0 <= k < i ==> min <= values[k] <= max
    {
      var v := values[i];
      if max < v {
        max := v;
      }
      if min > v {
        min := v;
      }
    }
  }

  method MinMaxDurations(values: seq<int>) returns (min: int, max: int)
    ensures |values| == 0 ==> min == 0 && max == 0
    ensures |values| > 0 ==> min in values && max in values
    ensures forall k :: 0 <= k < |values| ==> min <= values[k] <= max
  {
    if |values| == 0 {
      return 0, 0;
    }
    min, max := values[0], values[0];
    for i := 0 to |values|
      invariant min in values && max in values
      invariant forall k :: 0 <= k < i ==> min <= values[k] <= max
    {
      var v := values[i];
      if max < v {
        max := v;
      }
      if min > v {
        min := v;
      }
    }
  }
}
