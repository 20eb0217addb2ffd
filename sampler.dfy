/**
 * selectWeighted of main.go: a weighted random draw over the quiz items.
 * The choices are collected, ordered by ascending weight, turned into running
 * totals, and the first total reaching u * (sum of weights) wins, where u is
 * the value of rand.Float64. Map iteration and sort.Slice fix an order the
 * program does not control; here that order is the parameter `ranked`, and
 * u is a parameter in [0, 1).
 */
module Sampler {
  import Items

  /** The weightedChoice record of selectWeighted. */
  datatype WeightedChoice = WeightedChoice(key: string, weight: real)

  /** weights[key], with Go's zero value for a missing key. */
  function WeightOf(weights: map<string, real>, key: string): real {
    if key in weights then weights[key] else 0.0
  }

  /** ranked lists every key of values once, by ascending weight. */
  predicate RankedByWeight(ranked: seq<string>, values: map<string, string>, weights: map<string, real>) {
    && Items.Distinct(ranked)
    && (forall k :: k in values ==> k in ranked)
    && (forall i :: 0 <= i < |ranked| ==> ranked[i] in values)
    && (forall i, j :: 0 <= i < j < |ranked| ==> WeightOf(weights, ranked[i]) <= WeightOf(weights, ranked[j]))
  }

  predicate NonNegativeWeights(weights: map<string, real>) {
    forall k :: k in weights ==> 0.0 <= weights[k]
  }

  /** The weights in ranked order. */
  function WeightsAlong(ranked: seq<string>, weights: map<string, real>): (ws: seq<real>)
    ensures |ws| == |ranked|
    ensures forall j :: 0 <= j < |ranked| ==> ws[j] == WeightOf(weights, ranked[j])
  {
    seq(|ranked|, j requires 0 <= j < |ranked| => WeightOf(weights, ranked[j]))
  }

  /** The sum of the first j weights. */
  function Prefix(ws: seq<real>, j: nat): real
    requires j <= |ws|
  {
    if j == 0 then 0.0 else Prefix(ws, j - 1) + ws[j - 1]
  }

  /** The running totals: entry j is the sum of weights 0 through j. */
  function RunningTotals(ws: seq<real>): (t: seq<real>)
    ensures |t| == |ws|
    ensures forall j :: 0 <= j < |ws| ==> t[j] == Prefix(ws, j + 1)
  {
    seq(|ws|, j requires 0 <= j < |ws| => Prefix(ws, j + 1))
  }

  /**
   * What sort.SearchFloat64s returns: the first index whose entry is at
   * least x, or the length when there is none.
   */
  function FirstAtLeast(totals: seq<real>, x: real): (i: nat)
    ensures i <= |totals|
    ensures forall k :: 0 <= k < i ==> totals[k] < x
    ensures i < |totals| ==> x <= totals[i]
  {
    if |totals| == 0 then 0
    else if x <= totals[0] then 0
    else 1 + FirstAtLeast(totals[1..], x)
  }

  predicate Ascending(a: seq<real>) {
    forall i, j :: 0 <= i < j < |a| ==> a[i] <= a[j]
  }

  /** sort.SearchFloat64s: binary search over an ascending slice. */
  method SearchFloat64s(a: seq<real>, x: real) returns (i: int)
    requires Ascending(a)
    ensures i == FirstAtLeast(a, x)
  {
    i := 0;
    var j := |a|;
    while i < j
      invariant 0 <= i <= j <= |a|
      invariant forall k :: 0 <= k < i ==> a[k] < x
      invariant forall k :: j <= k < |a| ==> x <= a[k]
      decreases j - i
    {
      var h := (i + j) / 2;
      if !(a[h] >= x) {
        i := h + 1;
      } else {
        j := h;
      }
    }
    FirstAtLeastUnique(a, x, i);
  }

  /** The index FirstAtLeast characterises is the only one with its two properties. */
  lemma FirstAtLeastUnique(a: seq<real>, x: real, i: nat)
    requires i <= |a|
    requires forall k :: 0 <= k < i ==> a[k] < x
    requires i < |a| ==> x <= a[i]
    ensures i == FirstAtLeast(a, x)
  {
  }

  /** Missing weights count as zero, so the weights along ranked are non-negative. */
  lemma WeightsAlongNonNegative(ranked: seq<string>, weights: map<string, real>)
    requires NonNegativeWeights(weights)
    ensures forall k :: 0 <= k < |ranked| ==> 0.0 <= WeightsAlong(ranked, weights)[k]
  {
  }

  lemma {:induction false} PrefixMonotone(ws: seq<real>, i: nat, j: nat)
    requires forall k :: 0 <= k < |ws| ==> 0.0 <= ws[k]
    requires i <= j <= |ws|
    ensures Prefix(ws, i) <= Prefix(ws, j)
    decreases j - i
  {
    if i < j {
      PrefixMonotone(ws, i, j - 1);
    }
  }

  lemma RunningTotalsAscending(ws: seq<real>)
    requires forall k :: 0 <= k < |ws| ==> 0.0 <= ws[k]
    ensures Ascending(RunningTotals(ws))
  {
    forall i, j | 0 <= i < j < |ws|
      ensures RunningTotals(ws)[i] <= RunningTotals(ws)[j]
    {
      PrefixMonotone(ws, i + 1, j + 1);
    }
  }

  /** The collecting loop of selectWeighted: one choice per key, in ranked order. */
  method CollectChoices(ranked: seq<string>, weights: map<string, real>) returns (keys: seq<WeightedChoice>)
    ensures |keys| == |ranked|
    ensures forall k :: 0 <= k < |ranked| ==> keys[k] == WeightedChoice(ranked[k], WeightOf(weights, ranked[k]))
  {
    keys := [];
    for n := 0 to |ranked|
      invariant |keys| == n
      invariant forall k :: 0 <= k < n ==> keys[k] == WeightedChoice(ranked[k], WeightOf(weights, ranked[k]))
    {
      var key := ranked[n];
      keys := keys + [WeightedChoice(key, if key in weights then weights[key] else 0.0)];
    }
  }

  /** The weights of a list of choices. */
  function ChoiceWeights(keys: seq<WeightedChoice>): (ws: seq<real>)
    ensures |ws| == |keys|
    ensures forall k :: 0 <= k < |keys| ==> ws[k] == keys[k].weight
  {
    seq(|keys|, k requires 0 <= k < |keys| => keys[k].weight)
  }

  /** The summing loop of selectWeighted: totals[i] is the sum of weights 0 through i. */
  method AccumulateTotals(keys: seq<WeightedChoice>) returns (totals: array<real>, runningTotal: real)
    ensures fresh(totals)
    ensures totals[..] == RunningTotals(ChoiceWeights(keys))
    ensures runningTotal == Prefix(ChoiceWeights(keys), |keys|)
  {
    ghost var ws := ChoiceWeights(keys);
    totals := new real[|keys|];
    runningTotal := 0.0;
    for index := 0 to |keys|
      invariant runningTotal == Prefix(ws, index)
      invariant forall k :: 0 <= k < index ==> totals[k] == Prefix(ws, k + 1)
    {
      runningTotal := runningTotal + keys[index].weight;
      totals[index] := runningTotal;
    }
    assert totals[..] == RunningTotals(ws);
  }

  /**
   * selectWeighted: the drawn key is the one whose running-total interval
   * contains u times the sum of all weights; roman is its value.
   */
  method SelectWeighted(values: map<string, string>, weights: map<string, real>,
                        ranked: seq<string>, u: real) returns (kana: string, roman: string)
    requires |values| > 0
    requires RankedByWeight(ranked, values, weights)
    requires NonNegativeWeights(weights)
    requires 0.0 <= u < 1.0
    ensures kana in values && roman == values[kana]
    ensures var ws := WeightsAlong(ranked, weights);
      var j := FirstAtLeast(RunningTotals(ws), Scale(u, Prefix(ws, |ws|)));
      j < |ranked| && kana == ranked[j]
  {
    ghost var ws := WeightsAlong(ranked, weights);
    assert ranked != [] by {
      var some :| some in values;
      assert some in ranked;
    }
    var keys := CollectChoices(ranked, weights);
    assert ChoiceWeights(keys) == ws;
    var totals, runningTotal := AccumulateTotals(keys);
    WeightsAlongNonNegative(ranked, weights);
    RunningTotalsAscending(ws);

    PrefixMonotone(ws, 0, |ws|);
    var randomValue := Scale(u, runningTotal);
    var randomIndex := SearchFloat64s(totals[..], randomValue);
    DrawInRange(ws, randomValue);

    kana := keys[randomIndex].key;
    roman := values[kana];
  }

  /** The drawn point rand.Float64() * runningTotal: a fraction u of the total. */
  function Scale(u: real, total: real): (x: real)
    requires 0.0 <= u < 1.0
    ensures 0.0 <= total ==> 0.0 <= x <= total
    ensures total == 0.0 ==> x == 0.0
  {
    var x := u * total;
    ScaleBounds(u, total);
    x
  }

  lemma ScaleBounds(u: real, total: real)
    requires 0.0 <= u < 1.0
    ensures 0.0 <= total ==> 0.0 <= u * total <= total
    ensures total == 0.0 ==> u * total == 0.0
  {
    if total == 0.0 {
      assert u * total == u * 0.0;
    } else if 0.0 < total {
      ProductNonNegative(u, total);
      ProductNonNegative(1.0 - u, total);
      assert total - u * total == (1.0 - u) * total;
    }
  }

  lemma ProductNonNegative(a: real, b: real)
    requires 0.0 <= a && 0.0 <= b
    ensures 0.0 <= a * b
  {
  }

  /** A draw at most the sum of the weights lands on an index in range. */
  lemma DrawInRange(ws: seq<real>, x: real)
    requires |ws| > 0
    requires x <= Prefix(ws, |ws|)
    ensures FirstAtLeast(RunningTotals(ws), x) < |ws|
  {
    var t := RunningTotals(ws);
    assert t[|ws| - 1] == Prefix(ws, |ws|);
  }

  /**
   * Index j is drawn exactly when x lies in (Prefix(j), Prefix(j + 1)], an
   * interval as wide as weight j: a uniform x picks j with probability
   * proportional to its weight.
   */
  lemma DrawInterval(ws: seq<real>, x: real, j: nat)
    requires forall k :: 0 <= k < |ws| ==> 0.0 <= ws[k]
    requires 0.0 < x && j < |ws|
    ensures FirstAtLeast(RunningTotals(ws), x) == j <==> Prefix(ws, j) < x <= Prefix(ws, j + 1)
  {
    var t := RunningTotals(ws);
    var r := FirstAtLeast(t, x);
    assert t[j] == Prefix(ws, j + 1);
    if Prefix(ws, j) < x <= Prefix(ws, j + 1) {
      assert r <= j;
      if r < j {
        assert t[r] == Prefix(ws, r + 1);
        PrefixMonotone(ws, r + 1, j);
      }
    }
    if r == j {
      assert x <= Prefix(ws, j + 1);
      if j > 0 {
        assert t[j - 1] == Prefix(ws, j);
      }
    }
  }

  /** A key of weight zero (or with no weight) is never drawn by a positive x. */
  lemma ZeroWeightNeverDrawn(ws: seq<real>, x: real, j: nat)
    requires forall k :: 0 <= k < |ws| ==> 0.0 <= ws[k]
    requires 0.0 < x && j < |ws| && ws[j] == 0.0
    ensures FirstAtLeast(RunningTotals(ws), x) != j
  {
    DrawInterval(ws, x, j);
  }

  /**
   * With all weights positive every key can be drawn: the u that lands in the
   * middle of its interval lies in [0, 1) and draws it.
   */
  lemma EveryKeyReachable(ws: seq<real>, j: nat)
    requires forall k :: 0 <= k < |ws| ==> 0.0 < ws[k]
    requires j < |ws|
    ensures var total := Prefix(ws, |ws|);
      var mid := Prefix(ws, j) + ws[j] / 2.0;
      0.0 <= mid < total && FirstAtLeast(RunningTotals(ws), Scale(Ratio(mid, total), total)) == j
  {
    var total := Prefix(ws, |ws|);
    var mid := Prefix(ws, j) + ws[j] / 2.0;
    PrefixMonotone(ws, 0, j);
    PrefixMonotone(ws, j + 1, |ws|);
    DrawInterval(ws, mid, j);
  }

  /** The u in [0, 1) for which rand.Float64() * whole is part. */
  function Ratio(part: real, whole: real): (u: real)
    requires 0.0 <= part < whole
    ensures 0.0 <= u < 1.0
    ensures Scale(u, whole) == part
  {
    Fraction(part, whole);
    part / whole
  }

  lemma Fraction(part: real, whole: real)
    requires 0.0 <= part < whole
    ensures 0.0 <= part / whole < 1.0
    ensures (part / whole) * whole == part
  {
  }
}
