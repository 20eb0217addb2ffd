/**
 * The item-set helpers of main.go: mergeSets, selectCount, incrementCount
 * and min. Go maps are unordered; where the result depends on the order in
 * which a map is walked, that order is a parameter.
 */
module Items {

  /** The merge of sets, later sets overriding earlier ones key by key. */
  function Merged(sets: seq<map<string, string>>): map<string, string> {
    if |sets| == 0 then map[] else Merged(sets[..|sets| - 1]) + sets[|sets| - 1]
  }

  /** mergeSets: copies every set into one map in order; the walk order within a set does not matter. */
  method MergeSets(sets: seq<map<string, string>>) returns (output: map<string, string>)
    ensures output == Merged(sets)
  {
    output := map[];
    for i := 0 to |sets|
      invariant output == Merged(sets[..i])
    {
      var current := sets[i];
      ghost var before := output;
      var remaining := current.Keys;
      while remaining != {}
        invariant remaining <= current.Keys
        invariant output.Keys == before.Keys + (current.Keys - remaining)
        invariant forall k :: k in output ==>
                    output[k] == if k in current && k !in remaining then current[k] else before[k]
        decreases remaining
      {
        var key :| key in remaining;
        output := output[key := current[key]];
        remaining := remaining - {key};
      }
      assert sets[..i + 1][..i] == sets[..i];
      assert output == before + current;
    }
    assert sets[..|sets|] == sets;
  }

  /** A key is in the merge exactly when some set has it. */
  lemma {:induction false} MergedKeys(sets: seq<map<string, string>>, k: string)
    ensures k in Merged(sets) <==> exists i :: 0 <= i < |sets| && k in sets[i]
    decreases |sets|
  {
    if |sets| > 0 {
      var init := sets[..|sets| - 1];
      MergedKeys(init, k);
      if k in Merged(sets) && k !in sets[|sets| - 1] {
        var i :| 0 <= i < |init| && k in init[i];
        assert k in sets[i];
      }
      if exists i :: 0 <= i < |sets| && k in sets[i] {
        var i :| 0 <= i < |sets| && k in sets[i];
        if i < |sets| - 1 {
          assert k in init[i];
        }
      }
    }
  }

  /** Last writer wins: the value comes from the last set that has the key. */
  lemma {:induction false} MergedLastWriterWins(sets: seq<map<string, string>>, k: string, i: nat)
    requires i < |sets| && k in sets[i]
    requires forall j :: i < j < |sets| ==> k !in sets[j]
    ensures k in Merged(sets) && Merged(sets)[k] == sets[i][k]
    decreases |sets|
  {
    if i < |sets| - 1 {
      var init := sets[..|sets| - 1];
      MergedLastWriterWins(init, k, i);
    }
  }

  /** No key occurs twice. */
  predicate Distinct(s: seq<string>) {
    forall i, j :: 0 <= i < j < |s| ==> s[i] != s[j]
  }

  /** order lists every key of values exactly once: one walk of the map. */
  predicate IterationOrder(order: seq<string>, values: map<string, string>) {
    && |order| == |values|
    && Distinct(order)
    && (forall k :: k in values ==> k in order)
    && (forall i :: 0 <= i < |order| ==> order[i] in values)
  }

  /**
   * selectCount: values itself when it has at most count entries; otherwise
   * the first entries met while walking the map, stopping once count have
   * been copied (never, when count <= 0).
   */
  method SelectCount(values: map<string, string>, count: int, order: seq<string>)
    returns (output: map<string, string>)
    requires IterationOrder(order, values)
    ensures forall k :: k in output ==> k in values && output[k] == values[k]
    ensures |values| <= count || count <= 0 ==> output == values
    ensures 0 < count < |values| ==> |output| == count
    ensures forall j :: 0 <= j < |order| ==> (order[j] in output <==> j < |output|)
  {
    if |values| <= count {
      return values;
    }
    output := CopyUntilCount(values, count, order);
  }

  /** The copying loop of selectCount, entered when values has more than count entries. */
  method CopyUntilCount(values: map<string, string>, count: int, order: seq<string>)
    returns (output: map<string, string>)
    requires IterationOrder(order, values)
    requires count < |values|
    ensures forall k :: k in output ==> k in values && output[k] == values[k]
    ensures count <= 0 ==> output == values
    ensures 0 < count ==> |output| == count
    ensures forall j :: 0 <= j < |order| ==> (order[j] in output <==> j < |output|)
  {
    output := map[];
    var i := 0;
    while i < |order|
      invariant 0 <= i <= |order|
      invariant count > 0 ==> i < count
      invariant |output| == i
      invariant forall j :: 0 <= j < |order| ==> (order[j] in output <==> j < i)
      invariant forall k :: k in output ==> k in values && output[k] == values[k]
    {
      var key := order[i];
      CopyStep(values, order, output, i);
      output := output[key := values[key]];
      i := i + 1;
      if |output| == count {
        break;
      }
    }
    if count <= 0 {
      WalkedEveryKey(values, order, output);
    }
  }

  /** Copying the next key of the walk keeps output equal to the first i + 1 keys of the order. */
  lemma CopyStep(values: map<string, string>, order: seq<string>, output: map<string, string>, i: nat)
    requires IterationOrder(order, values)
    requires i < |order| && |output| == i
    requires forall j :: 0 <= j < |order| ==> (order[j] in output <==> j < i)
    requires forall k :: k in output ==> k in values && output[k] == values[k]
    ensures var next := output[order[i] := values[order[i]]];
      && |next| == i + 1
      && (forall j :: 0 <= j < |order| ==> (order[j] in next <==> j < i + 1))
      && (forall k :: k in next ==> k in values && next[k] == values[k])
  {
    var key := order[i];
    assert key !in output;
    var next := output[key := values[key]];
    forall j | 0 <= j < |order|
      ensures order[j] in next <==> j < i + 1
    {
      if j != i {
        assert order[j] != key;
      }
    }
  }

  /** A walk that copied every key of the order, and only keys of values, copied the whole map. */
  lemma WalkedEveryKey(values: map<string, string>, order: seq<string>, output: map<string, string>)
    requires IterationOrder(order, values)
    requires forall j :: 0 <= j < |order| ==> order[j] in output
    requires forall k :: k in output ==> k in values && output[k] == values[k]
    ensures output == values
  {
    assert output.Keys == values.Keys;
  }

  /** The count stored for key, 0 when absent. */
  function CountOf(counts: map<string, int>, key: string): int {
    if key in counts then counts[key] else 0
  }

  /**
   * incrementCount: the count for key goes up by one, starting from 1 when it
   * was absent; every other entry stays.
   */
  function Incremented(counts: map<string, int>, key: string): (r: map<string, int>)
    ensures r.Keys == counts.Keys + {key}
    ensures r[key] == CountOf(counts, key) + 1
    ensures forall k :: k in counts && k != key ==> r[k] == counts[k]
  {
    if key !in counts then counts[key := 1] else counts[key := counts[key] + 1]
  }

  /** The sum of all counts. */
  ghost function MapSum(m: map<string, int>): int
    decreases |m|
  {
    if m == map[] then 0
    else
      var k :| k in m;
      m[k] + MapSum(m - {k})
  }

  /** MapSum can take any key first. */
  lemma {:induction false} MapSumRemove(m: map<string, int>, k: string)
    requires k in m
    ensures MapSum(m) == m[k] + MapSum(m - {k})
    decreases |m|
  {
    var j :| j in m && MapSum(m) == m[j] + MapSum(m - {j});
    if j != k {
      assert m - {j} - {k} == m - {k} - {j};
      MapSumRemove(m - {j}, k);
      MapSumRemove(m - {k}, j);
    }
  }

  /** Each increment adds exactly one to the total of all counts. */
  lemma IncrementedSum(counts: map<string, int>, key: string)
    ensures MapSum(Incremented(counts, key)) == MapSum(counts) + 1
  {
    var r := Incremented(counts, key);
    MapSumRemove(r, key);
    assert r - {key} == counts - {key};
    if key in counts {
      MapSumRemove(counts, key);
    } else {
      assert counts - {key} == counts;
    }
  }

  /** Counts that are all non-negative have a non-negative sum. */
  lemma {:induction false} MapSumNonNegative(m: map<string, int>)
    requires forall k :: k in m ==> 0 <= m[k]
    ensures 0 <= MapSum(m)
    decreases |m|
  {
    if m != map[] {
      var k :| k in m;
      MapSumRemove(m, k);
      MapSumNonNegative(m - {k});
    }
  }

  /** Entry-wise smaller counts have a smaller sum. */
  lemma {:induction false} MapSumMonotone(small: map<string, int>, large: map<string, int>)
    requires small.Keys <= large.Keys
    requires forall k :: k in small ==> 0 <= small[k] <= large[k]
    requires forall k :: k in large ==> 0 <= large[k]
    ensures MapSum(small) <= MapSum(large)
    decreases |large|
  {
    if large != map[] {
      var k :| k in large;
      MapSumRemove(large, k);
      if k in small {
        MapSumRemove(small, k);
        MapSumMonotone(small - {k}, large - {k});
      } else {
        assert small.Keys <= (large - {k}).Keys;
        MapSumMonotone(small, large - {k});
      }
    }
  }

  /** min: 0 for no values, otherwise the smallest value. */
  method Min(values: seq<int>) returns (working: int)
    ensures |values| == 0 ==> working == 0
    ensures |values| > 0 ==> working in values
    ensures forall k :: 0 <= k < |values| ==> working <= values[k]
  {
    if |values| == 0 {
      return 0;
    }
    working := values[0];
    var rest := values[1..];
    for i := 0 to |rest|
      invariant working in values
      invariant forall k :: 0 <= k <= i ==> working <= values[k]
    {
      var value := rest[i];
      if value < working {
        working := value;
      }
    }
  }
}
