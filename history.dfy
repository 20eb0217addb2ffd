/**
 * The repeat guard of main.go: the short history of recently shown keys
 * (listHas, listAddFixedLength) and the size of its window
 * (effectiveMaxRepeatHistory inside the quiz loop).
 */
module History {

  const MaxRepeatHistory: int := 5

  /** listHas: a linear scan for value. */
  method ListHas(list: seq<string>, value: string) returns (found: bool)
    ensures found <==> value in list
  {
    for i := 0 to |list|
      invariant value !in list[..i]
    {
      if list[i] == value {
        return true;
      }
    }
    return false;
  }

  /**
   * listAddFixedLength: value is appended; once the list has reached max the
   * oldest entry is dropped, so the result is a suffix of list + [value].
   */
  function ListAddFixedLength(list: seq<string>, value: string, max: int): (r: seq<string>)
    ensures |r| == if |list| + 1 < max then |list| + 1 else |list|
    ensures r != [] ==> r[|r| - 1] == value
  {
    var appended := list + [value];
    if |appended| < max then appended else appended[1..]
  }

  /** The result of listAddFixedLength is the suffix of list + [value] of its own length. */
  lemma AddIsSuffix(list: seq<string>, value: string, max: int)
    ensures var r := ListAddFixedLength(list, value, max);
      r == (list + [value])[|list| + 1 - |r|..]
  {
  }

  /**
   * The number of keys the guard holds back: listAddFixedLength keeps at
   * most max - 1 entries once it has trimmed (and none when max <= 1).
   */
  function Capacity(max: int): nat {
    if max - 1 > 0 then max - 1 else 0
  }

  /** The last n entries of s, or all of them when there are fewer. */
  function Last(s: seq<string>, n: nat): (r: seq<string>)
    ensures |r| == if |s| <= n then |s| else n
  {
    if |s| <= n then s else s[|s| - n..]
  }

  /** Last(s, n) is the suffix of s of that length. */
  lemma LastIsSuffix(s: seq<string>, n: nat)
    ensures Last(s, n) == s[|s| - |Last(s, n)|..]
  {
    if |s| <= n {
      assert s[0..] == s;
    }
  }

  /** Every entry among the last n of s is in Last(s, n). */
  lemma InLast(s: seq<string>, n: nat, i: int)
    requires 0 <= i < |s| && |s| - i <= n
    ensures s[i] in Last(s, n)
  {
    var r := Last(s, n);
    assert s[i] == r[i - (|s| - |r|)];
  }

  /**
   * Fed a list already within capacity, listAddFixedLength keeps it within
   * capacity.
   */
  lemma AddStaysWithinCapacity(list: seq<string>, value: string, max: int)
    requires |list| <= Capacity(max)
    ensures |ListAddFixedLength(list, value, max)| <= Capacity(max)
  {
  }

  /**
   * Starting from an empty list, the history is always the last
   * Capacity(max) keys that were added: adding to the window of shown gives
   * the window of shown + [value].
   */
  lemma AddKeepsLatestWindow(shown: seq<string>, value: string, max: int)
    ensures ListAddFixedLength(Last(shown, Capacity(max)), value, max) == Last(shown + [value], Capacity(max))
  {
    var c := Capacity(max);
    var list := Last(shown, c);
    var s := shown + [value];
    if |shown| < c {
      assert list == shown;
      assert |list| + 1 < max;
    } else {
      assert list == shown[|shown| - c..];
      var added := (list + [value])[1..];
      assert ListAddFixedLength(list, value, max) == added;
      assert Last(s, c) == s[|s| - c..];
      forall k | 0 <= k < c
        ensures added[k] == s[|s| - c + k]
      {
        if k < c - 1 {
          assert added[k] == shown[|shown| - c + k + 1];
        }
      }
      assert added == s[|s| - c..];
    }
  }

  /**
   * effectiveMaxRepeatHistory: maxRepeatHistory, or half the item count
   * (rounded down) when there are no more items than that.
   */
  function WindowSize(itemCount: nat): (w: nat)
    ensures w <= MaxRepeatHistory
    ensures itemCount <= MaxRepeatHistory ==> w == itemCount / 2
    ensures itemCount > MaxRepeatHistory ==> w == MaxRepeatHistory
  {
    if MaxRepeatHistory >= itemCount then itemCount / 2 else MaxRepeatHistory
  }

  /** With at least one item, the guard always holds back fewer keys than exist. */
  lemma WindowLeavesRoom(itemCount: nat)
    requires 1 <= itemCount
    ensures Capacity(WindowSize(itemCount)) < itemCount
  {
  }

  lemma {:induction false} ElementsAtMostLength(s: seq<string>)
    ensures |set x | x in s| <= |s|
    decreases |s|
  {
    if |s| > 0 {
      var init := s[..|s| - 1];
      ElementsAtMostLength(init);
      assert (set x | x in s) == (set x | x in init) + {s[|s| - 1]} by {
        assert s == init + [s[|s| - 1]];
      }
    }
  }

  /** A history shorter than the key set leaves some key that may be shown. */
  lemma SomeKeyEligible(keys: set<string>, history: seq<string>)
    requires |history| < |keys|
    ensures exists k :: k in keys && k !in history
  {
    var held := set x | x in history;
    ElementsAtMostLength(history);
    assert !(keys <= held) by {
      if keys <= held {
        SubsetCardinality(keys, held);
      }
    }
    var k :| k in keys && k !in held;
  }

  lemma SubsetCardinality(a: set<string>, b: set<string>)
    requires a <= b
    ensures |a| <= |b|
  {
    assert b == a + (b - a);
  }
}
