/**
 * ansi/slant/print.go: the rune-row helpers the FIGlet-style printer uses to
 * push two letters together (counting and trimming white space at the ends
 * of a row, replacing the hard blank, and the trim amount between two
 * letters). A []rune row that is only read is a seq<char>; the one the
 * helper rewrites in place is an array<char>.
 */
module Slant {
  import opened Runes

  /** The length of the run of white space that starts row. */
  function LeadingRun(row: seq<char>): (k: nat)
    ensures k <= |row|
  {
    if |row| == 0 || !IsSpace(row[0]) then 0 else 1 + LeadingRun(row[1..])
  }

  /** The length of the run of white space that ends row. */
  function TrailingRun(row: seq<char>): (k: nat)
    ensures k <= |row|
  {
    if |row| == 0 || !IsSpace(row[|row| - 1]) then 0 else 1 + TrailingRun(row[..|row| - 1])
  }

  /** LeadingRun is the index of the first non-space rune, or the length when there is none. */
  lemma {:induction false} LeadingRunSpec(row: seq<char>)
    ensures var k := LeadingRun(row);
      && k <= |row| && AllSpace(row[..k]) && (k == |row| || !IsSpace(row[k]))
    decreases |row|
  {
    if |row| > 0 && IsSpace(row[0]) {
      var tail := row[1..];
      LeadingRunSpec(tail);
      var k := LeadingRun(tail);
      assert row[..k + 1] == [row[0]] + tail[..k];
    }
  }

  /** Any index that ends a leading run of spaces at a non-space (or the end) is LeadingRun. */
  lemma LeadingRunUnique(row: seq<char>, k: int)
    requires 0 <= k <= |row| && AllSpace(row[..k]) && (k == |row| || !IsSpace(row[k]))
    ensures k == LeadingRun(row)
  {
    LeadingRunSpec(row);
    var m := LeadingRun(row);
    forall i | 0 <= i < m
      ensures IsSpace(row[i])
    {
      assert row[..m][i] == row[i];
    }
    forall i | 0 <= i < k
      ensures IsSpace(row[i])
    {
      assert row[..k][i] == row[i];
    }
  }

  /** TrailingRun is the length of the white space after the last non-space rune, or the length when there is none. */
  lemma {:induction false} TrailingRunSpec(row: seq<char>)
    ensures var k := TrailingRun(row);
      && k <= |row| && AllSpace(row[|row| - k..]) && (k == |row| || !IsSpace(row[|row| - k - 1]))
    decreases |row|
  {
    if |row| > 0 && IsSpace(row[|row| - 1]) {
      var init := row[..|row| - 1];
      TrailingRunSpec(init);
      var k := TrailingRun(init);
      assert row[|row| - (k + 1)..] == init[|init| - k..] + [row[|row| - 1]];
    }
  }

  lemma TrailingRunUnique(row: seq<char>, k: int)
    requires 0 <= k <= |row| && AllSpace(row[|row| - k..]) && (k == |row| || !IsSpace(row[|row| - k - 1]))
    ensures k == TrailingRun(row)
  {
    TrailingRunSpec(row);
  }

  /** strings.TrimLeft of the white space is the row after its leading run. */
  lemma TrimLeadingAfterRun(row: seq<char>)
    ensures TrimLeading(row) == row[LeadingRun(row)..]
  {
    TrimLeadingSpec(row);
    var r := TrimLeading(row);
    var k := |row| - |r|;
    if r != [] {
      assert r[0] == row[k];
    }
    LeadingRunUnique(row, k);
  }

  /** strings.TrimRight of the white space is the row before its trailing run. */
  lemma TrimTrailingBeforeRun(row: seq<char>)
    ensures TrimTrailing(row) == row[..|row| - TrailingRun(row)]
  {
    TrimTrailingSpec(row);
    var r := TrimTrailing(row);
    var k := |row| - |r|;
    if r != [] {
      assert r[|r| - 1] == row[|row| - k - 1];
    }
    TrailingRunUnique(row, k);
  }

  /** A row is all white space exactly when its leading run covers it. */
  lemma AllSpaceIsLeadingRun(row: seq<char>)
    ensures AllSpace(row) <==> LeadingRun(row) == |row|
  {
    LeadingRunSpec(row);
    assert row[..|row|] == row;
  }

  /** countLeadingSpace: the index of the first non-space rune, or the length when there is none. */
  method CountLeadingSpace(row: seq<char>) returns (k: int)
    ensures 0 <= k <= |row| && AllSpace(row[..k]) && (k == |row| || !IsSpace(row[k]))
    ensures k == LeadingRun(row)
  {
    for index := 0 to |row|
      invariant AllSpace(row[..index])
    {
      if !IsSpace(row[index]) {
        LeadingRunUnique(row, index);
        return index;
      }
      assert row[..index + 1] == row[..index] + [row[index]];
    }
    assert row[..|row|] == row;
    LeadingRunUnique(row, |row|);
    return |row|;
  }

  /**
   * countTrailingSpace: the length of the trailing run of white space, except
   * that a row with no non-space rune (the empty row too) gives 0.
   */
  method CountTrailingSpace(row: seq<char>) returns (k: int)
    ensures AllSpace(row) ==> k == 0
    ensures !AllSpace(row) ==> 0 <= k < |row| && AllSpace(row[|row| - k..]) && !IsSpace(row[|row| - k - 1])
    ensures !AllSpace(row) ==> k == TrailingRun(row)
  {
    for index := 0 to |row|
      invariant AllSpace(row[|row| - index..])
    {
      if !IsSpace(row[|row| - (index + 1)]) {
        TrailingRunUnique(row, index);
        assert !AllSpace(row);
        return index;
      }
      assert row[|row| - (index + 1)..] == [row[|row| - (index + 1)]] + row[|row| - index..];
    }
    assert row[|row| - |row|..] == row;
    return 0;
  }

  /** The count countTrailingSpace gives. */
  function TrailingSpaceCount(row: seq<char>): nat {
    if AllSpace(row) then 0 else TrailingRun(row)
  }

  /** trimLeft: drops the first count runes; nothing is left once count reaches the length. */
  function TrimLeft(row: seq<char>, count: int): (r: seq<char>)
    requires count >= 0
    ensures |r| == if count >= |row| then 0 else |row| - count
    ensures r == row[|row| - |r|..]
  {
    if count >= |row| then []
    else if count == 0 then row
    else row[count..]
  }

  /** trimRight: drops the last count runes; nothing is left once count reaches the length. */
  function TrimRight(row: seq<char>, count: int): (r: seq<char>)
    requires count >= 0
    ensures |r| == if count >= |row| then 0 else |row| - count
    ensures r == row[..|r|]
  {
    if count >= |row| then []
    else if count == 0 then row
    else row[..|row| - count]
  }

  /** Cutting a row at any point: what trimRight keeps and what trimLeft keeps make up the row. */
  lemma TrimRightThenLeft(row: seq<char>, c: int)
    requires 0 <= c <= |row|
    ensures TrimRight(row, |row| - c) + TrimLeft(row, c) == row
  {
    assert row[..c] + row[c..] == row;
  }

  /**
   * trimLeftSpace: the row from its first non-space rune on; a row with no
   * non-space rune comes back whole rather than empty.
   */
  method TrimLeftSpace(row: seq<char>) returns (r: seq<char>)
    ensures AllSpace(row) ==> r == row
    ensures !AllSpace(row) ==> r == TrimLeading(row)
  {
    for index := 0 to |row|
      invariant AllSpace(row[..index])
    {
      if !IsSpace(row[index]) {
        LeadingRunUnique(row, index);
        TrimLeadingAfterRun(row);
        assert !AllSpace(row);
        return row[index..];
      }
      assert row[..index + 1] == row[..index] + [row[index]];
    }
    assert row[..|row|] == row;
    return row;
  }

  /**
   * trimRightSpace: the row up to its last non-space rune, but the first rune
   * is always kept, so a nonempty row of spaces keeps one; an empty row stays
   * empty.
   */
  method TrimRightSpace(row: seq<char>) returns (r: seq<char>)
    ensures |row| == 0 ==> r == []
    ensures |row| > 0 && TrimTrailing(row) == [] ==> r == row[..1]
    ensures |row| > 0 && TrimTrailing(row) != [] ==> r == TrimTrailing(row)
  {
    var index := |row| - 1;
    while index > 0
      invariant -1 <= index < |row|
      invariant |row| > 0 ==> 0 <= index
      invariant AllSpace(row[index + 1..])
      decreases index
    {
      if !IsSpace(row[index]) {
        break;
      }
      assert row[index..] == [row[index]] + row[index + 1..];
      index := index - 1;
    }
    r := row[..index + 1];
    if |row| > 0 {
      TrimTrailingBeforeRun(row);
      if !IsSpace(row[index]) {
        TrailingRunUnique(row, |row| - index - 1);
      } else {
        assert row[0..] == [row[0]] + row[1..];
        TrailingRunUnique(row, |row|);
      }
    }
  }

  /** Within the trailing run, a position is a space exactly until the run's start is passed. */
  lemma RunBoundary(row: seq<char>, c: int)
    requires 0 <= c < |row| && c <= TrailingRun(row)
    ensures IsSpace(row[|row| - c - 1]) <==> c < TrailingRun(row)
  {
    TrailingRunSpec(row);
    var t := TrailingRun(row);
    if c < t {
      assert row[|row| - t..][t - c - 1] == row[|row| - c - 1];
    }
  }

  /** Every suffix within the trailing run is white space. */
  lemma RunSuffix(row: seq<char>, c: int)
    requires 0 <= c <= TrailingRun(row)
    ensures AllSpace(row[|row| - c..])
  {
    TrailingRunSpec(row);
    var t := TrailingRun(row);
    var suffix := row[|row| - c..];
    forall i | 0 <= i < |suffix|
      ensures IsSpace(suffix[i])
    {
      assert suffix[i] == row[|row| - t..][t - c + i];
    }
  }

  /**
   * trimRightSpaceMax: drops at most max trailing spaces, k of them, and
   * returns what remains of the budget, max - k; only spaces are dropped.
   */
  method TrimRightSpaceMax(row: seq<char>, max: int) returns (r: seq<char>, left: int)
    ensures var k := if max <= 0 then 0 else if max < TrailingRun(row) then max else TrailingRun(row);
      && r == row[..|row| - k] && left == max - k
    ensures AllSpace(row[|r|..])
  {
    var count := 0;
    var index := 0;
    while index < |row| && count < max
      invariant index == count <= TrailingRun(row)
      invariant max <= 0 ==> count == 0
      invariant max > 0 ==> count <= max
      decreases |row| - index
    {
      RunBoundary(row, index);
      if !IsSpace(row[|row| - (index + 1)]) {
        break;
      }
      count := count + 1;
      index := index + 1;
    }
    if count < |row| {
      RunBoundary(row, count);
    }
    RunSuffix(row, count);
    return row[..|row| - count], max - count;
  }

  /**
   * trimLeftSpaceMax: drops the leading spaces, but no more than max of them,
   * and returns what remains of the budget. A row of spaces no longer than
   * max comes back whole, with the whole budget.
   */
  method TrimLeftSpaceMax(row: seq<char>, max: int) returns (r: seq<char>, left: int)
    ensures var k := if 0 <= max < LeadingRun(row) then max else LeadingRun(row);
      && (k < |row| ==> r == row[k..] && left == max - k)
      && (k == |row| ==> r == row && left == max)
  {
    LeadingRunSpec(row);
    for index := 0 to |row|
      invariant index <= LeadingRun(row)
      invariant 0 <= max ==> index <= max
    {
      if !IsSpace(row[index]) || index == max {
        return row[index..], max - index;
      }
      assert row[..LeadingRun(row)][index] == row[index];
    }
    return row, max;
  }

  /**
   * replaceRunes: every rune equal to old is overwritten with new, in place;
   * the slice it returns is the one it was given.
   */
  method ReplaceRunes(row: array<char>, oldRune: char, newRune: char) returns (result: array<char>)
    modifies row
    ensures result == row
    ensures forall i :: 0 <= i < row.Length ==>
      row[i] == if old(row[i]) == oldRune then newRune else old(row[i])
  {
    for index := 0 to row.Length
      invariant forall i :: 0 <= i < index ==>
        row[i] == if old(row[i]) == oldRune then newRune else old(row[i])
      invariant forall i :: index <= i < row.Length ==> row[i] == old(row[i])
    {
      if row[index] == oldRune {
        row[index] := newRune;
      }
    }
    return row;
  }

  /** The spaces between two letter rows pushed together: the trailing count of a plus the leading run of b. */
  function SpaceBetween(rowA: seq<char>, rowB: seq<char>): nat {
    TrailingSpaceCount(rowA) + LeadingRun(rowB)
  }

  function MaxInt(a: int, b: int): int {
    if a > b then a else b
  }

  /**
   * trimAmount, with the rows of the two letters passed in: the smallest
   * space between the letters over the first height rows, starting from the
   * larger of the two row counts.
   */
  method TrimAmount(rowsA: seq<seq<char>>, rowsB: seq<seq<char>>, height: int) returns (trimCount: int)
    requires height <= |rowsA| && height <= |rowsB|
    ensures trimCount <= MaxInt(|rowsA|, |rowsB|)
    ensures forall r :: 0 <= r < height ==> trimCount <= SpaceBetween(rowsA[r], rowsB[r])
    ensures trimCount == MaxInt(|rowsA|, |rowsB|) ||
            exists r :: 0 <= r < height && trimCount == SpaceBetween(rowsA[r], rowsB[r])
  {
    if |rowsA| > |rowsB| {
      trimCount := |rowsA|;
    } else {
      trimCount := |rowsB|;
    }
    var r := 0;
    while r < height
      invariant 0 <= r <= MaxInt(height, 0)
      invariant trimCount <= MaxInt(|rowsA|, |rowsB|)
      invariant forall q :: 0 <= q < r ==> trimCount <= SpaceBetween(rowsA[q], rowsB[q])
      invariant trimCount == MaxInt(|rowsA|, |rowsB|) ||
                exists q :: 0 <= q < r && trimCount == SpaceBetween(rowsA[q], rowsB[q])
    {
      var spaceA := CountTrailingSpace(rowsA[r]);
      var spaceB := CountLeadingSpace(rowsB[r]);
      if trimCount > spaceA + spaceB {
        trimCount := spaceA + spaceB;
      }
      r := r + 1;
    }
  }
}
