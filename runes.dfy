/**
 * Rune-level helpers from Go's standard library that the modelled code calls:
 * unicode.IsSpace, strings.ToLower (ASCII letters only), strings.TrimSpace and
 * utf8.RuneLen. A Go string is modelled as the sequence of its runes.
 */
module Runes {

  /** unicode.IsSpace: the Latin-1 spaces plus the other White_Space code points. */
  predicate IsSpace(c: char) {
    var n := c as int;
    (9 <= n <= 13) || n == 32 || n == 0x85 || n == 0xA0 || n == 0x1680 ||
    (0x2000 <= n <= 0x200A) || n == 0x2028 || n == 0x2029 || n == 0x202F ||
    n == 0x205F || n == 0x3000
  }

  predicate AllSpace(s: string) {
    forall i :: 0 <= i < |s| ==> IsSpace(s[i])
  }

  /** utf8.RuneLen for a valid rune: the number of UTF-8 bytes that encode it. */
  function RuneLen(c: char): (n: int)
    ensures 1 <= n <= 4
    ensures n == 1 <==> c as int < 0x80
  {
    if c as int < 0x80 then 1
    else if c as int < 0x800 then 2
    else if c as int < 0x10000 then 3
    else 4
  }

  /** unicode.ToLower restricted to ASCII letters. */
  function LowerRune(c: char): char {
    if 'A' <= c <= 'Z' then (c as int + 32) as char else c
  }

  function ToLower(s: string): (r: string)
    ensures |r| == |s|
    ensures forall i :: 0 <= i < |s| ==> r[i] == LowerRune(s[i])
  {
    seq(|s|, i requires 0 <= i < |s| => LowerRune(s[i]))
  }

  /** The suffix of s that starts at its first non-space rune. */
  function TrimLeading(s: string): string {
    if |s| == 0 || !IsSpace(s[0]) then s else TrimLeading(s[1..])
  }

  /** The prefix of s that ends at its last non-space rune. */
  function TrimTrailing(s: string): string {
    if |s| == 0 || !IsSpace(s[|s| - 1]) then s else TrimTrailing(s[..|s| - 1])
  }

  /** strings.TrimSpace: drops leading and trailing white space. */
  function TrimSpace(s: string): string {
    TrimTrailing(TrimLeading(s))
  }

  /** TrimLeading removes exactly the leading spaces: what is left is a suffix not starting with one. */
  lemma {:induction false} TrimLeadingSpec(s: string)
    ensures var r := TrimLeading(s);
      && |r| <= |s| && r == s[|s| - |r|..]
      && AllSpace(s[..|s| - |r|])
      && (r == [] || !IsSpace(r[0]))
    decreases |s|
  {
    if |s| > 0 && IsSpace(s[0]) {
      TrimLeadingSpec(s[1..]);
      var r := TrimLeading(s[1..]);
      assert s[..|s| - |r|] == [s[0]] + s[1..][..|s| - 1 - |r|];
    }
  }

  /** TrimTrailing removes exactly the trailing spaces: what is left is a prefix not ending in one. */
  lemma {:induction false} TrimTrailingSpec(s: string)
    ensures var r := TrimTrailing(s);
      && |r| <= |s| && r == s[..|r|]
      && AllSpace(s[|r|..])
      && (r == [] || !IsSpace(r[|r| - 1]))
    decreases |s|
  {
    if |s| > 0 && IsSpace(s[|s| - 1]) {
      var init := s[..|s| - 1];
      TrimTrailingSpec(init);
      var r := TrimTrailing(init);
      assert s[|r|..] == init[|r|..] + [s[|s| - 1]];
    }
  }

  /**
   * strings.TrimSpace keeps the part of s between its leading and its
   * trailing white space: a slice of s that neither starts nor ends with a
   * space, with only spaces around it.
   */
  lemma TrimSpaceSpec(s: string)
    ensures var r := TrimSpace(s);
      && (r == [] || (!IsSpace(r[0]) && !IsSpace(r[|r| - 1])))
      && exists a :: 0 <= a <= |s| - |r| && r == s[a..a + |r|] && AllSpace(s[..a]) && AllSpace(s[a + |r|..])
  {
    var t := TrimLeading(s);
    var r := TrimTrailing(t);
    TrimLeadingSpec(s);
    TrimTrailingSpec(t);
    var a := |s| - |t|;
    assert t == s[a..];
    assert r == s[a..a + |r|];
    assert s[a + |r|..] == t[|r|..];
    if r != [] {
      assert r[0] == t[0];
    }
  }

  lemma LowerKeepsSpace(c: char)
    ensures IsSpace(LowerRune(c)) <==> IsSpace(c)
  {
  }

  lemma {:induction false} LowerTrimLeading(s: string)
    ensures ToLower(TrimLeading(s)) == TrimLeading(ToLower(s))
    decreases |s|
  {
    if |s| > 0 {
      var lower := ToLower(s);
      LowerKeepsSpace(s[0]);
      assert lower[0] == LowerRune(s[0]);
      if IsSpace(s[0]) {
        assert lower[1..] == ToLower(s[1..]);
        assert TrimLeading(s) == TrimLeading(s[1..]);
        assert TrimLeading(lower) == TrimLeading(lower[1..]);
        LowerTrimLeading(s[1..]);
      } else {
        assert TrimLeading(s) == s;
        assert TrimLeading(lower) == lower;
      }
    }
  }

  lemma {:induction false} LowerTrimTrailing(s: string)
    ensures ToLower(TrimTrailing(s)) == TrimTrailing(ToLower(s))
    decreases |s|
  {
    if |s| > 0 {
      var lower := ToLower(s);
      LowerKeepsSpace(s[|s| - 1]);
      assert lower[|s| - 1] == LowerRune(s[|s| - 1]);
      if IsSpace(s[|s| - 1]) {
        assert lower[..|s| - 1] == ToLower(s[..|s| - 1]);
        assert TrimTrailing(s) == TrimTrailing(s[..|s| - 1]);
        assert TrimTrailing(lower) == TrimTrailing(lower[..|s| - 1]);
        LowerTrimTrailing(s[..|s| - 1]);
      } else {
        assert TrimTrailing(s) == s;
        assert TrimTrailing(lower) == lower;
      }
    }
  }

  /** Lower-casing and trimming commute: spaces are never letters. */
  lemma LowerTrimSpace(s: string)
    ensures ToLower(TrimSpace(s)) == TrimSpace(ToLower(s))
  {
    LowerTrimLeading(s);
    LowerTrimTrailing(TrimLeading(s));
  }
}
