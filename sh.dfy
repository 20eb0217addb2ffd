/**
 * sh/args_trailer.go and sh/limit_bytes.go: finding the arguments after a
 * "--" token, and a writer that refuses writes once a byte budget would be
 * reached.
 */
module Sh {
  import opened Runes

  /** Why ArgsTrailer found no trailer (both are the ErrFlagsNoTrailer class). */
  datatype TrailerError = MissingToken | TokenIsLast

  datatype TrailerResult = Trailer(args: seq<string>) | NoTrailer(reason: TrailerError)

  /** An argument that is the "--" token once white space is trimmed. */
  predicate IsToken(arg: string) {
    TrimSpace(arg) == "--"
  }

  /** The index of the first "--" token, or |args| when there is none. */
  function FirstToken(args: seq<string>): (f: nat)
    ensures f <= |args|
  {
    if |args| == 0 then 0
    else if IsToken(args[0]) then 0
    else 1 + FirstToken(args[1..])
  }

  /** FirstToken is the first index holding a token, and no earlier argument is one. */
  lemma {:induction false} FirstTokenSpec(args: seq<string>)
    ensures var f := FirstToken(args);
      && (forall i :: 0 <= i < f ==> !IsToken(args[i]))
      && (f < |args| ==> IsToken(args[f]))
    decreases |args|
  {
    if |args| > 0 && !IsToken(args[0]) {
      FirstTokenSpec(args[1..]);
      forall i | 1 <= i < FirstToken(args)
        ensures !IsToken(args[i])
      {
        assert args[i] == args[1..][i - 1];
      }
    }
  }

  /**
   * foundIndex as the scan leaves it: the index of the first token, or 0 when
   * there is none, so a token at index 0 and no token look the same.
   */
  function FoundIndex(args: seq<string>): nat {
    if FirstToken(args) < |args| then FirstToken(args) else 0
  }

  /**
   * ArgsTrailer: the arguments after the first "--" token. No token, or a
   * token at index 0, is the missing-token error; a token as the last
   * argument is the nothing-follows error.
   */
  method ArgsTrailer(args: seq<string>) returns (r: TrailerResult)
    ensures FoundIndex(args) == 0 <==> r == NoTrailer(MissingToken)
    ensures 0 < FoundIndex(args) == |args| - 1 <==> r == NoTrailer(TokenIsLast)
    ensures r.Trailer? <==> 0 < FoundIndex(args) < |args| - 1
    ensures r.Trailer? ==> r.args == args[FoundIndex(args) + 1..]
  {
    var foundIndex := 0;
    for index := 0 to |args|
      invariant forall i :: 0 <= i < index ==> !IsToken(args[i])
    {
      if TrimSpace(args[index]) == "--" {
        foundIndex := index;
        break;
      }
    }
    FirstTokenSpec(args);
    if foundIndex == 0 {
      return NoTrailer(MissingToken);
    }
    if foundIndex == |args| - 1 {
      return NoTrailer(TokenIsLast);
    }
    return Trailer(args[foundIndex + 1..]);
  }

  /** Scanning finds the first token; later tokens stay in the trailer. */
  lemma TrailerAfterFirstToken(args: seq<string>, f: int)
    requires 0 < f < |args| - 1 && IsToken(args[f])
    requires forall i :: 0 <= i < f ==> !IsToken(args[i])
    ensures FoundIndex(args) == f
    ensures |args[f + 1..]| == |args| - f - 1 > 0
  {
    FirstTokenSpec(args);
  }

  /** A token at index 0 hides any later token: the scan reports no trailer. */
  lemma TokenFirstHidesLater(args: seq<string>)
    requires |args| > 0 && IsToken(args[0])
    ensures FoundIndex(args) == 0
  {
  }

  /** Without any token, the scan reports no trailer. */
  lemma NoTokenNoTrailer(args: seq<string>)
    requires forall i :: 0 <= i < |args| ==> !IsToken(args[i])
    ensures FoundIndex(args) == 0
  {
    FirstTokenSpec(args);
  }

  /** The outcome of a Write: accepted, refused for capacity, or accepted with the inner writer's error. */
  datatype WriteResult = Written | CapacityLimit | InnerError

  /**
   * MaxBytesWriter: counts the bytes its inner writer accepted and refuses a
   * write once the count would reach max. The inner writer is modelled by the
   * log of the byte slices handed to it; its reply to each call is passed
   * in. The mutex is left out: the model is sequential.
   */
  class MaxBytesWriter {
    const max: int
    var count: int
    var inner: seq<seq<bv8>>

    /** LimitBytes: a writer with the given maximum that has written nothing. */
    constructor LimitBytes(maxBytes: int)
      ensures max == maxBytes && count == 0 && inner == []
    {
      max := maxBytes;
      count := 0;
      inner := [];
    }

    method Max() returns (m: int)
      ensures m == max
    {
      return max;
    }

    method Count() returns (c: int)
      ensures c == count
    {
      return count;
    }

    /**
     * Write: refused, with nothing counted and nothing passed on, when the
     * count has reached max or the contents would take it to max or beyond.
     * Otherwise the contents go to the inner writer, whose reply
     * (innerWritten bytes, innerFailed) is added to the count even when it
     * failed.
     */
    method Write(contents: seq<bv8>, innerWritten: int, innerFailed: bool) returns (n: int, result: WriteResult)
      modifies this
      ensures old(count) >= max || |contents| + old(count) >= max ==>
                n == 0 && result == CapacityLimit && count == old(count) && inner == old(inner)
      ensures old(count) < max && |contents| + old(count) < max ==>
                && n == innerWritten && count == old(count) + innerWritten
                && inner == old(inner) + [contents]
                && result == (if innerFailed then InnerError else Written)
      ensures 0 <= innerWritten <= |contents| ==> old(count) <= count && (result != CapacityLimit ==> count < max)
    {
      if count >= max {
        return 0, CapacityLimit;
      }
      if |contents| + count >= max {
        return 0, CapacityLimit;
      }
      inner := inner + [contents];
      var written := innerWritten;
      count := count + written;
      if innerFailed {
        return written, InnerError;
      }
      return written, Written;
    }
  }
}
