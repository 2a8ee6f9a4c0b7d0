/**
 * `chunkText`: cutting a long field into pieces of at most `size` characters
 * for the Flex message's text components, which the worker calls with
 * `size` 300.
 */
module Chunking {
  import opened Wrappers

  /** The pieces put back together. */
  function Concat(pieces: seq<string>): string {
    if |pieces| == 0 then "" else Concat(pieces[..|pieces| - 1]) + pieces[|pieces| - 1]
  }

  /** What `chunkText` promises of its result for the string `s`. */
  predicate IsChunking(pieces: seq<string>, s: string, size: nat) {
    && Concat(pieces) == s
    && (forall k :: 0 <= k < |pieces| ==> 0 < |pieces[k]| <= size)
    && (forall k :: 0 <= k < |pieces| - 1 ==> |pieces[k]| == size)
  }

  /**
   * `chunkText(s, size)`: a missing value counts as the empty string; the
   * loop steps `i` by `size` while `i` is below the length and pushes
   * `str.slice(i, i + size)`, which stops at the end of the string.
   */
  method ChunkText(s: Option<string>, size: nat) returns (out: seq<string>)
    requires size > 0
    ensures IsChunking(out, s.GetOr(""), size)
    ensures out == [] <==> s.GetOr("") == ""
  {
    var str := s.GetOr("");
    out := [];
    var i := 0;
    while i < |str|
      invariant 0 <= i
      invariant i < |str| ==> Concat(out) == str[..i]
      invariant i >= |str| ==> Concat(out) == str
      invariant forall k :: 0 <= k < |out| ==> 0 < |out[k]| <= size
      invariant i < |str| ==> forall k :: 0 <= k < |out| ==> |out[k]| == size
      invariant forall k :: 0 <= k < |out| - 1 ==> |out[k]| == size
      invariant out == [] <==> i == 0
      decreases |str| - i
    {
      var j := if i + size <= |str| then i + size else |str|;
      var piece := str[i..j];
      assert str[..i] + piece == str[..j];
      ghost var before := out;
      out := out + [piece];
      assert out[..|out| - 1] == before;
      i := i + size;
    }
  }
}
