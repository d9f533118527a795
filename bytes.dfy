/**
  Byte slices and Go's `bytes.Contains`, the only primitive the tokenizer's
  classifier is built from.
 */
module Bytes {

  /** Go's `byte`: an unsigned 8-bit value. */
  newtype byte = x: int | 0 <= x < 256

  /** `needle` occurs in `hay` as a contiguous run starting at index `i`. */
  predicate OccursAt(hay: seq<byte>, needle: seq<byte>, i: int)
  {
    0 <= i && i + |needle| <= |hay| && hay[i..i + |needle|] == needle
  }

  /** Go's `bytes.Contains(hay, needle)`: a substring test, not a membership
      test. The empty slice occurs (at index 0) in every slice, and no
      slice occurs in a shorter one. */
  function Contains(hay: seq<byte>, needle: seq<byte>): (r: bool)
    ensures needle == [] ==> r
    ensures |needle| > |hay| ==> !r
  {
    assert needle == [] ==> OccursAt(hay, needle, 0);
    exists i | 0 <= i <= |hay| - |needle| :: OccursAt(hay, needle, i)
  }

  /** The two cases the tokenizer relies on: every slice contains the empty
      slice, and for a one-byte needle `Contains` is plain membership. */
  lemma ContainsShortNeedle(hay: seq<byte>, needle: seq<byte>)
    ensures needle == [] ==> Contains(hay, needle)
    ensures |needle| == 1 ==> (Contains(hay, needle) <==> needle[0] in hay)
  {
    if needle == [] {
      assert OccursAt(hay, needle, 0);
    }
    if |needle| == 1 {
      if needle[0] in hay {
        var i :| 0 <= i < |hay| && hay[i] == needle[0];
        assert hay[i..i + 1] == needle;
        assert OccursAt(hay, needle, i);
      }
      if i :| OccursAt(hay, needle, i) {
        assert hay[i] == hay[i..i + 1][0];
      }
    }
  }
}
