/** The two string primitives the matcher relies on: Python's `str.lower()`
    (restricted to ASCII letters) and Python's `needle in hay` on strings,
    which is substring containment. */
module Text {

  /** Python's `str.lower()` on one character, for the ASCII range:
      'A'..'Z' become 'a'..'z', everything else is unchanged. */
  function LowerChar(c: char): (d: char)
    ensures !('A' <= d <= 'Z')
    ensures 'A' <= c <= 'Z' ==> d as int == c as int + 32
    ensures !('A' <= c <= 'Z') ==> d == c
  {
    if 'A' <= c <= 'Z' then (c as int + 32) as char else c
  }

  /** Python's `s.lower()`, character by character. */
  function Lower(s: string): (r: string)
    ensures |r| == |s|
    ensures forall i :: 0 <= i < |s| ==> r[i] == LowerChar(s[i])
    ensures forall i :: 0 <= i < |r| ==> !('A' <= r[i] <= 'Z')
  {
    seq(|s|, i requires 0 <= i < |s| => LowerChar(s[i]))
  }

  /** Lower-casing distributes over concatenation. */
  lemma LowerAppend(a: string, b: string)
    ensures Lower(a + b) == Lower(a) + Lower(b)
  {
  }

  /** Lower-casing twice is lower-casing once. */
  lemma LowerIdempotent(s: string)
    ensures Lower(Lower(s)) == Lower(s)
  {
  }

  /** The window of `hay` starting at `i` spells `needle`. */
  ghost predicate OccursAt(needle: string, hay: string, i: int)
  {
    0 <= i <= |hay| - |needle| && hay[i..i + |needle|] == needle
  }

  /** Python's `needle in hay`: some window of `hay` spells `needle`. As in
      Python, the empty string occurs in every string, and a needle longer
      than `hay` never occurs. */
  ghost predicate IsSubstring(needle: string, hay: string)
    ensures |needle| == 0 ==> IsSubstring(needle, hay)
    ensures |needle| > |hay| ==> !IsSubstring(needle, hay)
  {
    assert OccursAt(needle, hay, 0) || |needle| != 0;
    exists i :: OccursAt(needle, hay, i)
  }

  /** An occurrence in the tail of `hay` is an occurrence in `hay`, and an
      occurrence in `hay` that is not at position 0 is one in the tail. */
  lemma SubstringShift(needle: string, hay: string)
    requires |hay| > 0
    ensures IsSubstring(needle, hay[1..]) ==> IsSubstring(needle, hay)
    ensures IsSubstring(needle, hay) && hay[..|needle|] != needle ==> IsSubstring(needle, hay[1..])
  {
    var tail := hay[1..];
    if IsSubstring(needle, tail) {
      var i :| OccursAt(needle, tail, i);
      assert OccursAt(needle, hay, i + 1);
    }
    if IsSubstring(needle, hay) && hay[..|needle|] != needle {
      var i :| OccursAt(needle, hay, i);
      assert i != 0;
      assert OccursAt(needle, tail, i - 1);
    }
  }

  /** Executable substring search, scanning `hay` left to right; it decides
      exactly Python's `needle in hay`. */
  function Occurs(needle: string, hay: string): (b: bool)
    ensures b <==> IsSubstring(needle, hay)
    decreases |hay|
  {
    if |hay| < |needle| then false
    else if hay[..|needle|] == needle then assert OccursAt(needle, hay, 0); true
    else SubstringShift(needle, hay); Occurs(needle, hay[1..])
  }

  /** A substring of `a` is a substring of any string that extends `a`
      on either side. */
  lemma SubstringOfConcat(needle: string, a: string, b: string)
    ensures IsSubstring(needle, a) ==> IsSubstring(needle, a + b)
    ensures IsSubstring(needle, b) ==> IsSubstring(needle, a + b)
  {
    if IsSubstring(needle, a) {
      var i :| OccursAt(needle, a, i);
      assert OccursAt(needle, a + b, i);
    }
    if IsSubstring(needle, b) {
      var i :| OccursAt(needle, b, i);
      assert (a + b)[|a| + i..|a| + i + |needle|] == b[i..i + |needle|];
      assert OccursAt(needle, a + b, |a| + i);
    }
  }

  /** A string holding a character that `hay` lacks does not occur in `hay`. */
  lemma MissingCharNotSubstring(needle: string, hay: string, c: char)
    requires c in needle
    requires c !in hay
    ensures !IsSubstring(needle, hay)
  {
  }

  /** A non-empty string never occurs inside the empty string. */
  lemma NotSubstringOfEmpty(needle: string)
    requires |needle| > 0
    ensures !IsSubstring(needle, "")
  {
  }
}
