/**
 * Strings as sequences of characters: an ASCII case fold and substring search
 * (the `toLowerCase` and `includes` the catalog search relies on).
 */
module Text {

  /** True for an upper-case ASCII letter. */
  predicate IsUpper(c: char)
  {
    'A' <= c <= 'Z'
  }

  /** ASCII case fold of one character; every character outside 'A'..'Z' is kept. */
  function LowerChar(c: char): (r: char)
    ensures !IsUpper(r)
    ensures !IsUpper(c) ==> r == c
  {
    if IsUpper(c) then (c as int - 'A' as int + 'a' as int) as char else c
  }

  /** ASCII case fold of a string, character by character. */
  function Lower(s: string): (r: string)
    ensures |r| == |s|
    ensures forall i :: 0 <= i < |r| ==> !IsUpper(r[i])
    ensures forall i :: 0 <= i < |r| ==> LowerChar(r[i]) == LowerChar(s[i])
  {
    seq(|s|, i requires 0 <= i < |s| => LowerChar(s[i]))
  }

  /** Folding twice is folding once. */
  lemma LowerIdempotent(s: string)
    ensures Lower(Lower(s)) == Lower(s)
  {
  }

  /** `part` occurs in `s` starting at index `i`. */
  ghost predicate OccursAt(part: string, s: string, i: int)
  {
    0 <= i <= |s| - |part| && s[i..i + |part|] == part
  }

  /** `part` occurs somewhere in `s` (the empty string occurs in every string). */
  ghost predicate IsSubstring(part: string, s: string)
  {
    exists i :: OccursAt(part, s, i)
  }

  /** Unanchored substring test, scanning `s` from the left. */
  function Includes(s: string, part: string): (r: bool)
    ensures r <==> IsSubstring(part, s)
    decreases |s|
  {
    if |part| > |s| then false
    else if s[..|part|] == part then
      assert OccursAt(part, s, 0);
      true
    else
      var t := s[1..];
      var r := Includes(t, part);
      if r then
        assert IsSubstring(part, s) by {
          var j :| OccursAt(part, t, j);
          assert t[j..j + |part|] == s[j + 1..j + 1 + |part|];
          assert OccursAt(part, s, j + 1);
        }
        r
      else
        assert !IsSubstring(part, s) by {
          forall i | OccursAt(part, s, i)
            ensures OccursAt(part, t, i - 1)
          {
            assert i != 0;
            assert t[i - 1..i - 1 + |part|] == s[i..i + |part|];
          }
        }
        r
  }

  /** A string that does not contain the first character of `part` does not contain `part`. */
  lemma {:induction false} MissingCharNotSubstring(part: string, s: string)
    requires |part| > 0
    requires forall i :: 0 <= i < |s| ==> s[i] != part[0]
    ensures !IsSubstring(part, s)
  {
    forall i | 0 <= i <= |s| - |part|
      ensures !OccursAt(part, s, i)
    {
      assert s[i..i + |part|][0] == s[i];
    }
  }
}
