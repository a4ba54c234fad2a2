/** Substring tests as Python's `in` operator performs them on `str` values. */
module Strings {

  /** `p` is a prefix of `s`. */
  predicate IsPrefix(p: string, s: string) {
    |p| <= |s| && s[..|p|] == p
  }

  /** Python's substring test on two strings: `pat` occurs somewhere in `s`.
      The empty pattern occurs in every string, the empty string included. */
  predicate Occurs(pat: string, s: string)
    decreases |s|
  {
    IsPrefix(pat, s) || (|s| > 0 && Occurs(pat, s[1..]))
  }

  /** Reference definition of an occurrence: `pat` starts at index `i` of `s`. */
  ghost predicate OccursAt(pat: string, s: string, i: int) {
    0 <= i && i + |pat| <= |s| && s[i..i + |pat|] == pat
  }

  /** The scanning definition agrees with the index-based one, in both directions. */
  lemma {:induction false} OccursIff(pat: string, s: string)
    ensures Occurs(pat, s) <==> exists i :: OccursAt(pat, s, i)
    decreases |s|
  {
    if IsPrefix(pat, s) {
      assert OccursAt(pat, s, 0);
    }
    if |s| == 0 {
      if exists i :: OccursAt(pat, s, i) {
        var i :| OccursAt(pat, s, i);
        assert IsPrefix(pat, s);
      }
    } else {
      OccursIff(pat, s[1..]);
      if exists i :: OccursAt(pat, s[1..], i) {
        var i :| OccursAt(pat, s[1..], i);
        assert s[1..][i..i + |pat|] == s[i + 1..i + 1 + |pat|];
        assert OccursAt(pat, s, i + 1);
      }
      if exists i :: OccursAt(pat, s, i) {
        var i :| OccursAt(pat, s, i);
        if i == 0 {
          assert IsPrefix(pat, s);
        } else {
          assert s[1..][i - 1..i - 1 + |pat|] == s[i..i + |pat|];
          assert OccursAt(pat, s[1..], i - 1);
        }
      }
    }
  }

  /** A pattern holding a character that the string lacks does not occur in it. */
  lemma MissingChar(pat: string, s: string, c: char)
    requires c in pat && c !in s
    ensures !Occurs(pat, s)
  {
    OccursIff(pat, s);
  }

  /** Some pattern of the list occurs in `s`; false for an empty list. */
  predicate AnyOccurs(pats: seq<string>, s: string) {
    exists p :: p in pats && Occurs(p, s)
  }
}
