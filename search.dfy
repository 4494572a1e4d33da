/** `str.find`, slicing with a possibly negative start, and `str.lower`. */
module Search {

  /** `pat` occurs in `s` starting at index `i`. */
  predicate OccursAt(s: string, pat: string, i: int) {
    0 <= i && i + |pat| <= |s| && s[i..i + |pat|] == pat
  }

  /** `s.find(pat, k)`: the first occurrence at or after `k`, or -1. */
  function FindFrom(s: string, pat: string, k: nat): (r: int)
    ensures r == -1 || (k <= r && OccursAt(s, pat, r))
    ensures forall i | k <= i && (r == -1 || i < r) :: !OccursAt(s, pat, i)
    decreases |s| - k
  {
    if k + |pat| > |s| then -1
    else if s[k..k + |pat|] == pat then k
    else FindFrom(s, pat, k + 1)
  }

  /** `s.find(pat)`. */
  function Find(s: string, pat: string): (r: int)
    ensures r == -1 <==> forall i :: !OccursAt(s, pat, i)
    ensures r != -1 ==> 0 <= r && OccursAt(s, pat, r) && forall i | 0 <= i < r :: !OccursAt(s, pat, i)
  {
    FindFrom(s, pat, 0)
  }

  /**
   * `s[i:]`: a negative start counts from the end and is clamped at 0; a
   * start past the end gives the empty string.
   */
  function SliceFrom(s: string, i: int): (r: string)
    ensures i >= 0 ==> r == if i <= |s| then s[i..] else []
    ensures i < 0 ==> r == s[if |s| + i < 0 then 0 else |s| + i..]
  {
    var j := if i < 0 then (if |s| + i < 0 then 0 else |s| + i)
             else (if i > |s| then |s| else i);
    s[j..]
  }

  /** `s[-1:]` keeps only the last character (nothing for the empty string). */
  lemma SliceFromMinusOne(s: string)
    ensures |SliceFrom(s, -1)| == if s == [] then 0 else 1
    ensures s != [] ==> SliceFrom(s, -1) == [s[|s| - 1]]
  {
  }

  /** `c.lower()` for ASCII letters; other characters are kept. */
  function LowerChar(c: char): char {
    if 'A' <= c <= 'Z' then (c as int - 'A' as int + 'a' as int) as char else c
  }

  /** `s.lower()`. */
  function Lower(s: string): (r: string)
    ensures |r| == |s|
    ensures forall i | 0 <= i < |s| :: r[i] == LowerChar(s[i])
  {
    seq(|s|, i requires 0 <= i < |s| => LowerChar(s[i]))
  }
}
