/** Character and string operations the pipeline borrows from Python's `str`:
    `isalpha`, `lower`, `"".join` and the `in` substring test. Letters are the
    ASCII letters only. */
module Text {

  predicate IsLetter(c: char) {
    'a' <= c <= 'z' || 'A' <= c <= 'Z'
  }

  /** `str.isalpha`: non-empty, and every character is a letter. */
  predicate IsAlpha(s: string) {
    |s| > 0 && forall i :: 0 <= i < |s| ==> IsLetter(s[i])
  }

  function LowerChar(c: char): (r: char)
    ensures IsLetter(r) <==> IsLetter(c)
    ensures !('A' <= r <= 'Z')
    ensures !IsLetter(c) ==> r == c
  {
    if 'A' <= c <= 'Z' then (c as int - 'A' as int + 'a' as int) as char else c
  }

  /** `str.lower`, restricted to the ASCII letters. */
  function Lower(s: string): (r: string)
    ensures |r| == |s|
    ensures IsAlpha(r) <==> IsAlpha(s)
    ensures forall i :: 0 <= i < |r| ==> !('A' <= r[i] <= 'Z')
  {
    var r := seq(|s|, i requires 0 <= i < |s| => LowerChar(s[i]));
    assert forall i :: 0 <= i < |s| ==> (IsLetter(r[i]) <==> IsLetter(s[i]));
    r
  }

  /** Lower-casing works character by character, so it distributes over concatenation. */
  lemma LowerAppend(a: string, b: string)
    ensures Lower(a + b) == Lower(a) + Lower(b)
  {
    assert forall i :: 0 <= i < |a + b| ==> Lower(a + b)[i] == (Lower(a) + Lower(b))[i];
  }

  /** `"".join(parts)`: the parts concatenated with no separator. */
  function Join(parts: seq<string>): string {
    if parts == [] then "" else Join(parts[..|parts| - 1]) + parts[|parts| - 1]
  }

  /** Python's `needle in haystack` on strings. */
  predicate IsSubstring(needle: string, haystack: string) {
    exists i :: 0 <= i <= |haystack| && OccursAt(needle, haystack, i)
  }

  predicate OccursAt(needle: string, haystack: string, i: int) {
    0 <= i <= |haystack| - |needle| && haystack[i..i + |needle|] == needle
  }

  /** A substring of a part of a string is a substring of the whole. */
  lemma SubstringOfSlice(needle: string, haystack: string, lo: nat, hi: nat)
    requires lo <= hi <= |haystack|
    requires IsSubstring(needle, haystack[lo..hi])
    ensures IsSubstring(needle, haystack)
  {
    var i :| 0 <= i <= hi - lo && OccursAt(needle, haystack[lo..hi], i);
    var inPart, inWhole := haystack[lo..hi][i..i + |needle|], haystack[lo + i..lo + i + |needle|];
    forall k | 0 <= k < |needle| ensures inPart[k] == inWhole[k] {
    }
    assert inWhole == inPart;
    assert OccursAt(needle, haystack, lo + i);
  }
}
