/** String library code the programs call as a black box: searching, slicing, splitting. */
module Texts {

  predicate OccursAt(s: string, pat: string, i: int) {
    0 <= i && i + |pat| <= |s| && forall k :: 0 <= k < |pat| ==> s[i + k] == pat[k]
  }

  lemma OccursHead(s: string, pat: string, i: nat)
    requires pat != ""
    ensures OccursAt(s, pat, i) ==> i < |s| && s[i] == pat[0]
  {
    assert OccursAt(s, pat, i) ==> s[i + 0] == pat[0];
  }

  lemma Misses(s: string, pat: string, i: nat, k: nat)
    requires k < |pat| && i + k < |s| && s[i + k] != pat[k]
    ensures !OccursAt(s, pat, i)
  {
  }

  lemma OccursInSlice(s: string, lo: nat, hi: nat, pat: string, i: int)
    requires lo <= hi <= |s| && OccursAt(s[lo..hi], pat, i)
    ensures OccursAt(s, pat, lo + i)
  {
    forall k | 0 <= k < |pat| ensures s[lo + i + k] == pat[k] {
      assert s[lo..hi][i + k] == s[lo + (i + k)];
    }
  }

  lemma OccursIntoSlice(s: string, lo: nat, hi: nat, pat: string, i: nat)
    requires lo <= hi <= |s| && lo + i + |pat| <= hi && OccursAt(s, pat, lo + i)
    ensures OccursAt(s[lo..hi], pat, i)
  {
    forall k | 0 <= k < |pat| ensures s[lo..hi][i + k] == pat[k] {
      assert s[lo + i + k] == pat[k];
    }
  }

  lemma SliceOccurs(s: string, pat: string, i: nat)
    requires i + |pat| <= |s|
    ensures s[i..i + |pat|] == pat <==> OccursAt(s, pat, i)
  {
    if s[i..i + |pat|] == pat {
      forall k | 0 <= k < |pat| ensures s[i + k] == pat[k] {
        assert s[i..i + |pat|][k] == s[i + k];
      }
    }
  }

  /** `s.indexOf(pat, from)`: the first occurrence at or after `from`, or -1. */
  function IndexOf(s: string, pat: string, from: nat): (r: int)
    ensures r == -1 || (from <= r && OccursAt(s, pat, r))
    ensures forall i :: from <= i && OccursAt(s, pat, i) ==> r != -1 && r <= i
    decreases |s| - from
  {
    if from + |pat| > |s| then -1
    else
      SliceOccurs(s, pat, from);
      if s[from..from + |pat|] == pat then from
      else if from == |s| then -1
      else IndexOf(s, pat, from + 1)
  }

  function LastIndexUpTo(s: string, pat: string, from: int): (r: int)
    requires from + |pat| <= |s|
    ensures r == -1 || (0 <= r <= from && OccursAt(s, pat, r))
    ensures forall i :: i <= from && OccursAt(s, pat, i) ==> i <= r
    decreases from
  {
    if from < 0 then -1
    else
      SliceOccurs(s, pat, from);
      if s[from..from + |pat|] == pat then from
      else LastIndexUpTo(s, pat, from - 1)
  }

  /** `s.lastIndexOf(pat)`: the last occurrence, or -1. */
  function LastIndexOf(s: string, pat: string): (r: int)
    ensures r == -1 || OccursAt(s, pat, r)
    ensures forall i :: OccursAt(s, pat, i) ==> i <= r
  {
    LastIndexUpTo(s, pat, |s| - |pat|)
  }

  /** Occurrences met scanning left to right without overlap: `s.split(pat).length - 1`. */
  function Occurrences(s: string, pat: string, from: nat): nat
    requires pat != ""
    decreases |s| - from
  {
    var i := IndexOf(s, pat, from);
    if i == -1 then 0 else 1 + Occurrences(s, pat, i + |pat|)
  }

  function Clamp(i: int, length: nat): nat {
    if i < 0 then (if i + length < 0 then 0 else i + length) else if i > length then length else i
  }

  /** JavaScript `s.slice(lo, hi)`, negative indices counting from the end. */
  function Slice(s: string, lo: int, hi: int): string {
    var (l, h) := (Clamp(lo, |s|), Clamp(hi, |s|));
    if l < h then s[l..h] else ""
  }
}
