/** Substring search, ASCII case folding and first-match search over sequences. */
module Strings {
  import opened Results

  /** `needle` occurs in `s` starting at index `i`. */
  predicate OccursAt(s: string, needle: string, i: int) {
    0 <= i && i + |needle| <= |s| && s[i..i + |needle|] == needle
  }

  ghost predicate Occurs(s: string, needle: string) {
    exists i :: OccursAt(s, needle, i)
  }

  /** Python `str.find` started at `from`: the first index `>= from` where
      `needle` occurs, or -1. */
  function FindFrom(s: string, needle: string, from: nat): (r: int)
    ensures r == -1 ==> forall i :: from <= i ==> !OccursAt(s, needle, i)
    ensures r != -1 ==> from <= r && OccursAt(s, needle, r)
    ensures r != -1 ==> forall j :: from <= j < r ==> !OccursAt(s, needle, j)
    decreases |s| + 1 - from
  {
    if from + |needle| > |s| then -1
    else if s[from..from + |needle|] == needle then from
    else FindFrom(s, needle, from + 1)
  }

  /** Python `s.find(needle)`: the index of the first occurrence, or -1. */
  function Find(s: string, needle: string): (r: int)
    ensures -1 <= r
    ensures r == -1 <==> !Occurs(s, needle)
    ensures r != -1 ==> OccursAt(s, needle, r)
    ensures r != -1 ==> forall j :: 0 <= j < r ==> !OccursAt(s, needle, j)
  {
    FindFrom(s, needle, 0)
  }

  /** Python `needle in s` for two strings. */
  predicate Contains(s: string, needle: string) {
    Find(s, needle) != -1
  }

  /** Lower-casing of the ASCII letters only, as Rust's `to_ascii_lowercase`. */
  function AsciiLower(c: char): (r: char)
    ensures 'A' <= c <= 'Z' ==> 'a' <= r <= 'z' && r as int == c as int + 32
    ensures !('A' <= c <= 'Z') ==> r == c
  {
    if 'A' <= c <= 'Z' then (c as int + 32) as char else c
  }

  function AsciiLowerStr(s: string): (r: string)
    ensures |r| == |s|
    ensures forall i :: 0 <= i < |s| ==> r[i] == AsciiLower(s[i])
  {
    seq(|s|, i requires 0 <= i < |s| => AsciiLower(s[i]))
  }

  /** Rust `str::eq_ignore_ascii_case`. */
  predicate EqIgnoreAsciiCase(a: string, b: string): (r: bool)
    ensures r <==> |a| == |b| && forall i :: 0 <= i < |a| ==> AsciiLower(a[i]) == AsciiLower(b[i])
  {
    AsciiLowerStr(a) == AsciiLowerStr(b)
  }

  /** The index of the first element of `xs` satisfying `p`, searching from `from`. */
  function FirstIndexFrom<T>(xs: seq<T>, p: T -> bool, from: nat): (r: Option<nat>)
    ensures r.Some? ==> from <= r.value < |xs| && p(xs[r.value])
    ensures r.Some? ==> forall j :: from <= j < r.value ==> !p(xs[j])
    ensures r.None? ==> forall j :: from <= j < |xs| ==> !p(xs[j])
    decreases |xs| - from
  {
    if from >= |xs| then None
    else if p(xs[from]) then Some(from)
    else FirstIndexFrom(xs, p, from + 1)
  }
}
