/** The Python string operations the plugin and its loader rely on. */
module Strings {
  import opened Base

  /** `pat` occurs in `s` starting at index `i`. */
  predicate OccursAt(pat: string, s: string, i: nat) {
    i + |pat| <= |s| && s[i..i + |pat|] == pat
  }

  /** Python's `s.startswith(p)`. */
  predicate StartsWith(s: string, p: string) {
    OccursAt(p, s, 0)
  }

  /** Python's `s.endswith(p)`. */
  predicate EndsWith(s: string, p: string) {
    |p| <= |s| && s[|s| - |p|..] == p
  }

  /** Appending the same character to both keeps a suffix a suffix. */
  lemma EndsWithSnoc(s: string, p: string, c: char)
    requires EndsWith(s, p)
    ensures EndsWith(s + [c], p + [c])
  {
    assert (s + [c])[|s| - |p|..] == s[|s| - |p|..] + [c];
  }

  /** Python's `s.find(pat, from)`: the first index at or after `from` where `pat` occurs. */
  function FindFrom(s: string, pat: string, from: nat): (r: Option<nat>)
    requires from <= |s|
    ensures r.Some? ==> from <= r.value && OccursAt(pat, s, r.value)
    ensures r.Some? ==> forall j: nat :: from <= j < r.value ==> !OccursAt(pat, s, j)
    ensures r.None? <==> forall j: nat :: from <= j ==> !OccursAt(pat, s, j)
    decreases |s| - from
  {
    if OccursAt(pat, s, from) then Some(from)
    else if from == |s| then None
    else FindFrom(s, pat, from + 1)
  }

  /** Python's `pat in s` on strings: substring containment. */
  predicate Contains(s: string, pat: string)
    ensures Contains(s, pat) <==> exists i: nat :: OccursAt(pat, s, i)
  {
    FindFrom(s, pat, 0).Some?
  }

  /** Python's `s.replace(pat, rep, 1)`: only the first occurrence is replaced. */
  function ReplaceFirst(s: string, pat: string, rep: string): (r: string)
    ensures (forall i: nat :: !OccursAt(pat, s, i)) ==> r == s
    ensures StartsWith(s, pat) ==> r == rep + s[|pat|..]
  {
    match FindFrom(s, pat, 0)
    case None => s
    case Some(k) => s[..k] + rep + s[k + |pat|..]
  }

  /** Python's `s.replace(a, b)` for single characters: every `a` becomes `b`. */
  function ReplaceChar(s: string, a: char, b: char): (r: string)
    ensures |r| == |s|
    ensures a != b ==> a !in r
  {
    seq(|s|, i requires 0 <= i < |s| => if s[i] == a then b else s[i])
  }

  /** Python's `s.rstrip(chars)`: drops the longest suffix made only of characters in `cs`. */
  function RStrip(s: string, cs: set<char>): (r: string)
    ensures |r| <= |s| && r == s[..|r|]
    ensures r == [] || r[|r| - 1] !in cs
    ensures forall i :: |r| <= i < |s| ==> s[i] in cs
  {
    if s == [] || s[|s| - 1] !in cs then s
    else RStrip(s[..|s| - 1], cs)
  }

  /** Total number of characters in `xs`. */
  function TotalLength(xs: seq<string>): nat {
    if xs == [] then 0 else |xs[0]| + TotalLength(xs[1..])
  }

  /** Python's `sep.join(xs)`. */
  function Join(sep: string, xs: seq<string>): (r: string)
    ensures xs == [] ==> r == []
    ensures xs != [] ==> |r| == TotalLength(xs) + |sep| * (|xs| - 1)
    ensures xs != [] ==> StartsWith(r, xs[0]) && EndsWith(r, xs[|xs| - 1])
  {
    if xs == [] then []
    else if |xs| == 1 then xs[0]
    else
      var rest := Join(sep, xs[1..]);
      assert (xs[0] + sep + rest)[|xs[0] + sep|..] == rest;
      xs[0] + sep + rest
  }

  /** Stripping twice changes nothing further. */
  lemma {:induction false} RStripIdempotent(s: string, cs: set<char>)
    ensures RStrip(RStrip(s, cs), cs) == RStrip(s, cs)
  {
  }
}
