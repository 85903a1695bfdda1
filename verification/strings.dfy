/**
 * String operations the JavaScript and Python code relies on: ASCII
 * lower-casing, prefix/suffix tests, first-occurrence search and replace,
 * decimal rendering of whole numbers, and the accumulation of output chunks
 * that arrive from a child process.
 */
module Strings {
  import opened Base

  /** `String.prototype.toLowerCase` on one character; only A-Z change. */
  function LowerChar(c: char): char {
    if 'A' <= c <= 'Z' then (c as int + 32) as char else c
  }

  function Lower(s: string): (r: string)
    ensures |r| == |s|
    ensures forall i :: 0 <= i < |s| ==> r[i] == LowerChar(s[i])
  {
    if s == [] then [] else [LowerChar(s[0])] + Lower(s[1..])
  }

  predicate IsPrefix(p: string, s: string) {
    |p| <= |s| && s[..|p|] == p
  }

  predicate IsSuffix(p: string, s: string) {
    |p| <= |s| && s[|s| - |p|..] == p
  }

  /** `w` occurs in `s` starting at index `i`. */
  predicate OccursAt(s: string, w: string, i: int) {
    0 <= i && i + |w| <= |s| && s[i..i + |w|] == w
  }

  /** `s.includes(w)`, and equally an unanchored regular expression `/w/`. */
  predicate Contains(s: string, w: string) {
    exists i :: 0 <= i <= |s| - |w| && OccursAt(s, w, i)
  }

  /** The first index at or after `from` where `w` occurs in `s`. */
  function IndexOfFrom(s: string, w: string, from: nat): (r: Option<nat>)
    requires from <= |s|
    ensures r.Some? ==> from <= r.value && OccursAt(s, w, r.value)
    ensures r.Some? ==> forall j :: from <= j < r.value ==> !OccursAt(s, w, j)
    ensures r.None? ==> forall j :: from <= j ==> !OccursAt(s, w, j)
    decreases |s| - from
  {
    if OccursAt(s, w, from) then Some(from)
    else if from + |w| >= |s| then None
    else IndexOfFrom(s, w, from + 1)
  }

  /** `s.indexOf(w)`, with `None` for -1. */
  function IndexOf(s: string, w: string): (r: Option<nat>)
    ensures r.Some? <==> Contains(s, w)
    ensures r.Some? ==> OccursAt(s, w, r.value) && forall j :: 0 <= j < r.value ==> !OccursAt(s, w, j)
  {
    IndexOfFrom(s, w, 0)
  }

  /** `s.replace(w, rep)` with a string pattern: only the first occurrence is replaced. */
  function ReplaceFirst(s: string, w: string, rep: string): string {
    match IndexOf(s, w)
    case None => s
    case Some(i) => s[..i] + rep + s[i + |w|..]
  }

  /** `s.replace(/\\/g, '/')`: every backslash becomes a forward slash. */
  function BackslashesToSlashes(s: string): (r: string)
    ensures |r| == |s|
    ensures '\\' !in r
    ensures forall i :: 0 <= i < |s| ==> r[i] == if s[i] == '\\' then '/' else s[i]
  {
    if s == [] then [] else [if s[0] == '\\' then '/' else s[0]] + BackslashesToSlashes(s[1..])
  }

  /** Text without backslashes is left as it is. */
  lemma {:induction false} BackslashFreeUnchanged(s: string)
    requires '\\' !in s
    ensures BackslashesToSlashes(s) == s
  {
    if s != [] {
      BackslashFreeUnchanged(s[1..]);
    }
  }

  predicate IsDigit(c: char) {
    '0' <= c <= '9'
  }

  predicate AllDigits(s: string) {
    forall i :: 0 <= i < |s| ==> IsDigit(s[i])
  }

  function DigitChar(d: nat): (c: char)
    requires d < 10
    ensures IsDigit(c)
  {
    ('0' as int + d) as char
  }

  function DigitValue(c: char): (d: nat)
    requires IsDigit(c)
    ensures d < 10
  {
    c as int - '0' as int
  }

  /** `n.toString()` for a whole number: its decimal digits, most significant first. */
  function Decimal(n: nat): (r: string)
    ensures |r| >= 1 && AllDigits(r)
    decreases n
  {
    if n < 10 then [DigitChar(n)] else Decimal(n / 10) + [DigitChar(n % 10)]
  }

  /** The number a string of decimal digits denotes. */
  function DecimalValue(s: string): nat
    requires AllDigits(s)
  {
    if s == [] then 0 else DecimalValue(s[..|s| - 1]) * 10 + DigitValue(s[|s| - 1])
  }

  /** Reading back what `Decimal` wrote gives the number again. */
  lemma {:induction false} DecimalRoundTrip(n: nat)
    ensures DecimalValue(Decimal(n)) == n
    decreases n
  {
    if n >= 10 {
      var s := Decimal(n);
      assert s[..|s| - 1] == Decimal(n / 10);
      DecimalRoundTrip(n / 10);
    }
  }

  /** `xs.join(sep)`. */
  function JoinWith(xs: seq<string>, sep: string): string {
    if xs == [] then "" else if |xs| == 1 then xs[0] else xs[0] + sep + JoinWith(xs[1..], sep)
  }

  /** The concatenation of all chunks, in order. */
  function Concat(chunks: seq<string>): string {
    if chunks == [] then "" else Concat(chunks[..|chunks| - 1]) + chunks[|chunks| - 1]
  }

  /**
   * A `data` handler that appends every chunk to a captured string
   * (`text += data.toString()`), run over the chunks in arrival order.
   */
  method Accumulate(chunks: seq<string>) returns (text: string)
    ensures text == Concat(chunks)
    ensures |text| == TotalLength(chunks)
  {
    text := "";
    var i := 0;
    while i < |chunks|
      invariant 0 <= i <= |chunks|
      invariant text == Concat(chunks[..i])
      invariant |text| == TotalLength(chunks[..i])
    {
      assert chunks[..i + 1][..i] == chunks[..i];
      text := text + chunks[i];
      i := i + 1;
    }
    assert chunks[..i] == chunks;
  }

  /** The sum of the chunk lengths. */
  function TotalLength(chunks: seq<string>): nat {
    if chunks == [] then 0 else TotalLength(chunks[..|chunks| - 1]) + |chunks[|chunks| - 1]|
  }
}
