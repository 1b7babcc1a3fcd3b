/**
 * The few .NET string operations the clipboard backend relies on:
 * `char.IsWhiteSpace`, `string.IsNullOrWhiteSpace`, `Trim()`, `TrimEnd(c)`,
 * `EndsWith(..., StringComparison.OrdinalIgnoreCase)`, and the case-sensitive
 * prefix match an object store applies to a listing's `Prefix`.
 */
module Strings {
  import opened Wrappers

  /** `char.IsWhiteSpace`: the Unicode separators plus the control characters U+0009..U+000D and U+0085. */
  predicate IsWhiteSpace(c: char) {
    || c == ' '
    || ('\t' <= c <= '\r')
    || c == '\U{0085}'
    || c == '\U{00A0}'
    || c == '\U{1680}'
    || ('\U{2000}' <= c <= '\U{200A}')
    || c == '\U{2028}'
    || c == '\U{2029}'
    || c == '\U{202F}'
    || c == '\U{205F}'
    || c == '\U{3000}'
  }

  /** Every character of `s` is white space (true of the empty string). */
  predicate IsBlank(s: string) {
    forall i | 0 <= i < |s| :: IsWhiteSpace(s[i])
  }

  /** `string.IsNullOrWhiteSpace`. */
  predicate IsNullOrWhiteSpace(s: Option<string>) {
    s.None? || IsBlank(s.value)
  }

  /** The characters of `s` from `lo` up to `hi` are all white space. */
  predicate BlankBetween(s: string, lo: int, hi: int)
    requires 0 <= lo <= hi <= |s|
  {
    forall i | lo <= i < hi :: IsWhiteSpace(s[i])
  }

  /** How many white-space characters `s` starts with. */
  function LeadingWhiteSpace(s: string): (n: nat)
    ensures n <= |s| && BlankBetween(s, 0, n)
    ensures n < |s| ==> !IsWhiteSpace(s[n])
  {
    if s == [] || !IsWhiteSpace(s[0]) then 0 else 1 + LeadingWhiteSpace(s[1..])
  }

  /** How many white-space characters `s` ends with. */
  function TrailingWhiteSpace(s: string): (n: nat)
    ensures n <= |s| && BlankBetween(s, |s| - n, |s|)
    ensures n < |s| ==> !IsWhiteSpace(s[|s| - n - 1])
  {
    if s == [] || !IsWhiteSpace(s[|s| - 1]) then 0 else 1 + TrailingWhiteSpace(s[..|s| - 1])
  }

  /**
   * `Trim()`: the part of `s` between its leading and its trailing white
   * space. It is empty exactly when `s` is blank, and otherwise starts and
   * ends with a character that is not white space.
   */
  function Trim(s: string): (r: string)
    ensures var lead := LeadingWhiteSpace(s);
      && lead + |r| <= |s|
      && r == s[lead..lead + |r|]
      && BlankBetween(s, lead + |r|, |s|)
    ensures r == [] <==> IsBlank(s)
    ensures r != [] ==> !IsWhiteSpace(r[0]) && !IsWhiteSpace(r[|r| - 1])
  {
    var lead := LeadingWhiteSpace(s);
    if lead == |s| then
      []
    else
      var trail := TrailingWhiteSpace(s);
      assert lead < |s| - trail;
      s[lead..|s| - trail]
  }

  /** `TrimEnd(c)`: drops every trailing `c`, and nothing else. */
  function TrimEndChar(s: string, c: char): (r: string)
    ensures |r| <= |s| && r == s[..|r|]
    ensures forall i | |r| <= i < |s| :: s[i] == c
    ensures r == [] || r[|r| - 1] != c
  {
    if s != [] && s[|s| - 1] == c then TrimEndChar(s[..|s| - 1], c) else s
  }

  /** Appending any run of `c` to `s` does not change `s.TrimEnd(c)`. */
  lemma {:induction false} TrimEndCharIgnoresRun(s: string, run: string, c: char)
    requires forall i | 0 <= i < |run| :: run[i] == c
    ensures TrimEndChar(s + run, c) == TrimEndChar(s, c)
    decreases |run|
  {
    if run != [] {
      var shorter := run[..|run| - 1];
      assert (s + run)[..|s + run| - 1] == s + shorter;
      TrimEndCharIgnoresRun(s, shorter, c);
    } else {
      assert s + run == s;
    }
  }

  /** `prefix` is a prefix of `s`, character for character: how `ListObjectsV2` matches a key against its `Prefix`. */
  predicate StartsWith(s: string, prefix: string) {
    |prefix| <= |s| && s[..|prefix|] == prefix
  }

  /** Upper-case mapping of ASCII letters; other characters map to themselves. */
  function ToUpperAscii(c: char): char {
    if 'a' <= c <= 'z' then (c as int - 32) as char else c
  }

  /** `string.Equals(a, b, StringComparison.OrdinalIgnoreCase)`, with ASCII case folding. */
  predicate EqualsIgnoreCase(a: string, b: string) {
    |a| == |b| && forall i | 0 <= i < |a| :: ToUpperAscii(a[i]) == ToUpperAscii(b[i])
  }

  /** `s.EndsWith(suffix, StringComparison.OrdinalIgnoreCase)`. */
  predicate EndsWithIgnoreCase(s: string, suffix: string) {
    |suffix| <= |s| && EqualsIgnoreCase(s[|s| - |suffix|..], suffix)
  }

  /** `StartsWith` is transitive through a longer prefix. */
  lemma StartsWithTrans(s: string, p: string, q: string)
    requires StartsWith(s, p) && StartsWith(p, q)
    ensures StartsWith(s, q)
  {
    assert s[..|q|] == s[..|p|][..|q|];
  }

  /** `s + t` starts with `s`. */
  lemma StartsWithConcat(s: string, t: string)
    ensures StartsWith(s + t, s)
  {
    assert (s + t)[..|s|] == s;
  }
}
