/** The pieces of Go's standard library that the rewrite relies on:
    the RE2 character classes `\s` and `\w`, and `strings.TrimSpace` and
    `strings.CutPrefix`, written out over `string` (a `seq<char>`). */
module Text {

  /** RE2's `\s`, which is exactly `[\t\n\f\r ]` (no vertical tab). */
  predicate IsSpace(c: char) {
    c == ' ' || c == '\t' || c == '\n' || c == '\U{C}' || c == '\r'
  }

  /** RE2's `\w`, which is exactly `[0-9A-Za-z_]`. */
  predicate IsWord(c: char) {
    ('0' <= c <= '9') || ('A' <= c <= 'Z') || ('a' <= c <= 'z') || c == '_'
  }

  predicate AllSpace(s: string) {
    forall i :: 0 <= i < |s| ==> IsSpace(s[i])
  }

  predicate AllWord(s: string) {
    forall i :: 0 <= i < |s| ==> IsWord(s[i])
  }

  /** The length of the longest prefix of `s` whose elements all satisfy
      `p`. */
  function Span<T>(s: seq<T>, p: T -> bool): (n: nat)
    ensures n <= |s|
    ensures forall i :: 0 <= i < n ==> p(s[i])
    ensures n < |s| ==> !p(s[n])
  {
    if s == [] || !p(s[0]) then 0
    else
      var m := Span(s[1..], p);
      assert forall i :: 1 <= i < m + 1 ==> s[i] == s[1..][i - 1];
      m + 1
  }

  /** The length of the run of leading `\s` characters. */
  function SpanSpace(s: string): (n: nat)
    ensures n <= |s| && AllSpace(s[..n])
    ensures n < |s| ==> !IsSpace(s[n])
  {
    Span(s, IsSpace)
  }

  /** The run of leading elements satisfying `p` is determined by where it
      stops. */
  lemma {:induction false} SpanUnique<T>(s: seq<T>, p: T -> bool, n: nat)
    requires n <= |s| && forall i :: 0 <= i < n ==> p(s[i])
    requires n < |s| ==> !p(s[n])
    ensures Span(s, p) == n
  {
    if n > 0 {
      SpanUnique(s[1..], p, n - 1);
    }
  }

  /** The run of leading `\s` characters is determined by where it stops. */
  lemma SpanSpaceUnique(s: string, n: nat)
    requires n <= |s| && AllSpace(s[..n])
    requires n < |s| ==> !IsSpace(s[n])
    ensures SpanSpace(s) == n
  {
    assert forall i :: 0 <= i < n ==> s[..n][i] == s[i];
    SpanUnique(s, IsSpace, n);
  }

  /** Go's `unicode.IsSpace`: the Latin-1 spaces and the other code points
      with the Unicode White_Space property. */
  predicate IsUnicodeSpace(c: char) {
    c == '\t' || c == '\n' || c == '\U{B}' || c == '\U{C}' || c == '\r' || c == ' '
    || c == '\U{85}' || c == '\U{A0}' || c == '\U{1680}'
    || ('\U{2000}' <= c <= '\U{200A}')
    || c == '\U{2028}' || c == '\U{2029}' || c == '\U{202F}' || c == '\U{205F}' || c == '\U{3000}'
  }

  /** Drops the trailing elements of `s` that satisfy `p`. */
  function TrimRightBy<T>(s: seq<T>, p: T -> bool): (r: seq<T>)
    ensures |r| <= |s| && r == s[..|r|]
    ensures forall i :: |r| <= i < |s| ==> p(s[i])
    ensures r == [] || !p(r[|r| - 1])
  {
    if s != [] && p(s[|s| - 1]) then
      var r := TrimRightBy(s[..|s| - 1], p);
      r
    else s
  }

  /** Drops the elements satisfying `p` from both ends of `s`: the result is
      the slice of `s` that starts after the leading run of such elements
      and is followed only by such elements, and it neither starts nor ends
      with one. */
  function TrimBy<T>(s: seq<T>, p: T -> bool): (r: seq<T>)
    ensures Span(s, p) + |r| <= |s| && r == s[Span(s, p)..Span(s, p) + |r|]
    ensures forall k :: 0 <= k < Span(s, p) ==> p(s[k])
    ensures forall k :: Span(s, p) + |r| <= k < |s| ==> p(s[k])
    ensures r == [] || (!p(r[0]) && !p(r[|r| - 1]))
  {
    var n := Span(s, p);
    var l := s[n..];
    var r := TrimRightBy(l, p);
    assert forall k :: n + |r| <= k < |s| ==> s[k] == l[k - n];
    r
  }

  /** Go's `strings.TrimSpace`: `s` without the white space at either end.
      The result is the slice of `s` after its leading white space and
      before its trailing white space. */
  function TrimSpace(s: string): (r: string)
    ensures Span(s, IsUnicodeSpace) + |r| <= |s|
    ensures r == s[Span(s, IsUnicodeSpace)..Span(s, IsUnicodeSpace) + |r|]
    ensures forall k :: 0 <= k < Span(s, IsUnicodeSpace) ==> IsUnicodeSpace(s[k])
    ensures forall k :: Span(s, IsUnicodeSpace) + |r| <= k < |s| ==> IsUnicodeSpace(s[k])
    ensures r == [] || (!IsUnicodeSpace(r[0]) && !IsUnicodeSpace(r[|r| - 1]))
  {
    TrimBy(s, IsUnicodeSpace)
  }

  /** Every RE2 `\s` character is white space to `unicode.IsSpace`, so
      trimming removes what the patterns treat as white space. */
  lemma SpaceIsUnicodeSpace(c: char)
    ensures IsSpace(c) ==> IsUnicodeSpace(c)
  {
  }

  /** Trimming a text made of `\s` characters followed by a word that starts
      and ends with a non-space yields exactly that word. */
  lemma TrimSpaceAfterSpaces(ws: string, w: string)
    requires AllSpace(ws)
    requires w != [] && !IsUnicodeSpace(w[0]) && !IsUnicodeSpace(w[|w| - 1])
    ensures TrimSpace(ws + w) == w
  {
    var s := ws + w;
    assert forall i :: 0 <= i < |ws| ==> s[i] == ws[i] && IsUnicodeSpace(s[i]);
    assert s[|ws|] == w[0];
    SpanUnique(s, IsUnicodeSpace, |ws|);
    var r := TrimSpace(s);
    assert s[|ws|..] == w;
  }

  /** Go's `strings.CutPrefix`: the text after `prefix` and `true` when `s`
      starts with it, otherwise `s` itself and `false`. */
  function CutPrefix(s: string, prefix: string): (r: (string, bool))
    ensures r.1 <==> |prefix| <= |s| && s[..|prefix|] == prefix
    ensures r.1 ==> s == prefix + r.0
    ensures !r.1 ==> r.0 == s
  {
    if |prefix| <= |s| && s[..|prefix|] == prefix then (s[|prefix|..], true) else (s, false)
  }
}
