/**
 * Text primitives shared by the three copies of the leading-identifier parser and by
 * the range computations: the character classes of the identifier pattern
 * `^([A-Za-z_][$A-Za-z0-9_]*)`, Kotlin's `Char.isWhitespace`, `dropWhile`/`trimStart`,
 * `indexOf`/`lastIndexOf` on a character, and IntelliJ's `TextRange`.
 */
module IdentText {
  import opened Wrappers

  // ---------------------------------------------------------------- character classes

  /**
   * Kotlin/JVM `Char.isWhitespace`: `Character.isWhitespace(c) || Character.isSpaceChar(c)`,
   * i.e. the ASCII controls TAB..CR and FS..US plus every Unicode space, line and
   * paragraph separator (non-breaking spaces included).
   */
  predicate IsWhitespace(c: char) {
    ('\t' <= c <= '\r') || ('\U{1C}' <= c <= ' ')
    || c == '\U{A0}' || c == '\U{1680}' || ('\U{2000}' <= c <= '\U{200A}')
    || c == '\U{2028}' || c == '\U{2029}' || c == '\U{202F}' || c == '\U{205F}' || c == '\U{3000}'
  }

  predicate IsAsciiLetter(c: char) {
    'A' <= c <= 'Z' || 'a' <= c <= 'z'
  }

  /** First character of the identifier pattern: `[A-Za-z_]`. */
  predicate IsIdentStart(c: char) {
    IsAsciiLetter(c) || c == '_'
  }

  /** Later characters of the identifier pattern: `[$A-Za-z0-9_]`. */
  predicate IsIdentPart(c: char) {
    IsIdentStart(c) || '0' <= c <= '9' || c == '$'
  }

  /** A whole word matched by `[A-Za-z_][$A-Za-z0-9_]*`. */
  predicate IsIdentifier(w: string) {
    |w| > 0 && IsIdentStart(w[0]) && forall i :: 1 <= i < |w| ==> IsIdentPart(w[i])
  }

  // ---------------------------------------------------------------- identifier pattern

  /** Number of consecutive identifier-part characters of `t` starting at `i`. */
  function IdentRunFrom(t: string, i: nat): (k: nat)
    requires i <= |t|
    ensures i + k <= |t|
    ensures i + k == |t| || !IsIdentPart(t[i + k])
    decreases |t| - i
  {
    if i == |t| || !IsIdentPart(t[i]) then 0 else 1 + IdentRunFrom(t, i + 1)
  }

  /** Every character of the run is an identifier part. */
  lemma {:induction false} IdentRunIsIdentParts(t: string, i: nat)
    requires i <= |t|
    ensures forall j :: i <= j < i + IdentRunFrom(t, i) ==> IsIdentPart(t[j])
    decreases |t| - i
  {
    if i < |t| && IsIdentPart(t[i]) {
      IdentRunIsIdentParts(t, i + 1);
    }
  }

  /**
   * Length of the (greedy) match of `^([A-Za-z_][$A-Za-z0-9_]*)` at the start of `t`,
   * 0 when the pattern does not match.
   */
  function IdentMatchLength(t: string): (n: nat)
    ensures n <= |t|
    ensures n > 0 <==> |t| > 0 && IsIdentStart(t[0])
    ensures n > 0 ==> IsIdentifier(t[..n])
    ensures n > 0 ==> n == |t| || !IsIdentPart(t[n])
  {
    if |t| > 0 && IsIdentStart(t[0]) then IdentRunIsIdentParts(t, 1); 1 + IdentRunFrom(t, 1) else 0
  }

  /** The match is the longest identifier prefix of `t`. */
  lemma {:induction false} IdentMatchIsLongest(t: string, k: nat)
    requires k <= |t| && IsIdentifier(t[..k])
    ensures k <= IdentMatchLength(t)
  {
  }

  /**
   * An identifier followed by text that cannot continue it is matched exactly:
   * the key step of the rename round trip.
   */
  lemma {:induction false} IdentMatchOfIdentifierThenStop(w: string, rest: string)
    requires IsIdentifier(w)
    requires rest == [] || !IsIdentPart(rest[0])
    ensures IdentMatchLength(w + rest) == |w|
  {
    var t := w + rest;
    assert t[..|w|] == w;
    IdentMatchIsLongest(t, |w|);
  }

  // ---------------------------------------------------------------- leading whitespace

  /** Kotlin `s.dropWhile { it.isWhitespace() }`. */
  function DropWhileWhitespace(s: string): (r: string)
    ensures |r| <= |s| && r == s[|s| - |r|..]
    ensures r == [] || !IsWhitespace(r[0])
  {
    if s != [] && IsWhitespace(s[0]) then DropWhileWhitespace(s[1..]) else s
  }

  /** Everything `DropWhileWhitespace` removes is whitespace. */
  lemma {:induction false} DroppedIsWhitespace(s: string)
    ensures forall i :: 0 <= i < |s| - |DropWhileWhitespace(s)| ==> IsWhitespace(s[i])
  {
    if s != [] && IsWhitespace(s[0]) {
      DroppedIsWhitespace(s[1..]);
    }
  }

  /** Index of the first non-whitespace character of `s` at or after `i` (|s| if none). */
  function FirstNonWhitespace(s: string, i: nat): (k: nat)
    requires i <= |s|
    ensures i <= k <= |s|
    ensures k == |s| || !IsWhitespace(s[k])
    decreases |s| - i
  {
    if i == |s| || !IsWhitespace(s[i]) then i else FirstNonWhitespace(s, i + 1)
  }

  /** Kotlin `s.trimStart()`: scan the indices for the first non-whitespace character. */
  function TrimStart(s: string): string {
    s[FirstNonWhitespace(s, 0)..]
  }

  /** `trimStart()` and `dropWhile { it.isWhitespace() }` remove the same prefix. */
  lemma {:induction false} TrimStartIsDropWhile(s: string)
    ensures TrimStart(s) == DropWhileWhitespace(s)
  {
    FirstNonWhitespaceDrops(s, 0);
    assert s[0..] == s;
  }

  /** Scanning from `i` keeps what dropping the whitespace of `s[i..]` keeps. */
  lemma {:induction false} FirstNonWhitespaceDrops(s: string, i: nat)
    requires i <= |s|
    ensures s[FirstNonWhitespace(s, i)..] == DropWhileWhitespace(s[i..])
    decreases |s| - i
  {
    if i < |s| && IsWhitespace(s[i]) {
      FirstNonWhitespaceDrops(s, i + 1);
      assert s[i..][1..] == s[i + 1..];
    }
  }

  /** A prefix of whitespace followed by text that does not start with whitespace is dropped exactly. */
  lemma {:induction false} DropWhitespacePrefix(ws: string, rest: string)
    requires forall i :: 0 <= i < |ws| ==> IsWhitespace(ws[i])
    requires rest == [] || !IsWhitespace(rest[0])
    ensures DropWhileWhitespace(ws + rest) == rest
  {
    if ws != [] {
      assert (ws + rest)[1..] == ws[1..] + rest;
      DropWhitespacePrefix(ws[1..], rest);
    } else {
      assert ws + rest == rest;
    }
  }

  /** Kotlin `" ".repeat(n)`. */
  function Spaces(n: nat): (r: string)
    ensures |r| == n && forall i :: 0 <= i < n ==> r[i] == ' '
  {
    if n == 0 then [] else [' '] + Spaces(n - 1)
  }

  /** The three parts of `a + b + c`, recovered by slicing. */
  lemma {:induction false} ConcatSlices(a: string, b: string, c: string)
    ensures var t := a + b + c;
            && |t| == |a| + |b| + |c|
            && t[..|a|] == a && t[|a|..|a| + |b|] == b && t[|a| + |b|..] == c
            && forall i :: 0 <= i < |a| ==> t[i] == a[i]
  {
    var t := a + b + c;
    assert t[..|a|] == a;
    assert t[|a|..|a| + |b|] == b;
    assert t[|a| + |b|..] == c;
  }

  // ---------------------------------------------------------------- searching a character

  /** Kotlin `s.indexOf(c)`: the first position of `c`, or -1. */
  function IndexOf(s: string, c: char): (i: int)
    ensures -1 <= i < |s|
    ensures i == -1 <==> c !in s
    ensures i >= 0 ==> s[i] == c && c !in s[..i]
  {
    if s == [] then -1
    else if s[0] == c then 0
    else
      var j := IndexOf(s[1..], c);
      assert s == [s[0]] + s[1..];
      if j == -1 then -1
      else
        assert s[..j + 1] == [s[0]] + s[1..][..j];
        j + 1
  }

  /** Kotlin `s.lastIndexOf(c)`: the last position of `c`, or -1. */
  function LastIndexOf(s: string, c: char): (i: int)
    ensures -1 <= i < |s|
    ensures i == -1 <==> c !in s
    ensures i >= 0 ==> s[i] == c && c !in s[i + 1..]
  {
    if s == [] then -1
    else if s[|s| - 1] == c then |s| - 1
    else
      var j := LastIndexOf(s[..|s| - 1], c);
      assert s == s[..|s| - 1] + [s[|s| - 1]];
      if j >= 0 then assert s[j + 1..] == s[..|s| - 1][j + 1..] + [s[|s| - 1]]; j else j
  }

  // ---------------------------------------------------------------- the quotes of a literal

  /** The literal text has a `"` at two distinct positions: its first and its last. */
  predicate HasQuotePair(text: string) {
    IndexOf(text, '"') != -1 && LastIndexOf(text, '"') > IndexOf(text, '"')
  }

  /** The text strictly between the first and the last `"`. */
  function QuotedInner(text: string): (inner: string)
    requires HasQuotePair(text)
    ensures |inner| == LastIndexOf(text, '"') - IndexOf(text, '"') - 1
  {
    text[IndexOf(text, '"') + 1..LastIndexOf(text, '"')]
  }

  /** Text wrapped in a pair of quotes has those quotes as its first and last, whatever it holds. */
  lemma {:induction false} QuoteWrapped(x: string)
    ensures var t := "\"" + x + "\"";
            && IndexOf(t, '"') == 0 && LastIndexOf(t, '"') == |t| - 1
            && HasQuotePair(t) && QuotedInner(t) == x
  {
    var t := "\"" + x + "\"";
    assert t[0] == '"' && t[|t| - 1] == '"';
    assert t[1..|t| - 1] == x;
  }

  /** Number of leading whitespace characters. */
  function LeadingWs(s: string): (n: nat)
    ensures n <= |s| && DropWhileWhitespace(s) == s[n..]
  {
    |s| - |DropWhileWhitespace(s)|
  }

  // ---------------------------------------------------------------- ranges

  /** IntelliJ `TextRange(startOffset, endOffset)`: the half-open interval [start, end). */
  datatype TextRange = TextRange(startOffset: int, endOffset: int) {
    function Length(): int { endOffset - startOffset }
    function Shift(delta: int): TextRange { TextRange(startOffset + delta, endOffset + delta) }
  }

  /** The range is well formed and lies inside `[a, b)`. */
  predicate Within(r: TextRange, a: int, b: int) {
    a <= r.startOffset <= r.endOffset <= b
  }
}
