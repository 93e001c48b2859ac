/**
 * The pieces of Python's `str` that the scripts rely on: `split` on a one-character
 * separator, `strip`, `join`, `str(int)`, `startswith`/`endswith` and `repr`.
 */
module Strings {

  /** Python's `str.isspace()` for one character: the Unicode whitespace characters. */
  predicate IsSpace(c: char) {
    || c == ' ' || c == '\t' || c == '\n' || c == '\r' || c == '\U{0B}' || c == '\U{0C}'
    || ('\U{1C}' <= c <= '\U{1F}') || c == '\U{85}' || c == '\U{A0}' || c == '\U{1680}'
    || ('\U{2000}' <= c <= '\U{200A}') || c == '\U{2028}' || c == '\U{2029}'
    || c == '\U{202F}' || c == '\U{205F}' || c == '\U{3000}'
  }

  predicate StartsWith(s: string, prefix: string) {
    |prefix| <= |s| && s[..|prefix|] == prefix
  }

  predicate EndsWith(s: string, suffix: string) {
    |suffix| <= |s| && s[|s| - |suffix|..] == suffix
  }

  /** Position of the first `c` in `s`. */
  function FirstIndex(s: string, c: char): (i: nat)
    requires c in s
    ensures i < |s| && s[i] == c && c !in s[..i]
  {
    if s[0] == c then 0 else 1 + FirstIndex(s[1..], c)
  }

  /** The first `c` in `s` is at `i` whenever `s[i]` is `c` and nothing before it is. */
  lemma FirstIndexAt(s: string, c: char, i: nat)
    requires i < |s| && s[i] == c && c !in s[..i]
    ensures FirstIndex(s, c) == i
  {
  }

  /** `s.lstrip()`: drops the leading whitespace and nothing else. */
  function StripStart(s: string): (r: string)
    ensures |r| <= |s| && r == s[|s| - |r|..]
    ensures r == [] || !IsSpace(r[0])
    ensures forall k :: 0 <= k < |s| - |r| ==> IsSpace(s[k])
  {
    if s != [] && IsSpace(s[0]) then StripStart(s[1..]) else s
  }

  /** `s.rstrip()`: drops the trailing whitespace and nothing else. */
  function StripEnd(s: string): (r: string)
    ensures |r| <= |s| && r == s[..|r|]
    ensures r == [] || !IsSpace(r[|r| - 1])
    ensures forall k :: |r| <= k < |s| ==> IsSpace(s[k])
  {
    if s != [] && IsSpace(s[|s| - 1]) then StripEnd(s[..|s| - 1]) else s
  }

  /** `s.strip()`. */
  function Strip(s: string): string {
    StripEnd(StripStart(s))
  }

  /** `sep.join(parts)`. */
  function Join(parts: seq<string>, sep: string): string {
    if parts == [] then []
    else if |parts| == 1 then parts[0]
    else parts[0] + sep + Join(parts[1..], sep)
  }

  /**
   * `s.split(sep)` for a one-character separator: the pieces between the separators,
   * always one more piece than there are separators, none of them containing `sep`,
   * and joining them back with `sep` gives `s` again.
   */
  function Split(s: string, sep: char): (parts: seq<string>)
    ensures |parts| >= 1
    ensures forall p :: p in parts ==> sep !in p
    ensures Join(parts, [sep]) == s
  {
    if s == [] then [[]]
    else
      var rest := Split(s[1..], sep);
      if s[0] == sep then
        [[]] + rest
      else
        var parts := [[s[0]] + rest[0]] + rest[1..];
        assert forall p :: p in parts ==> p == parts[0] || p in rest;
        assert s == [s[0]] + s[1..];
        parts
  }

  /** Splitting at the first separator: the text before it is the first piece. */
  lemma {:induction false} SplitAfter(a: string, sep: char, b: string)
    requires sep !in a
    ensures Split(a + [sep] + b, sep) == [a] + Split(b, sep)
  {
    if a != [] {
      assert (a + [sep] + b)[1..] == a[1..] + [sep] + b;
      SplitAfter(a[1..], sep, b);
      assert [a[0]] + a[1..] == a;
    }
  }

  /** A text without the separator splits into itself. */
  lemma {:induction false} SplitWhole(s: string, sep: char)
    requires sep !in s
    ensures Split(s, sep) == [s]
  {
    if s != [] {
      SplitWhole(s[1..], sep);
      assert [s[0]] + s[1..] == s;
    }
  }

  function DigitChar(d: nat): (c: char)
    requires d < 10
    ensures '0' <= c <= '9'
  {
    "0123456789"[d]
  }

  function DigitValue(c: char): nat
    requires '0' <= c <= '9'
  {
    (c as int - '0' as int) as nat
  }

  /** The decimal digits of a natural number, as `str(n)` writes them. */
  function NatToString(n: nat): (r: string)
    ensures |r| >= 1 && forall k :: 0 <= k < |r| ==> '0' <= r[k] <= '9'
    ensures DigitsValue(r) == n
    ensures r[0] == '0' ==> n == 0
  {
    if n < 10 then
      assert DigitValue(DigitChar(n)) == n;
      [DigitChar(n)]
    else
      var r := NatToString(n / 10) + [DigitChar(n % 10)];
      assert r[..|r| - 1] == NatToString(n / 10);
      assert DigitValue(DigitChar(n % 10)) == n % 10;
      r
  }

  /** The number a string of decimal digits stands for. */
  function DigitsValue(s: string): nat
    requires forall k :: 0 <= k < |s| ==> '0' <= s[k] <= '9'
  {
    if s == [] then 0 else 10 * DigitsValue(s[..|s| - 1]) + DigitValue(s[|s| - 1])
  }

  /** `str(i)` / `f'{i}'` for a Python int: a minus sign before the digits of a negative number. */
  function IntToString(i: int): (r: string)
    ensures i >= 0 ==> r == NatToString(i)
    ensures i < 0 ==> r == "-" + NatToString(-i)
  {
    if i < 0 then "-" + NatToString(-i) else NatToString(i)
  }

  /** The escaped body of `repr(s)` for the quote character chosen. */
  function ReprBody(s: string, quote: char): string {
    if s == [] then []
    else
      var c := s[0];
      var e := if c == '\\' then "\\\\"
               else if c == quote then ['\\', quote]
               else if c == '\n' then "\\n"
               else if c == '\r' then "\\r"
               else if c == '\t' then "\\t"
               else [c];
      e + ReprBody(s[1..], quote)
  }

  /**
   * Characters that Python's `repr` writes unchanged inside the chosen quotes: anything
   * but a backslash, the quote, a control character below the space and DEL (which
   * `repr` writes as `\\x..` escapes).
   */
  predicate PlainFor(s: string, quote: char) {
    forall k :: 0 <= k < |s| ==> s[k] != '\\' && s[k] != quote && ' ' <= s[k] && s[k] != '\U{7F}'
  }

  /** A text without characters to escape is its own escaped body. */
  lemma {:induction false} ReprBodyPlain(s: string, quote: char)
    requires PlainFor(s, quote)
    ensures ReprBody(s, quote) == s
  {
    if s != [] {
      assert PlainFor(s[1..], quote);
      ReprBodyPlain(s[1..], quote);
      assert [s[0]] + s[1..] == s;
    }
  }

  /**
   * `repr(s)`: single quotes unless the text holds a single quote and no double quote,
   * with backslashes, the chosen quote and the tab/newline/return characters escaped.
   */
  function Repr(s: string): string {
    var quote := if '\'' in s && '"' !in s then '"' else '\'';
    [quote] + ReprBody(s, quote) + [quote]
  }
}
