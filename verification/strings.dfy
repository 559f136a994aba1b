/**
 * The JavaScript string operations the core relies on: `split` on a separator character,
 * `split(/\b/)` at word boundaries, `trim`, and the decimal rendering of an integer in a
 * template literal.
 */
module Strings {

  /** The pieces of `parts` glued together, in order. */
  function Concat(parts: seq<string>): string {
    if parts == [] then "" else parts[0] + Concat(parts[1..])
  }

  lemma {:induction false} ConcatAppend(a: seq<string>, b: seq<string>)
    ensures Concat(a + b) == Concat(a) + Concat(b)
  {
    if a != [] {
      assert (a + b)[1..] == a[1..] + b;
      ConcatAppend(a[1..], b);
    } else {
      assert a + b == b;
    }
  }

  // ---------------------------------------------------------------------------
  // split on a separator character

  /** `s.split(sep)` for a one-character separator: the text between separators, in order. */
  function SplitOn(s: string, sep: char): (r: seq<string>)
    ensures |r| >= 1
    ensures forall k :: 0 <= k < |r| ==> sep !in r[k]
    decreases |s|
  {
    if s == [] then [""]
    else
      var rest := SplitOn(s[1..], sep);
      if s[0] == sep then [""] + rest
      else [[s[0]] + rest[0]] + rest[1..]
  }

  /** `parts.join(sep)`. */
  function Join(parts: seq<string>, sep: char): string
    requires |parts| >= 1
  {
    if |parts| == 1 then parts[0] else parts[0] + [sep] + Join(parts[1..], sep)
  }

  /** Splitting loses nothing: joining the pieces with the separator gives the text back. */
  lemma {:induction false} JoinSplitOn(s: string, sep: char)
    ensures Join(SplitOn(s, sep), sep) == s
    decreases |s|
  {
    if s != [] {
      var rest := SplitOn(s[1..], sep);
      JoinSplitOn(s[1..], sep);
      if s[0] == sep {
        assert ([""] + rest)[1..] == rest;
      } else if |rest| > 1 {
        assert ([[s[0]] + rest[0]] + rest[1..])[1..] == rest[1..];
      }
    }
  }

  /** There is one piece more than there are separators. */
  lemma {:induction false} SplitOnCount(s: string, sep: char)
    ensures |SplitOn(s, sep)| == multiset(s)[sep] + 1
    decreases |s|
  {
    if s != [] {
      SplitOnCount(s[1..], sep);
      assert s == [s[0]] + s[1..];
    }
  }

  // ---------------------------------------------------------------------------
  // split(/\b/): word boundaries of a regular expression without the unicode flag

  /** The `\w` class: ASCII letters, digits and the underscore. */
  predicate IsWordChar(c: char) {
    ('a' <= c <= 'z') || ('A' <= c <= 'Z') || ('0' <= c <= '9') || c == '_'
  }

  /** All characters of `p` are on the same side of `\w`. */
  predicate Uniform(p: string) {
    forall i :: 0 <= i < |p| ==> IsWordChar(p[i]) == IsWordChar(p[0])
  }

  /**
   * Every piece is non-empty and on one side of `\w`, and neighbouring pieces are on
   * opposite sides.
   */
  predicate CutAtBoundaries(r: seq<string>) {
    (forall k :: 0 <= k < |r| ==> r[k] != [] && Uniform(r[k])) &&
    (forall k :: 0 <= k < |r| - 1 ==> IsWordChar(r[k][|r[k]| - 1]) != IsWordChar(r[k + 1][0]))
  }

  lemma CutExtendFirst(c: char, r: seq<string>)
    requires |r| >= 1 && CutAtBoundaries(r) && IsWordChar(c) == IsWordChar(r[0][0])
    ensures CutAtBoundaries([[c] + r[0]] + r[1..])
  {
    var p := [c] + r[0];
    assert forall i :: 1 <= i < |p| ==> p[i] == r[0][i - 1];
    assert p[|p| - 1] == r[0][|r[0]| - 1];
  }

  lemma CutPrepend(c: char, r: seq<string>)
    requires |r| >= 1 && CutAtBoundaries(r) && IsWordChar(c) != IsWordChar(r[0][0])
    ensures CutAtBoundaries([[c]] + r)
  {
  }

  /**
   * `s.split(/\b/)`: the text cut at every position strictly inside it where a `\w` character
   * meets a non-`\w` one. The empty text gives one empty piece.
   */
  function SplitAtBoundaries(s: string): (r: seq<string>)
    ensures |r| >= 1 && Concat(r) == s
    ensures s == [] ==> r == [""]
    ensures s != [] ==> r[0] != [] && r[0][0] == s[0]
    ensures s != [] ==> CutAtBoundaries(r)
    decreases |s|
  {
    if |s| <= 1 then [s]
    else
      var rest := SplitAtBoundaries(s[1..]);
      assert s == [s[0]] + s[1..];
      if IsWordChar(s[0]) == IsWordChar(s[1]) then
        var r := [[s[0]] + rest[0]] + rest[1..];
        assert r[1..] == rest[1..];
        CutExtendFirst(s[0], rest);
        r
      else
        var r := [[s[0]]] + rest;
        assert r[1..] == rest;
        CutPrepend(s[0], rest);
        r
  }

  // ---------------------------------------------------------------------------
  // trim

  /** JavaScript's WhiteSpace and LineTerminator characters, which `trim` removes. */
  const Spaces: set<char> := {
    '\t', '\n', '\U{000B}', '\U{000C}', '\r', ' ', '\U{00A0}', '\U{1680}',
    '\U{2000}', '\U{2001}', '\U{2002}', '\U{2003}', '\U{2004}', '\U{2005}', '\U{2006}',
    '\U{2007}', '\U{2008}', '\U{2009}', '\U{200A}',
    '\U{2028}', '\U{2029}', '\U{202F}', '\U{205F}', '\U{3000}', '\U{FEFF}'
  }

  predicate IsSpace(c: char) {
    c in Spaces
  }

  predicate AllSpace(s: string) {
    forall i :: 0 <= i < |s| ==> IsSpace(s[i])
  }

  lemma AllSpaceAppend(s: string, t: string)
    requires AllSpace(s) && AllSpace(t)
    ensures AllSpace(s + t)
  {
  }

  /** Cutting white space from the front of `s[1..]` cuts it from `s` when `s[0]` is white space too. */
  lemma DropOneMore(s: string, r: string)
    requires s != [] && IsSpace(s[0])
    requires |r| <= |s| - 1 && r == s[1..][|s| - 1 - |r|..] && AllSpace(s[1..][..|s| - 1 - |r|])
    ensures r == s[|s| - |r|..] && AllSpace(s[..|s| - |r|])
  {
    assert s[..|s| - |r|] == [s[0]] + s[1..][..|s| - 1 - |r|];
    AllSpaceAppend([s[0]], s[1..][..|s| - 1 - |r|]);
    assert s[1..][|s| - 1 - |r|..] == s[|s| - |r|..];
  }

  /** The same at the back. */
  lemma CutOneMore(s: string, r: string)
    requires s != [] && IsSpace(s[|s| - 1])
    requires |r| <= |s| - 1 && r == s[..|s| - 1][..|r|] && AllSpace(s[..|s| - 1][|r|..])
    ensures r == s[..|r|] && AllSpace(s[|r|..])
  {
    assert s[|r|..] == s[..|s| - 1][|r|..] + [s[|s| - 1]];
    AllSpaceAppend(s[..|s| - 1][|r|..], [s[|s| - 1]]);
    assert s[..|s| - 1][..|r|] == s[..|r|];
  }

  function TrimStart(s: string): (r: string)
    ensures |r| <= |s| && r == s[|s| - |r|..]
    ensures AllSpace(s[..|s| - |r|])
    ensures r == [] || !IsSpace(r[0])
  {
    if s != [] && IsSpace(s[0]) then
      var r := TrimStart(s[1..]);
      DropOneMore(s, r);
      r
    else s
  }

  function TrimEnd(s: string): (r: string)
    ensures |r| <= |s| && r == s[..|r|]
    ensures AllSpace(s[|r|..])
    ensures r == [] || !IsSpace(r[|r| - 1])
  {
    if s != [] && IsSpace(s[|s| - 1]) then
      var r := TrimEnd(s[..|s| - 1]);
      CutOneMore(s, r);
      r
    else s
  }

  /** `s.trim()`: `s` without its leading and trailing white space. */
  function Trim(s: string): string {
    TrimEnd(TrimStart(s))
  }

  /** The trimmed text is a slice of the original with only white space cut away at both ends. */
  lemma TrimSlice(s: string)
    ensures exists i, j :: 0 <= i <= j <= |s| && Trim(s) == s[i..j] && AllSpace(s[..i]) && AllSpace(s[j..])
  {
    var t := TrimStart(s);
    CutBothEnds(s, t, TrimEnd(t));
  }

  lemma CutBothEnds(s: string, t: string, r: string)
    requires |t| <= |s| && t == s[|s| - |t|..] && AllSpace(s[..|s| - |t|])
    requires |r| <= |t| && r == t[..|r|] && AllSpace(t[|r|..])
    ensures exists i, j :: 0 <= i <= j <= |s| && r == s[i..j] && AllSpace(s[..i]) && AllSpace(s[j..])
  {
    var i := |s| - |t|;
    var j := i + |r|;
    assert s[i..][..|r|] == s[i..j];
    assert t[|r|..] == s[j..];
  }

  /** Trimming twice changes nothing more. */
  lemma TrimIdempotent(s: string)
    ensures Trim(Trim(s)) == Trim(s)
  {
    var t := TrimStart(s);
    var r := TrimEnd(t);
    if r != [] {
      assert r[0] == t[0];
    }
    TrimStartKeeps(r);
    TrimEndKeeps(r);
  }

  lemma TrimStartKeeps(s: string)
    requires s == [] || !IsSpace(s[0])
    ensures TrimStart(s) == s
  {
  }

  lemma TrimEndKeeps(s: string)
    requires s == [] || !IsSpace(s[|s| - 1])
    ensures TrimEnd(s) == s
  {
  }

  // ---------------------------------------------------------------------------
  // integers in template literals

  function DigitChar(d: nat): (c: char)
    requires d < 10
    ensures '0' <= c <= '9'
  {
    ('0' as int + d) as char
  }

  /** The decimal digits of a natural number, most significant first. */
  function NatToString(n: nat): (s: string)
    ensures |s| >= 1 && (forall i :: 0 <= i < |s| ==> '0' <= s[i] <= '9')
    ensures |s| > 1 ==> s[0] != '0'
    decreases n
  {
    if n < 10 then [DigitChar(n)] else NatToString(n / 10) + [DigitChar(n % 10)]
  }

  /** `${n}` for an integer `n`. */
  function IntToString(n: int): (s: string)
    ensures |s| >= 1 && (s[0] == '-' <==> n < 0)
  {
    if n < 0 then "-" + NatToString(-n) else NatToString(n)
  }

  /** The value of a decimal digit. */
  function DigitValue(c: char): nat {
    if '0' <= c <= '9' then (c as int - '0' as int) as nat else 0
  }

  /** The number a string of decimal digits denotes, the most significant digit first. */
  function DigitsValue(s: string): nat {
    if s == [] then 0 else DigitsValue(s[..|s| - 1]) * 10 + DigitValue(s[|s| - 1])
  }

  lemma DigitRoundTrip(d: nat)
    requires d < 10
    ensures DigitValue(DigitChar(d)) == d
  {
  }

  /** The digits written for `n` denote `n`. */
  lemma {:induction false} NatToStringValue(n: nat)
    ensures DigitsValue(NatToString(n)) == n
    decreases n
  {
    DigitRoundTrip(n % 10);
    if n >= 10 {
      NatToStringValue(n / 10);
      var s := NatToString(n);
      assert s[..|s| - 1] == NatToString(n / 10);
    } else {
      assert NatToString(n)[..0] == [];
    }
  }

  /** The integer a decimal text denotes: an optional minus sign, then digits. */
  function SignedValue(s: string): int {
    if s != [] && s[0] == '-' then -(DigitsValue(s[1..]) as int) else DigitsValue(s)
  }

  /** `${n}` reads back as `n`: the sign, when negative, then the digits of the magnitude. */
  lemma IntToStringValue(n: int)
    ensures SignedValue(IntToString(n)) == n
  {
    if n < 0 {
      var t := NatToString(-n);
      NatToStringValue(-n);
      MinusValue(t);
      assert IntToString(n) == "-" + t;
    } else {
      NatToStringValue(n);
      assert IntToString(n) == NatToString(n);
    }
  }

  lemma MinusValue(t: string)
    ensures SignedValue("-" + t) == -(DigitsValue(t) as int)
  {
    assert ("-" + t)[1..] == t;
  }

  /** Different integers are written differently. */
  lemma IntToStringInjective(a: int, b: int)
    requires IntToString(a) == IntToString(b)
    ensures a == b
  {
    IntToStringValue(a);
    IntToStringValue(b);
  }
}
