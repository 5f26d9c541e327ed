/**
 * The pieces of Python's `str` behaviour the scanner and the file operations
 * rely on: whitespace as `str.isspace()` (and the regex class `\s`) sees it,
 * `strip`, `splitlines`, `startswith`, `in`, `join`, `str(int)`, `int(str)`,
 * `lower()` as far as the word "unknown" is concerned, and code-point order.
 */
module Text {
  import opened Wrappers

  /** `str.isspace()`: the characters `strip()` removes and `\s` matches. */
  predicate IsSpace(c: char) {
    c == ' ' || ('\t' <= c <= '\r') || ('\U{1C}' <= c <= '\U{1F}')
    || c == '\U{85}' || c == '\U{A0}' || c == '\U{1680}'
    || ('\U{2000}' <= c <= '\U{200A}') || c == '\U{2028}' || c == '\U{2029}'
    || c == '\U{202F}' || c == '\U{205F}' || c == '\U{3000}'
  }

  function TrimStart(s: string): (r: string)
    ensures |r| <= |s| && r == s[|s| - |r|..]
    ensures r != [] ==> !IsSpace(r[0])
    ensures forall i :: 0 <= i < |s| - |r| ==> IsSpace(s[i])
  {
    if s != [] && IsSpace(s[0]) then TrimStart(s[1..]) else s
  }

  function TrimEnd(s: string): (r: string)
    ensures |r| <= |s| && r == s[..|r|]
    ensures r != [] ==> !IsSpace(r[|r| - 1])
    ensures forall i :: |r| <= i < |s| ==> IsSpace(s[i])
  {
    if s != [] && IsSpace(s[|s| - 1]) then TrimEnd(s[..|s| - 1]) else s
  }

  /** `s.strip()`: the result neither starts nor ends with whitespace. */
  function Strip(s: string): (r: string)
    ensures |r| <= |s|
    ensures r != [] ==> !IsSpace(r[0]) && !IsSpace(r[|r| - 1])
    ensures r == [] <==> forall i :: 0 <= i < |s| ==> IsSpace(s[i])
  {
    var t := TrimStart(s);
    var r := TrimEnd(t);
    assert r == [] ==> t == [];
    r
  }

  lemma StripOfStripped(s: string)
    requires s == [] || (!IsSpace(s[0]) && !IsSpace(s[|s| - 1]))
    ensures Strip(s) == s
  {
  }

  predicate StartsWith(s: string, prefix: string) {
    |prefix| <= |s| && s[..|prefix|] == prefix
  }

  predicate EndsWith(s: string, suffix: string) {
    |suffix| <= |s| && s[|s| - |suffix|..] == suffix
  }

  /** Python's `needle in s`. */
  predicate Contains(s: string, needle: string) {
    exists i :: 0 <= i <= |s| - |needle| && StartsWith(s[i..], needle)
  }

  /** The line boundaries of `str.splitlines()`; "\r\n" counts as one. */
  predicate IsLineBreak(c: char) {
    c == '\n' || c == '\r' || c == '\U{0B}' || c == '\U{0C}'
    || c == '\U{1C}' || c == '\U{1D}' || c == '\U{1E}' || c == '\U{85}'
    || c == '\U{2028}' || c == '\U{2029}'
  }

  /** Index of the first line boundary at or after `i`, or `|s|`. */
  function LineEnd(s: string, i: nat): (k: nat)
    requires i <= |s|
    ensures i <= k <= |s|
    ensures k < |s| ==> IsLineBreak(s[k])
    ensures forall j :: i <= j < k ==> !IsLineBreak(s[j])
    decreases |s| - i
  {
    if i == |s| || IsLineBreak(s[i]) then i else LineEnd(s, i + 1)
  }

  /** `s.splitlines()`: no line holds a boundary, and a final boundary ends the last line. */
  function SplitLines(s: string): (lines: seq<string>)
    ensures forall k, j :: 0 <= k < |lines| && 0 <= j < |lines[k]| ==> !IsLineBreak(lines[k][j])
    ensures s == [] <==> lines == []
    decreases |s|
  {
    if s == [] then []
    else
      var k := LineEnd(s, 0);
      if k == |s| then [s]
      else
        var next := if s[k] == '\r' && k + 1 < |s| && s[k + 1] == '\n' then k + 2 else k + 1;
        [s[..k]] + SplitLines(s[next..])
  }

  /** `sep.join(parts)`. */
  function Join(sep: string, parts: seq<string>): string
    decreases |parts|
  {
    if |parts| == 0 then ""
    else if |parts| == 1 then parts[0]
    else parts[0] + sep + Join(sep, parts[1..])
  }

  /** A needle without the separator occurs in a join exactly when it occurs in one part. */
  lemma {:induction false} ContainsJoin(c: char, parts: seq<string>, needle: string)
    requires needle != [] && c !in needle
    ensures Contains(Join([c], parts), needle) <==> exists k :: 0 <= k < |parts| && Contains(parts[k], needle)
    decreases |parts|
  {
    if |parts| == 0 {
      assert !Contains("", needle);
    } else if |parts| == 1 {
    } else {
      ContainsJoin(c, parts[1..], needle);
      ContainsAround(parts[0], c, Join([c], parts[1..]), needle);
      if exists k :: 1 <= k < |parts| && Contains(parts[k], needle) {
        var k :| 1 <= k < |parts| && Contains(parts[k], needle);
        assert parts[1..][k - 1] == parts[k];
      }
      if exists k :: 0 <= k < |parts[1..]| && Contains(parts[1..][k], needle) {
        var k :| 0 <= k < |parts[1..]| && Contains(parts[1..][k], needle);
        assert parts[k + 1] == parts[1..][k];
      }
    }
  }

  lemma ContainsAround(a: string, c: char, b: string, needle: string)
    requires needle != [] && c !in needle
    ensures Contains(a + [c] + b, needle) <==> Contains(a, needle) || Contains(b, needle)
  {
    if Contains(a + [c] + b, needle) {
      ContainsSplit(a, c, b, needle);
    }
    if Contains(a, needle) {
      ContainsWithin(a, a + [c] + b, 0, needle);
    }
    if Contains(b, needle) {
      ContainsWithin(b, a + [c] + b, |a| + 1, needle);
    }
  }

  /** An occurrence across a character the needle lacks lies wholly on one side of it. */
  lemma ContainsSplit(a: string, c: char, b: string, needle: string)
    requires needle != [] && c !in needle && Contains(a + [c] + b, needle)
    ensures Contains(a, needle) || Contains(b, needle)
  {
    var s := a + [c] + b;
    var n := |needle|;
    var i :| 0 <= i <= |s| - n && StartsWith(s[i..], needle);
    assert s[i..i + n] == needle;
    var j := if i <= |a| < i + n then |a| - i else 0;
    assert s[i + j] in needle by { assert s[i + j] == needle[j]; }
    assert s[|a|] == c;
    if i + n <= |a| {
      assert a[i..][..n] == s[i..][..n];
    } else {
      assert b[i - |a| - 1..][..n] == s[i..][..n];
    }
  }

  /** An occurrence in a piece `t` of `s` starting at `off` is one in `s`. */
  lemma ContainsWithin(t: string, s: string, off: nat, needle: string)
    requires off + |t| <= |s| && s[off..off + |t|] == t && Contains(t, needle)
    ensures Contains(s, needle)
  {
    var i :| 0 <= i <= |t| - |needle| && StartsWith(t[i..], needle);
    var n := |needle|;
    forall k | 0 <= k < n
      ensures s[off + i..][..n][k] == needle[k]
    {
      assert s[off + i + k] == s[off..off + |t|][i + k] == t[i..][..n][k];
    }
    assert s[off + i..][..n] == needle;
  }

  predicate IsDigit(c: char) {
    '0' <= c <= '9'
  }

  predicate AllDigits(s: string) {
    forall i :: 0 <= i < |s| ==> IsDigit(s[i])
  }

  /** The end of the run of digits starting at `i`. */
  function DigitRun(s: string, i: nat): (k: nat)
    requires i <= |s|
    ensures i <= k <= |s|
    ensures forall j :: i <= j < k ==> IsDigit(s[j])
    ensures k < |s| ==> !IsDigit(s[k])
    decreases |s| - i
  {
    if i < |s| && IsDigit(s[i]) then DigitRun(s, i + 1) else i
  }

  /** The end of the run of whitespace starting at `i`. */
  function SpaceRun(s: string, i: nat): (k: nat)
    requires i <= |s|
    ensures i <= k <= |s|
    ensures forall j :: i <= j < k ==> IsSpace(s[j])
    ensures k < |s| ==> !IsSpace(s[k])
    decreases |s| - i
  {
    if i < |s| && IsSpace(s[i]) then SpaceRun(s, i + 1) else i
  }

  function DigitChar(d: nat): (c: char)
    requires d < 10
    ensures IsDigit(c) && (c as int) - ('0' as int) == d
  {
    ('0' as int + d) as char
  }

  /** The number a decimal digit string denotes (leading zeros allowed). */
  function DigitsValue(s: string): nat
    requires AllDigits(s)
  {
    if s == [] then 0 else DigitsValue(s[..|s| - 1]) * 10 + ((s[|s| - 1] as int) - ('0' as int))
  }

  /** `str(n)` for a natural number. */
  function NatToString(n: nat): (r: string)
    ensures |r| >= 1 && AllDigits(r)
    ensures n >= 10 <==> |r| >= 2
  {
    if n < 10 then [DigitChar(n)] else NatToString(n / 10) + [DigitChar(n % 10)]
  }

  /** `str(i)` for a Python int. */
  function IntToString(i: int): (r: string)
    ensures r != [] && (IsDigit(r[0]) || (r[0] == '-' && |r| >= 2 && IsDigit(r[1])))
  {
    if i < 0 then "-" + NatToString(-i) else NatToString(i)
  }

  lemma {:induction false} NatToStringValue(n: nat)
    ensures DigitsValue(NatToString(n)) == n
  {
    if n >= 10 {
      NatToStringValue(n / 10);
      var s := NatToString(n);
      assert s[..|s| - 1] == NatToString(n / 10);
    }
  }

  lemma NatToStringInjective(a: nat, b: nat)
    requires NatToString(a) == NatToString(b)
    ensures a == b
  {
    NatToStringValue(a);
    NatToStringValue(b);
  }

  /** The digits of a digit-and-underscore string, underscores dropped. */
  function DropUnderscores(s: string): (r: string)
    ensures |r| <= |s|
    ensures (forall i :: 0 <= i < |s| ==> IsDigit(s[i]) || s[i] == '_') ==> AllDigits(r)
    ensures AllDigits(s) ==> r == s
  {
    if s == [] then [] else (if s[0] == '_' then [] else [s[0]]) + DropUnderscores(s[1..])
  }

  /** Python's decimal literal body: digits, with single underscores only between digits. */
  predicate DecimalBody(s: string) {
    && s != [] && IsDigit(s[0]) && IsDigit(s[|s| - 1])
    && (forall i :: 0 <= i < |s| ==> IsDigit(s[i]) || s[i] == '_')
    && (forall i :: 0 <= i < |s| - 1 ==> !(s[i] == '_' && s[i + 1] == '_'))
  }

  /**
   * `int(s)` for a `str`: surrounding whitespace, an optional sign, then a decimal
   * body; `None` stands for the `ValueError` Python raises otherwise.
   */
  function ParseInt(s: string): (r: Option<int>)
    ensures AllDigits(s) && s != [] ==> r == Some(DigitsValue(s))
    ensures r.Some? ==> exists i :: 0 <= i < |s| && IsDigit(s[i])
  {
    var t := Strip(s);
    var negative := t != [] && t[0] == '-';
    var body := if t != [] && (t[0] == '-' || t[0] == '+') then t[1..] else t;
    assert AllDigits(s) && s != [] ==> t == s by {
      if AllDigits(s) && s != [] { StripOfStripped(s); }
    }
    if !DecimalBody(body) then None
    else
      assert exists i :: 0 <= i < |s| && IsDigit(s[i]) by { FindDigit(s, t, body); }
      var v := DigitsValue(DropUnderscores(body));
      var n: int := if negative then -(v as int) else v;
      Some(n)
  }

  /** A string with no surrounding whitespace or sign converts exactly when it is a decimal body. */
  lemma ParseIntUnsigned(s: string)
    requires s != [] && IsDigit(s[0]) && !IsSpace(s[|s| - 1])
    ensures ParseInt(s).Some? <==> DecimalBody(s)
  {
    assert !IsSpace(s[0]);
    StripOfStripped(s);
    assert Strip(s) == s && s[0] != '-' && s[0] != '+';
  }

  lemma FindDigit(s: string, t: string, body: string)
    requires t == Strip(s) && |body| >= 1 && IsDigit(body[0])
    requires body == t || (t != [] && body == t[1..])
    ensures exists i :: 0 <= i < |s| && IsDigit(s[i])
  {
    var u := TrimStart(s);
    assert t == TrimEnd(u);
    var off := |s| - |u|;
    var j := if body == t then 0 else 1;
    assert t[j] == body[0];
    assert u[j] == t[j];
    assert s[off + j] == u[j];
  }

  lemma {:induction false} IntToStringParses(i: int)
    ensures ParseInt(IntToString(i)) == Some(i)
  {
    var n: nat := if i < 0 then -i else i;
    var digits := NatToString(n);
    NatToStringValue(n);
    DigitsAreBody(digits);
    var s := IntToString(i);
    var last := digits[|digits| - 1];
    assert IsDigit(last);
    if i < 0 {
      assert s == "-" + digits;
      assert s[|s| - 1] == last && s[1..] == digits;
    } else {
      assert s == digits;
    }
    StripOfStripped(s);
  }

  /** A non-empty digit string is a decimal body with nothing to drop. */
  lemma DigitsAreBody(digits: string)
    requires digits != [] && AllDigits(digits)
    ensures DecimalBody(digits) && DropUnderscores(digits) == digits
  {
  }

  /** `a < b` on Python strings: code-point lexicographic order. */
  predicate LexLess(a: string, b: string)
    decreases |a|
  {
    if a == [] then b != []
    else if b == [] then false
    else if a[0] != b[0] then a[0] < b[0]
    else LexLess(a[1..], b[1..])
  }

  lemma {:induction false} LexLessIrreflexive(a: string)
    ensures !LexLess(a, a)
    decreases |a|
  {
    if a != [] { LexLessIrreflexive(a[1..]); }
  }

  lemma {:induction false} LexLessTransitive(a: string, b: string, c: string)
    requires LexLess(a, b) && LexLess(b, c)
    ensures LexLess(a, c)
    decreases |a|
  {
    if a != [] && b != [] && c != [] && a[0] == b[0] && b[0] == c[0] {
      LexLessTransitive(a[1..], b[1..], c[1..]);
    }
  }

  lemma {:induction false} LexLessTotal(a: string, b: string)
    requires a != b
    ensures LexLess(a, b) || LexLess(b, a)
    decreases |a|
  {
    if a != [] && b != [] && a[0] == b[0] {
      assert a[1..] != b[1..];
      LexLessTotal(a[1..], b[1..]);
    }
  }

  /** Strings that share a prefix compare as what follows it does. */
  lemma {:induction false} LexLessCommonPrefix(p: string, a: string, b: string)
    ensures LexLess(p + a, p + b) == LexLess(a, b)
    decreases |p|
  {
    if p == [] {
      assert p + a == a && p + b == b;
    } else {
      assert (p + a)[0] == p[0] == (p + b)[0];
      assert (p + a)[1..] == p[1..] + a && (p + b)[1..] == p[1..] + b;
      LexLessCommonPrefix(p[1..], a, b);
    }
  }

  /**
   * Lower-casing as far as deciding `"unknown" in s.lower()` is concerned: ASCII
   * capitals and the Kelvin sign (U+212A) lower to ASCII letters; every other
   * character that `lower()` changes lowers to something outside "unknown".
   */
  function LowerChar(c: char): char {
    if 'A' <= c <= 'Z' then (c as int + 32) as char
    else if c == '\U{212A}' then 'k'
    else c
  }

  function Lower(s: string): (r: string)
    ensures |r| == |s| && forall i :: 0 <= i < |s| ==> r[i] == LowerChar(s[i])
  {
    if s == [] then [] else [LowerChar(s[0])] + Lower(s[1..])
  }

  lemma {:induction false} LowerJoin(c: char, parts: seq<string>)
    requires LowerChar(c) == c
    ensures Lower(Join([c], parts)) == Join([c], seq(|parts|, k requires 0 <= k < |parts| => Lower(parts[k])))
    decreases |parts|
  {
    if |parts| >= 2 {
      LowerJoin(c, parts[1..]);
      var lowered := seq(|parts|, k requires 0 <= k < |parts| => Lower(parts[k]));
      assert lowered[1..] == seq(|parts[1..]|, k requires 0 <= k < |parts[1..]| => Lower(parts[1..][k]));
      LowerConcat(parts[0] + [c], Join([c], parts[1..]));
      LowerConcat(parts[0], [c]);
    }
  }

  lemma LowerConcat(a: string, b: string)
    ensures Lower(a + b) == Lower(a) + Lower(b)
  {
    assert forall i :: 0 <= i < |a + b| ==> Lower(a + b)[i] == (Lower(a) + Lower(b))[i];
  }
}
