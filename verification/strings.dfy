/**
 * The Python `str` operations the core relies on, over Dafny strings
 * (`seq<char>`, one element per Unicode scalar value, as Python indexes them):
 * `sep.join(parts)`, `s.strip()`, `s.splitlines(keepends=True)`,
 * `p in s`, `s.lower()`, `s[:n]`, `s.replace("\n", " ")` and `str(i)` for integers.
 */
module Strings {

  /** `sep.join(parts)`. */
  function Join(parts: seq<string>, sep: string): string
  {
    if |parts| == 0 then ""
    else if |parts| == 1 then parts[0]
    else parts[0] + sep + Join(parts[1..], sep)
  }

  /** With a non-empty separator, `sep.join(parts)` is empty exactly for no parts or one empty part. */
  lemma JoinEmpty(parts: seq<string>, sep: string)
    requires sep != ""
    ensures Join(parts, sep) == "" <==> parts == [] || parts == [""]
  {
    if |parts| >= 2 {
      assert |Join(parts, sep)| >= |sep|;
    } else if |parts| == 1 {
      assert parts == [parts[0]];
    }
  }

  /** `"".join(parts)`. */
  function Concat(parts: seq<string>): string
  {
    if |parts| == 0 then "" else parts[0] + Concat(parts[1..])
  }

  // ---------------------------------------------------------------------------
  // Substring test (`p in s`)
  // ---------------------------------------------------------------------------

  /** `p in s`: `p` occurs in `s` at some position. */
  predicate Contains(s: string, p: string)
    decreases |s|
  {
    p <= s || (|s| > 0 && Contains(s[1..], p))
  }

  /** An occurrence of `p` at position `i` of `s` is an occurrence in `s`. */
  lemma {:induction false} ContainsAt(s: string, i: nat, p: string)
    requires i <= |s| && p <= s[i..]
    ensures Contains(s, p)
    decreases i
  {
    if i > 0 {
      assert s[1..][i - 1..] == s[i..];
      ContainsAt(s[1..], i - 1, p);
    }
  }

  /** An occurrence in `b` is an occurrence in `a + b + c`. */
  lemma {:induction false} ContainsInfix(a: string, b: string, c: string, p: string)
    requires Contains(b, p)
    ensures Contains(a + b + c, p)
  {
    var i :| 0 <= i <= |b| && p <= b[i..] by { OccurrenceOf(b, p); }
    assert (a + b + c)[|a| + i..] == b[i..] + c;
    ContainsAt(a + b + c, |a| + i, p);
  }

  /** `p` occurs at the end of `a + p`. */
  lemma ContainsEnd(a: string, p: string)
    ensures Contains(a + p, p)
  {
    ContainsAt(a + p, |a|, p);
  }

  /** An occurrence stays one when more text follows. */
  lemma ContainsExtend(s: string, x: string, p: string)
    requires Contains(s, p)
    ensures Contains(s + x, p)
  {
    OccurrenceOf(s, p);
    var i :| 0 <= i <= |s| && p <= s[i..];
    assert (s + x)[i..] == s[i..] + x;
    ContainsAt(s + x, i, p);
  }

  /** A witness position for `Contains`. */
  lemma {:induction false} OccurrenceOf(s: string, p: string)
    requires Contains(s, p)
    ensures exists i :: 0 <= i <= |s| && p <= s[i..]
    decreases |s|
  {
    if p <= s {
      assert s[0..] == s;
    } else {
      OccurrenceOf(s[1..], p);
      var i :| 0 <= i <= |s[1..]| && p <= s[1..][i..];
      assert s[1..][i..] == s[i + 1..];
    }
  }

  /** An occurrence of `q` inside an occurrence of `p` is an occurrence in `s`. */
  lemma ContainsTransitive(s: string, p: string, q: string)
    requires Contains(s, p) && Contains(p, q)
    ensures Contains(s, q)
  {
    OccurrenceOf(s, p);
    OccurrenceOf(p, q);
    var i :| 0 <= i <= |s| && p <= s[i..];
    var j :| 0 <= j <= |p| && q <= p[j..];
    assert q <= s[i + j..] by {
      forall m | 0 <= m < |q| ensures q[m] == s[i + j + m] {
        assert q[m] == p[j + m] == s[i + j + m];
      }
    }
    ContainsAt(s, i + j, q);
  }

  /** A string whose characters all differ from `p[0]` does not contain `p`. */
  lemma {:induction false} NotContainsWithoutFirstChar(s: string, p: string)
    requires |p| > 0
    requires forall i :: 0 <= i < |s| ==> s[i] != p[0]
    ensures !Contains(s, p)
    decreases |s|
  {
    if |s| > 0 {
      assert s[0] != p[0];
      assert forall i :: 0 <= i < |s[1..]| ==> s[1..][i] == s[i + 1];
      NotContainsWithoutFirstChar(s[1..], p);
      assert !(p <= s);
    } else {
      assert !(p <= s);
    }
  }

  /** An occurrence of `p` in one of the parts is an occurrence in their join. */
  lemma {:induction false} JoinContains(parts: seq<string>, sep: string, i: nat, p: string)
    requires i < |parts| && Contains(parts[i], p)
    ensures Contains(Join(parts, sep), p)
    decreases |parts|
  {
    if |parts| == 1 {
    } else if i == 0 {
      ContainsInfix("", parts[0], sep + Join(parts[1..], sep), p);
      assert "" + parts[0] + (sep + Join(parts[1..], sep)) == Join(parts, sep);
    } else {
      JoinContains(parts[1..], sep, i - 1, p);
      ContainsInfix(parts[0] + sep, Join(parts[1..], sep), "", p);
      assert parts[0] + sep + Join(parts[1..], sep) + "" == Join(parts, sep);
    }
  }

  // ---------------------------------------------------------------------------
  // Whitespace and `strip()`
  // ---------------------------------------------------------------------------

  /** The characters for which Python's `str.isspace()` holds; `strip()` removes them. */
  predicate IsSpace(c: char)
  {
    c == ' ' || ('\t' <= c <= '\r') || ('\U{1C}' <= c <= '\U{1F}')
    || c == '\U{85}' || c == '\U{A0}' || c == '\U{1680}' || ('\U{2000}' <= c <= '\U{200A}')
    || c == '\U{2028}' || c == '\U{2029}' || c == '\U{202F}' || c == '\U{205F}' || c == '\U{3000}'
  }

  /** `not s.strip()`: the string is empty or all whitespace. */
  predicate IsBlank(s: string)
  {
    forall i :: 0 <= i < |s| ==> IsSpace(s[i])
  }

  /** `s.lstrip()`: drops the longest all-whitespace prefix. */
  function LStrip(s: string): (r: string)
    ensures |r| <= |s| && r == s[|s| - |r|..]
    ensures forall i :: 0 <= i < |s| - |r| ==> IsSpace(s[i])
    ensures r == [] || !IsSpace(r[0])
    decreases |s|
  {
    if |s| > 0 && IsSpace(s[0]) then LStrip(s[1..]) else s
  }

  /** `s.rstrip()`: drops the longest all-whitespace suffix. */
  function RStrip(s: string): (r: string)
    ensures |r| <= |s| && r == s[..|r|]
    ensures forall i :: |r| <= i < |s| ==> IsSpace(s[i])
    ensures r == [] || !IsSpace(r[|r| - 1])
    decreases |s|
  {
    if |s| > 0 && IsSpace(s[|s| - 1]) then RStrip(s[..|s| - 1]) else s
  }

  /** `s.strip()`. */
  function Strip(s: string): string
  {
    RStrip(LStrip(s))
  }

  /**
   * `strip()` leaves the string empty exactly when it was blank; otherwise
   * the result neither starts nor ends with whitespace, is not blank, and
   * stripping it again changes nothing.
   */
  lemma StripProperties(s: string)
    ensures Strip(s) == "" <==> IsBlank(s)
    ensures Strip(s) != "" ==> !IsSpace(Strip(s)[0]) && !IsSpace(Strip(s)[|Strip(s)| - 1])
    ensures !IsBlank(Strip(s)) <==> !IsBlank(s)
    ensures Strip(Strip(s)) == Strip(s)
  {
    var l := LStrip(s);
    var r := RStrip(l);
    if r == "" {
      forall i | 0 <= i < |s| ensures IsSpace(s[i]) {
        if i >= |s| - |l| {
          assert s[i] == l[i - (|s| - |l|)];
        }
      }
    } else {
      assert r[0] == l[0];
      assert !IsSpace(r[0]);
      assert !IsBlank(s) by {
        assert s[|s| - |l|] == l[0];
      }
    }
    assert LStrip(r) == r;
    assert RStrip(r) == r;
  }

  // ---------------------------------------------------------------------------
  // `lower()`, `s[:n]` and `replace("\n", " ")`
  // ---------------------------------------------------------------------------

  /** Lower-case mapping of one character (ASCII letters only). */
  function LowerChar(c: char): char
  {
    if 'A' <= c <= 'Z' then (c as int - 'A' as int + 'a' as int) as char else c
  }

  /** `s.lower()`, character by character. */
  function Lower(s: string): string
  {
    seq(|s|, i requires 0 <= i < |s| => LowerChar(s[i]))
  }

  /** `s[:n]` for `n >= 0`. */
  function Take(s: string, n: nat): string
  {
    if n <= |s| then s[..n] else s
  }

  /** `s.replace("\n", " ")`. */
  function FlattenNewlines(s: string): string
  {
    seq(|s|, i requires 0 <= i < |s| => if s[i] == '\n' then ' ' else s[i])
  }

  // ---------------------------------------------------------------------------
  // `splitlines(keepends=True)`
  // ---------------------------------------------------------------------------

  /** The line boundaries recognised by Python's `str.splitlines`. */
  predicate IsLineBreak(c: char)
  {
    c == '\n' || c == '\r' || c == '\U{0B}' || c == '\U{0C}' || c == '\U{1C}' || c == '\U{1D}'
    || c == '\U{1E}' || c == '\U{85}' || c == '\U{2028}' || c == '\U{2029}'
  }

  /** Index of the first line boundary in `s`, or `|s|` when there is none. */
  function FirstBreak(s: string): (b: nat)
    ensures b <= |s|
    ensures forall i :: 0 <= i < b ==> !IsLineBreak(s[i])
    ensures b < |s| ==> IsLineBreak(s[b])
    decreases |s|
  {
    if |s| == 0 || IsLineBreak(s[0]) then 0
    else
      var b := FirstBreak(s[1..]);
      assert forall i :: 1 <= i < |s| ==> s[i] == s[1..][i - 1];
      1 + b
  }

  /**
   * Length of the first line of `s`, its terminator included: the line runs to
   * the first line boundary, a "\r\n" pair counting as one boundary, or to the
   * end of `s`.
   */
  function LineLength(s: string): (n: nat)
    requires |s| > 0
    ensures 0 < n <= |s|
    ensures forall i :: 0 <= i < n - 1 ==> !IsLineBreak(s[i]) || (i == n - 2 && s[i] == '\r' && s[i + 1] == '\n')
    ensures n == |s| || IsLineBreak(s[n - 1])
    ensures s[n - 1] == '\r' ==> n == |s| || s[n] != '\n'
  {
    var b := FirstBreak(s);
    if b == |s| then |s|
    else if s[b] == '\r' && b + 1 < |s| && s[b + 1] == '\n' then b + 2
    else b + 1
  }

  /** `s.splitlines(keepends=True)`. */
  function SplitLines(s: string): (lines: seq<string>)
    ensures |lines| == 0 <==> |s| == 0
    ensures |lines| <= |s|
    ensures forall i :: 0 <= i < |lines| ==> |lines[i]| > 0
    decreases |s|
  {
    if |s| == 0 then []
    else
      var n := LineLength(s);
      [s[..n]] + SplitLines(s[n..])
  }

  /** `splitlines(keepends=True)` loses nothing: its lines concatenate back to the input. */
  lemma {:induction false} SplitLinesConcat(s: string)
    ensures Concat(SplitLines(s)) == s
    decreases |s|
  {
    if |s| > 0 {
      var n := LineLength(s);
      SplitLinesConcat(s[n..]);
      var lines := SplitLines(s);
      assert lines == [s[..n]] + SplitLines(s[n..]);
      assert lines[1..] == SplitLines(s[n..]);
      calc {
        Concat(lines);
        lines[0] + Concat(lines[1..]);
        s[..n] + s[n..];
      }
      assert s[..n] + s[n..] == s;
    }
  }

  /**
   * Each line of `splitlines(keepends=True)` holds a line boundary only as its
   * terminator ("\r\n" counting as one), and every line except possibly the
   * last ends with one.
   */
  lemma {:induction false} SplitLinesShape(s: string)
    ensures forall j :: 0 <= j < |SplitLines(s)| ==> LineShaped(SplitLines(s)[j])
    ensures forall j :: 0 <= j < |SplitLines(s)| - 1 ==> IsLineBreak(SplitLines(s)[j][|SplitLines(s)[j]| - 1])
    decreases |s|
  {
    if |s| > 0 {
      var n := LineLength(s);
      SplitLinesShape(s[n..]);
      var lines := SplitLines(s);
      assert lines[1..] == SplitLines(s[n..]);
      assert lines[0] == s[..n];
      assert forall i :: 0 <= i < n ==> lines[0][i] == s[i];
      assert LineShaped(lines[0]);
      forall j | 0 <= j < |lines| ensures LineShaped(lines[j]) {
        if j > 0 { assert lines[j] == SplitLines(s[n..])[j - 1]; }
      }
      forall j | 0 <= j < |lines| - 1 ensures IsLineBreak(lines[j][|lines[j]| - 1]) {
        if j > 0 { assert lines[j] == SplitLines(s[n..])[j - 1]; }
      }
    }
  }

  /** A line ending in "\r" is never followed by one starting with "\n": a "\r\n" pair is never split. */
  lemma {:induction false} SplitLinesKeepsCrLf(s: string)
    ensures forall j :: 0 <= j < |SplitLines(s)| - 1 && SplitLines(s)[j][|SplitLines(s)[j]| - 1] == '\r' ==>
              SplitLines(s)[j + 1][0] != '\n'
    decreases |s|
  {
    if |s| > 0 {
      var n := LineLength(s);
      SplitLinesKeepsCrLf(s[n..]);
      var lines := SplitLines(s);
      assert lines[1..] == SplitLines(s[n..]);
      forall j | 0 <= j < |lines| - 1 && lines[j][|lines[j]| - 1] == '\r' ensures lines[j + 1][0] != '\n' {
        if j > 0 {
          assert lines[j] == SplitLines(s[n..])[j - 1];
          assert lines[j + 1] == SplitLines(s[n..])[j];
        } else {
          assert lines[0] == s[..n];
          assert lines[1] == SplitLines(s[n..])[0];
          assert lines[1][0] == s[n];
        }
      }
    }
  }

  /** A non-empty line whose only line boundary, if any, is its terminator. */
  predicate LineShaped(t: string)
  {
    |t| > 0 &&
    forall i :: 0 <= i < |t| - 1 ==> !IsLineBreak(t[i]) || (i == |t| - 2 && t[i] == '\r' && t[i + 1] == '\n')
  }

  // ---------------------------------------------------------------------------
  // `str(i)` for integers, with the parser it is the inverse of
  // ---------------------------------------------------------------------------

  function DigitChar(d: nat): char
    requires d < 10
  {
    ('0' as int + d) as char
  }

  predicate IsDigit(c: char)
  {
    '0' <= c <= '9'
  }

  /** Decimal digits of a natural number, without leading zeros. */
  function NatToString(n: nat): (r: string)
    ensures |r| > 0 && forall i :: 0 <= i < |r| ==> IsDigit(r[i])
    decreases n
  {
    if n < 10 then [DigitChar(n)] else NatToString(n / 10) + [DigitChar(n % 10)]
  }

  /** `str(i)` for a Python `int`. */
  function IntToString(i: int): string
  {
    if i < 0 then "-" + NatToString(-i) else NatToString(i)
  }

  /** Value of a string of decimal digits. */
  function ParseNat(s: string): nat
    requires forall i :: 0 <= i < |s| ==> IsDigit(s[i])
    decreases |s|
  {
    if |s| == 0 then 0 else ParseNat(s[..|s| - 1]) * 10 + DigitValue(s[|s| - 1])
  }

  function DigitValue(c: char): nat
    requires IsDigit(c)
  {
    c as int - '0' as int
  }

  /** `int(s)` for the strings `str(i)` produces. */
  function ParseInt(s: string): int
  {
    if |s| > 0 && s[0] == '-' && forall i :: 1 <= i < |s| ==> IsDigit(s[i]) then -(ParseNat(s[1..]) as int)
    else if forall i :: 0 <= i < |s| ==> IsDigit(s[i]) then ParseNat(s)
    else 0
  }

  lemma {:induction false} NatToStringRoundTrip(n: nat)
    ensures ParseNat(NatToString(n)) == n
    decreases n
  {
    if n >= 10 {
      NatToStringRoundTrip(n / 10);
      var r := NatToString(n);
      assert r[..|r| - 1] == NatToString(n / 10);
    }
  }

  /** `str(i)` loses nothing: reading it back yields `i`. */
  lemma IntToStringRoundTrip(i: int)
    ensures ParseInt(IntToString(i)) == i
  {
    if i < 0 {
      NatToStringRoundTrip(-i);
      assert IntToString(i)[1..] == NatToString(-i);
    } else {
      NatToStringRoundTrip(i);
      assert IsDigit(IntToString(i)[0]);
    }
  }
}
