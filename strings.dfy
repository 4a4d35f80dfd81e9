/** The string operations the crawlers use: `str.replace` of one character,
    `rpartition(sep)[-1]`, `partition(sep)[-1]`, `split(sep)[-1]`, and Python's
    `int(str)` and `str(int)` on decimal numbers. */
module Strings {
  import opened Base

  /** `s.replace(from, to)` for single characters: every `from` becomes `to`, nothing else moves. */
  function ReplaceChar(s: string, from: char, to: char): (r: string)
    ensures |r| == |s|
    ensures forall i :: 0 <= i < |s| ==> r[i] == (if s[i] == from then to else s[i])
  {
    if s == [] then [] else [if s[0] == from then to else s[0]] + ReplaceChar(s[1..], from, to)
  }

  /** `s.rpartition(c)[-1]`, also `s.split(c)[-1]`: the part of `s` after the
      last `c`, or all of `s` when it has no `c`. */
  function AfterLast(s: string, c: char): (r: string)
    ensures |r| <= |s| && r == s[|s| - |r|..]
    ensures c !in r
    ensures |r| < |s| ==> s[|s| - |r| - 1] == c
  {
    if s == [] then []
    else if s[|s| - 1] == c then []
    else AfterLast(s[..|s| - 1], c) + [s[|s| - 1]]
  }

  /** What follows the last separator is exactly the part after it that has no separator. */
  lemma {:induction false} AfterLastOfSeparated(x: string, c: char, y: string)
    requires c !in y
    ensures AfterLast(x + [c] + y, c) == y
  {
    if y != [] {
      var y' := y[..|y| - 1];
      AfterLastOfSeparated(x, c, y');
      assert (x + [c] + y)[..|x + [c] + y| - 1] == x + [c] + y';
      assert y' + [y[|y| - 1]] == y;
    } else {
      assert x + [c] + y == x + [c];
    }
  }

  /** `s.partition(c)[-1]`: the part of `s` after the first `c`, or the empty
      string when `s` has no `c`. */
  function AfterFirst(s: string, c: char): (r: string)
    ensures c in s ==> |r| < |s| && s[|s| - |r| - 1] == c && c !in s[..|s| - |r| - 1] && r == s[|s| - |r|..]
    ensures c !in s ==> r == []
  {
    if s == [] then []
    else if s[0] == c then s[1..]
    else
      var r := AfterFirst(s[1..], c);
      assert c in s[1..] ==> s[1..][..|s| - 1 - |r| - 1] == s[1..|s| - |r| - 1];
      r
  }

  /** What follows the first separator, when nothing before it is one, is everything after it. */
  lemma {:induction false} AfterFirstOfSeparated(x: string, c: char, y: string)
    requires c !in x
    ensures AfterFirst(x + [c] + y, c) == y
  {
    var s := x + [c] + y;
    if x != [] {
      AfterFirstOfSeparated(x[1..], c, y);
      assert s[0] == x[0] && s[1..] == x[1..] + [c] + y;
    } else {
      assert s[0] == c && s[1..] == y;
    }
  }

  /** The white space Python's `int()` skips around an ASCII literal: space, tab,
      line feed, vertical tab, form feed and carriage return. (`str.strip()`
      would also remove the separators U+001C to U+001F; `int()` does not.) */
  predicate IsSpace(c: char)
  {
    c == ' ' || ('\t' <= c <= '\r')
  }

  function TrimLeft(s: string): (r: string)
    ensures |r| <= |s| && r == s[|s| - |r|..]
    ensures r != [] ==> !IsSpace(r[0])
    ensures forall i :: 0 <= i < |s| - |r| ==> IsSpace(s[i])
  {
    if s != [] && IsSpace(s[0]) then TrimLeft(s[1..]) else s
  }

  function TrimRight(s: string): (r: string)
    ensures |r| <= |s| && r == s[..|r|]
    ensures r != [] ==> !IsSpace(r[|r| - 1])
    ensures forall i :: |r| <= i < |s| ==> IsSpace(s[i])
  {
    if s != [] && IsSpace(s[|s| - 1]) then TrimRight(s[..|s| - 1]) else s
  }

  /** `s` without the white space `int()` skips at either end. */
  function TrimSpace(s: string): string
  {
    TrimRight(TrimLeft(s))
  }

  predicate IsDigit(c: char)
  {
    '0' <= c <= '9'
  }

  predicate AllDigits(s: string)
  {
    forall i :: 0 <= i < |s| ==> IsDigit(s[i])
  }

  /** A non-empty string of ASCII decimal digits. */
  predicate IsDigitString(s: string)
  {
    |s| > 0 && AllDigits(s)
  }

  /** The number a string of decimal digits denotes (0 for the empty string). */
  function DigitsValue(s: string): nat
    requires AllDigits(s)
  {
    if s == [] then 0 else DigitsValue(s[..|s| - 1]) * 10 + ((s[|s| - 1] as int) - ('0' as int))
  }

  function DigitChar(d: nat): (c: char)
    requires d < 10
    ensures IsDigit(c) && (c as int) - ('0' as int) == d
  {
    (('0' as int) + d) as char
  }

  /** `str(n)` for a non-negative integer: decimal digits, no leading zero. */
  function NatToString(n: nat): (s: string)
    ensures IsDigitString(s)
    ensures s[0] == '0' ==> n == 0 && |s| == 1
  {
    if n < 10 then [DigitChar(n)] else NatToString(n / 10) + [DigitChar(n % 10)]
  }

  /** `str(i)` for any integer: canonical decimal digits, after a `-` for a negative number. */
  function IntToString(i: int): (r: string)
    ensures i >= 0 ==> IsDigitString(r) && (r[0] == '0' ==> i == 0)
    ensures i < 0 ==> |r| >= 2 && r[0] == '-' && IsDigitString(r[1..]) && r[1] != '0'
  {
    if i < 0 then "-" + NatToString(-i) else NatToString(i)
  }

  /** An integer literal as `int()` reads it: one or more decimal digits,
      optionally after one sign. */
  predicate IsIntLiteral(t: string)
  {
    IsDigitString(t) || (|t| >= 2 && (t[0] == '+' || t[0] == '-') && IsDigitString(t[1..]))
  }

  /** Python's `int(s)` on a string: surrounding white space is ignored, then an
      optional sign and one or more decimal digits; anything else raises ValueError. */
  function ParseInt(s: string): (r: Option<int>)
    ensures r.Some? <==> IsIntLiteral(TrimSpace(s))
    ensures IsDigitString(TrimSpace(s)) ==> r == Some(DigitsValue(TrimSpace(s)))
    ensures r.Some? ==> TrimSpace(s) != [] && (r.value < 0 ==> TrimSpace(s)[0] == '-')
    ensures TrimSpace(s) == [] ==> r == None
  {
    var t := TrimSpace(s);
    if |t| > 0 && (t[0] == '-' || t[0] == '+') then
      if IsDigitString(t[1..]) then
        var v: int := DigitsValue(t[1..]);
        Some(if t[0] == '-' then -v else v)
      else None
    else if IsDigitString(t) then Some(DigitsValue(t))
    else None
  }

  /** Reading back the digits `str` writes gives the number. */
  lemma {:induction false} NatToStringValue(n: nat)
    ensures DigitsValue(NatToString(n)) == n
  {
    if n >= 10 {
      NatToStringValue(n / 10);
      var s := NatToString(n);
      assert s[..|s| - 1] == NatToString(n / 10);
    }
  }

  /** A string with no white space at either end is left as it is. */
  lemma TrimUnspaced(s: string)
    requires s != [] && !IsSpace(s[0]) && !IsSpace(s[|s| - 1])
    ensures TrimSpace(s) == s
  {
  }

  /** An information separator (U+001C to U+001F) is not white space to `int()`:
      a text starting with one raises ValueError, whatever follows it. */
  lemma ParseIntRejectsSeparator(c: char, rest: string)
    requires '\U{1C}' <= c <= '\U{1F}'
    ensures ParseInt([c] + rest) == None
  {
    var s := [c] + rest;
    assert s[0] == c && !IsSpace(c);
    assert TrimLeft(s) == s;
    var t := TrimSpace(s);
    assert t != [] && t[0] == c;
    assert !IsIntLiteral(t);
  }

  /** A signed literal: `int()` of a `-` and digits is minus their value, of a `+`
      and digits is their value (`"-05"` is -5, `"+5"` is 5). */
  lemma ParseIntSigned(s: string)
    ensures var t := TrimSpace(s);
      |t| >= 2 && t[0] == '-' && IsDigitString(t[1..]) ==> ParseInt(s) == Some(-(DigitsValue(t[1..]) as int))
    ensures var t := TrimSpace(s);
      |t| >= 2 && t[0] == '+' && IsDigitString(t[1..]) ==> ParseInt(s) == Some(DigitsValue(t[1..]) as int)
  {
  }

  /** `int` of a digit string is its non-negative value: it never raises and is never below 0. */
  lemma ParseIntOfDigits(s: string)
    requires IsDigitString(s)
    ensures ParseInt(s) == Some(DigitsValue(s))
    ensures DigitsValue(s) >= 0
  {
    TrimUnspaced(s);
  }

  /** `int(str(i)) == i` for every integer. */
  lemma ParseIntRoundTrip(i: int)
    ensures ParseInt(IntToString(i)) == Some(i)
  {
    var s := IntToString(i);
    if i < 0 {
      var d := NatToString(-i);
      assert s[1..] == d;
      assert s[|s| - 1] == d[|d| - 1];
      TrimUnspaced(s);
      NatToStringValue(-i);
      var v: int := DigitsValue(d);
      assert ParseInt(s) == Some(-v);
    } else {
      ParseIntOfDigits(s);
      NatToStringValue(i);
    }
  }
}
