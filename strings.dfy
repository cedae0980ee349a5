/**
 * The pieces of Python's string handling that the agent relies on:
 * `sep.join(parts)`, `s.split(sep)`, `str(n)` for integers and `int(s)`
 * for strings (base 10).
 */
module Strings {
  import opened Wrappers

  /** `sep.join(parts)` for a one-character separator. */
  function Join(parts: seq<string>, sep: char): string
  {
    if |parts| == 0 then ""
    else if |parts| == 1 then parts[0]
    else parts[0] + [sep] + Join(parts[1..], sep)
  }

  /** `s.split(sep)` for a one-character separator: never empty, `""` splits to `[""]`. */
  function Split(s: string, sep: char): (parts: seq<string>)
    ensures |parts| >= 1
    decreases |s|
  {
    if s == [] then [""]
    else
      var rest := Split(s[1..], sep);
      if s[0] == sep then [""] + rest
      else [[s[0]] + rest[0]] + rest[1..]
  }

  lemma {:induction false} SplitWithoutSeparator(t: string, sep: char)
    requires sep !in t
    ensures Split(t, sep) == [t]
    decreases |t|
  {
    if t != [] {
      assert sep !in t[1..];
      SplitWithoutSeparator(t[1..], sep);
      assert [t[0]] + t[1..] == t;
    }
  }

  lemma {:induction false} SplitAtSeparator(t: string, u: string, sep: char)
    requires sep !in t
    ensures Split(t + [sep] + u, sep) == [t] + Split(u, sep)
    decreases |t|
  {
    var s := t + [sep] + u;
    if t == [] {
      assert s[1..] == u;
    } else {
      assert s[1..] == t[1..] + [sep] + u;
      SplitAtSeparator(t[1..], u, sep);
      assert [t[0]] + t[1..] == t;
    }
  }

  /** Splitting a join gives the parts back when no part holds the separator. */
  lemma {:induction false} SplitJoin(parts: seq<string>, sep: char)
    requires |parts| >= 1
    requires forall i :: 0 <= i < |parts| ==> sep !in parts[i]
    ensures Split(Join(parts, sep), sep) == parts
    decreases |parts|
  {
    if |parts| == 1 {
      SplitWithoutSeparator(parts[0], sep);
    } else {
      SplitJoin(parts[1..], sep);
      SplitAtSeparator(parts[0], Join(parts[1..], sep), sep);
    }
  }

  predicate IsDigit(c: char)
  {
    '0' <= c <= '9'
  }

  predicate AllDigits(s: string)
  {
    forall i :: 0 <= i < |s| ==> IsDigit(s[i])
  }

  function DigitChar(d: nat): (c: char)
    requires d < 10
    ensures IsDigit(c)
  {
    (d + '0' as int) as char
  }

  function DigitValue(c: char): (d: nat)
    requires IsDigit(c)
    ensures d < 10
  {
    c as int - '0' as int
  }

  /** `str(n)` for a non-negative integer: decimal digits, no leading zero. */
  function NatToString(n: nat): (s: string)
    ensures |s| >= 1 && AllDigits(s)
    ensures |s| > 1 ==> s[0] != '0'
    decreases n
  {
    if n < 10 then [DigitChar(n)] else NatToString(n / 10) + [DigitChar(n % 10)]
  }

  /** `str(i)` for any integer: a minus sign before the digits of a negative one. */
  function IntToString(i: int): (s: string)
    ensures |s| >= 1 && IsDigit(s[|s| - 1])
    ensures forall k :: 0 <= k < |s| ==> IsDigit(s[k]) || (k == 0 && s[k] == '-')
    ensures (s[0] == '-') == (i < 0)
  {
    if i < 0 then "-" + NatToString(-i) else NatToString(i)
  }

  /** The value of a string of decimal digits, most significant first. */
  function DigitsValue(s: string): nat
    requires AllDigits(s)
    decreases |s|
  {
    if s == [] then 0 else DigitsValue(s[..|s| - 1]) * 10 + DigitValue(s[|s| - 1])
  }

  lemma {:induction false} DigitsValueOfNatToString(n: nat)
    ensures DigitsValue(NatToString(n)) == n
    decreases n
  {
    if n >= 10 {
      DigitsValueOfNatToString(n / 10);
      var s := NatToString(n);
      assert s[..|s| - 1] == NatToString(n / 10);
    }
  }

  /** Python's `str.isspace()`: the characters `str.strip()` removes. */
  predicate IsPyWhitespace(c: char)
  {
    var n := c as int;
    n == 0x20 || 0x09 <= n <= 0x0D || 0x1C <= n <= 0x1F || n == 0x85 || n == 0xA0
    || n == 0x1680 || 0x2000 <= n <= 0x200A || n == 0x2028 || n == 0x2029
    || n == 0x202F || n == 0x205F || n == 0x3000
  }

  /**
   * The characters `int()` skips around a number: the ASCII space and
   * `\t\n\v\f\r`, and every non-ASCII whitespace character. The ASCII
   * separators U+001C..U+001F are whitespace to `isspace()` but not to `int()`.
   */
  predicate IsPyIntSpace(c: char)
  {
    IsPyWhitespace(c) && !(0x1C <= c as int <= 0x1F)
  }

  /** Drops the leading characters in `space` and nothing else. */
  function StripLeft(s: string, space: char -> bool): (t: string)
    ensures |t| <= |s|
    ensures |t| > 0 ==> !space(t[0])
    decreases |s|
  {
    if |s| > 0 && space(s[0]) then StripLeft(s[1..], space) else s
  }

  /** Drops the trailing characters in `space` and nothing else. */
  function StripRight(s: string, space: char -> bool): (t: string)
    ensures |t| <= |s|
    ensures |t| > 0 ==> !space(t[|t| - 1])
    decreases |s|
  {
    if |s| > 0 && space(s[|s| - 1]) then StripRight(s[..|s| - 1], space) else s
  }

  /** Drops the characters in `space` at both ends. */
  function StripBoth(s: string, space: char -> bool): (t: string)
    ensures |t| > 0 ==> !space(t[0]) && !space(t[|t| - 1])
  {
    StripRightDrops(StripLeft(s, space), space);
    StripRight(StripLeft(s, space), space)
  }

  /** `s.strip()`. */
  function Strip(s: string): (t: string)
    ensures |t| > 0 ==> !IsPyWhitespace(t[0]) && !IsPyWhitespace(t[|t| - 1])
  {
    StripBoth(s, IsPyWhitespace)
  }

  /** What `int()` removes around its argument before reading the number. */
  function IntStrip(s: string): (t: string)
    ensures |t| > 0 ==> !IsPyIntSpace(t[0]) && !IsPyIntSpace(t[|t| - 1])
  {
    StripBoth(s, IsPyIntSpace)
  }

  /** Stripping on the left removes characters in `space` only. */
  lemma {:induction false} StripLeftDrops(s: string, space: char -> bool)
    ensures StripLeft(s, space) == s[|s| - |StripLeft(s, space)|..]
    ensures forall k :: 0 <= k < |s| - |StripLeft(s, space)| ==> space(s[k])
    decreases |s|
  {
    if |s| > 0 && space(s[0]) {
      StripLeftDrops(s[1..], space);
      assert forall k :: 1 <= k < |s| - |StripLeft(s, space)| ==> s[k] == s[1..][k - 1];
    }
  }

  /** Stripping on the right removes characters in `space` only. */
  lemma {:induction false} StripRightDrops(s: string, space: char -> bool)
    ensures StripRight(s, space) == s[..|StripRight(s, space)|]
    ensures forall k :: |StripRight(s, space)| <= k < |s| ==> space(s[k])
    decreases |s|
  {
    if |s| > 0 && space(s[|s| - 1]) {
      StripRightDrops(s[..|s| - 1], space);
      assert forall k :: |StripRight(s, space)| <= k < |s| - 1 ==> s[k] == s[..|s| - 1][k];
    }
  }

  /** A string that neither starts nor ends with a character in `space` is its own strip. */
  lemma StripTrimmed(s: string, space: char -> bool)
    requires |s| > 0 && !space(s[0]) && !space(s[|s| - 1])
    ensures StripBoth(s, space) == s
  {
    assert StripLeft(s, space) == s;
  }

  /**
   * The digit part `int()` accepts: at least one digit, and every underscore
   * stands between two digits.
   */
  predicate IsDigitGroups(b: string)
  {
    && |b| >= 1
    && (forall i :: 0 <= i < |b| ==> IsDigit(b[i]) || b[i] == '_')
    && (forall i :: 0 <= i < |b| && b[i] == '_' ==> 0 < i < |b| - 1 && IsDigit(b[i - 1]) && IsDigit(b[i + 1]))
  }

  function RemoveUnderscores(b: string): (d: string)
    requires forall i :: 0 <= i < |b| ==> IsDigit(b[i]) || b[i] == '_'
    ensures AllDigits(d)
    decreases |b|
  {
    if b == [] then []
    else (if b[0] == '_' then [] else [b[0]]) + RemoveUnderscores(b[1..])
  }

  function ParseDigitGroups(b: string): Option<nat>
  {
    if IsDigitGroups(b) then Some(DigitsValue(RemoveUnderscores(b))) else None
  }

  /**
   * `int(s)` for a string `s`: surrounding `int()` whitespace, then an optional sign,
   * then decimal digit groups; anything else is a `ValueError`, here `None`.
   */
  function ParsePyInt(s: string): Option<int>
  {
    var t := IntStrip(s);
    if |t| > 0 && (t[0] == '-' || t[0] == '+') then
      match ParseDigitGroups(t[1..])
      case Some(n) => Some(if t[0] == '-' then -(n as int) else n as int)
      case None => None
    else
      match ParseDigitGroups(t)
      case Some(n) => Some(n)
      case None => None
  }

  lemma {:induction false} RemoveUnderscoresOfDigits(d: string)
    requires AllDigits(d)
    ensures RemoveUnderscores(d) == d
    decreases |d|
  {
    if d != [] {
      RemoveUnderscoresOfDigits(d[1..]);
      assert [d[0]] + d[1..] == d;
    }
  }

  lemma ParseNatToString(n: nat)
    ensures ParseDigitGroups(NatToString(n)) == Some(n)
  {
    RemoveUnderscoresOfDigits(NatToString(n));
    DigitsValueOfNatToString(n);
  }

  /** `int()` of an already stripped string made of a sign and digit groups. */
  lemma ParseStripped(t: string, n: nat)
    requires IntStrip(t) == t
    requires |t| > 0 && t[0] == '-' && ParseDigitGroups(t[1..]) == Some(n)
    ensures ParsePyInt(t) == Some(-(n as int))
  {
  }

  lemma ParseNonNegative(i: int)
    requires i >= 0
    ensures ParsePyInt(IntToString(i)) == Some(i)
  {
    var s := NatToString(i);
    assert IntToString(i) == s;
    StripTrimmed(s, IsPyIntSpace);
    assert s[0] != '-' && s[0] != '+';
    ParseNatToString(i);
  }

  lemma ParseNegative(i: int)
    requires i < 0
    ensures ParsePyInt(IntToString(i)) == Some(i)
  {
    var s := "-" + NatToString(-i);
    assert IntToString(i) == s;
    StripTrimmed(s, IsPyIntSpace);
    assert s[1..] == NatToString(-i);
    ParseNatToString(-i);
    ParseStripped(s, -i);
  }

  /**
   * `int()` raises on a number behind one of the ASCII separators U+001C..U+001F,
   * although `strip()` would remove the separator.
   */
  lemma ParsePyIntKeepsSeparators(c: char)
    requires 0x1C <= c as int <= 0x1F
    ensures IsPyWhitespace(c) && Strip([c] + "1") == "1"
    ensures ParsePyInt([c] + "1") == None
  {
    var s := [c] + "1";
    StripTrimmed(s, IsPyIntSpace);
    assert !IsDigitGroups(s) by {
      assert !IsDigit(s[0]) && s[0] != '_';
    }
    assert StripLeft(s, IsPyWhitespace) == "1" by {
      assert s[1..] == "1";
    }
  }

  /** `int(str(i)) == i` for every integer. */
  lemma ParsePyIntOfIntToString(i: int)
    ensures ParsePyInt(IntToString(i)) == Some(i)
  {
    if i < 0 {
      ParseNegative(i);
    } else {
      ParseNonNegative(i);
    }
  }
}
