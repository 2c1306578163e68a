/** The text handling the point-resolution rule relies on: locating the first
    colon (std::string::find_first_of), splitting on colons
    (StringUtils::split, of which only the first two fields matter) and C's
    `atoi`. A decimal writer is the partner that the round-trip lemmas use. */
module StringUtils {

  /** Position of the first ':' in `s`, or -1 when there is none: the value
      of `find_first_of(":")` once `npos` is stored into an `int`. */
  function FirstColon(s: string): (pos: int)
    ensures -1 <= pos < |s|
    ensures 0 <= pos ==> s[pos] == ':'
  {
    if s == [] then -1
    else if s[0] == ':' then 0
    else
      var k := FirstColon(s[1..]);
      if k == -1 then -1 else k + 1
  }

  /** FirstColon finds a colon exactly when there is one, and no colon
      precedes the one it finds. */
  lemma {:induction false} FirstColonSpec(s: string)
    ensures FirstColon(s) == -1 <==> ':' !in s
    ensures 0 <= FirstColon(s) ==> ':' !in s[..FirstColon(s)]
  {
    if s != [] && s[0] != ':' {
      FirstColonSpec(s[1..]);
      assert s == [s[0]] + s[1..];
      var k := FirstColon(s[1..]);
      if k != -1 {
        assert s[..k + 1] == [s[0]] + s[1..][..k];
      }
    }
  }

  /** The first colon is the colon no other colon precedes. */
  lemma {:induction false} FirstColonAt(s: string, k: nat)
    requires k < |s| && s[k] == ':'
    requires forall i :: 0 <= i < k ==> s[i] != ':'
    ensures FirstColon(s) == k
  {
    if k > 0 {
      FirstColonAt(s[1..], k - 1);
    }
  }

  /** Text made of digits holds no colon. */
  lemma DigitsHaveNoColon(d: string)
    requires AllDigits(d)
    ensures ':' !in d
    ensures forall i :: 0 <= i < |d| ==> d[i] != ':'
  {
    assert forall i :: 0 <= i < |d| ==> IsDigit(d[i]) && d[i] != ':';
  }

  /** The colon-separated field at the start of `t`: the text up to the next
      ':' or the end. */
  function FieldAt(t: string): (f: string)
    ensures f <= t
    ensures |f| < |t| ==> t[|f|] == ':'
  {
    var k := FirstColon(t);
    if k == -1 then t else t[..k]
  }

  /** The field holds no colon. */
  lemma FieldAtHasNoColon(t: string)
    ensures ':' !in FieldAt(t)
  {
    FirstColonSpec(t);
  }

  /** A digit string followed by nothing or by a ':' is the first field. */
  lemma FieldOfDigits(d: string, tail: string)
    requires AllDigits(d)
    requires tail == [] || tail[0] == ':'
    ensures FieldAt(d + tail) == d
  {
    DigitsHaveNoColon(d);
    if tail == [] {
      assert d + tail == d;
    } else {
      FirstColonAt(d + tail, |d|);
      assert (d + tail)[..|d|] == d;
    }
  }

  /** The characters C's `isspace` accepts in the "C" locale. */
  predicate IsSpace(c: char)
  {
    c == ' ' || '\t' <= c <= '\r'
  }

  predicate IsDigit(c: char)
  {
    '0' <= c <= '9'
  }

  predicate AllDigits(d: string)
  {
    forall i :: 0 <= i < |d| ==> IsDigit(d[i])
  }

  /** `s` without its leading white space. */
  function SkipSpaces(s: string): string
  {
    if s != [] && IsSpace(s[0]) then SkipSpaces(s[1..]) else s
  }

  /** The longest prefix of `s` made of decimal digits. */
  function DigitPrefix(s: string): (d: string)
    ensures d <= s && AllDigits(d)
    ensures |d| < |s| ==> !IsDigit(s[|d|])
  {
    if s != [] && IsDigit(s[0]) then [s[0]] + DigitPrefix(s[1..]) else []
  }

  /** The number a string of decimal digits denotes, most significant
      digit first. */
  function DecimalValue(d: string): nat
    requires AllDigits(d)
  {
    if d == [] then 0
    else 10 * DecimalValue(d[..|d| - 1]) + (d[|d| - 1] as int - '0' as int)
  }

  /** C's `atoi`: leading white space, an optional sign, then the longest run
      of digits; text with no digits there reads as 0. Overflow, which is
      undefined in C, does not arise with unbounded integers. */
  function Atoi(s: string): int
  {
    var t := SkipSpaces(s);
    if t != [] && t[0] == '-' then -(DecimalValue(DigitPrefix(t[1..])) as int)
    else if t != [] && t[0] == '+' then DecimalValue(DigitPrefix(t[1..]))
    else DecimalValue(DigitPrefix(t))
  }

  /** The decimal text of `n`, without sign or leading zeros. */
  function DecimalText(n: nat): (d: string)
    ensures d != [] && AllDigits(d)
  {
    var last := ('0' as int + n % 10) as char;
    if n < 10 then [last] else DecimalText(n / 10) + [last]
  }

  /** Reading back what DecimalText writes gives the number again. */
  lemma {:induction false} DecimalValueOfText(n: nat)
    ensures DecimalValue(DecimalText(n)) == n
  {
    if n >= 10 {
      var d := DecimalText(n);
      assert d[..|d| - 1] == DecimalText(n / 10);
      DecimalValueOfText(n / 10);
    }
  }

  lemma {:induction false} DigitPrefixOfDigits(d: string)
    requires AllDigits(d)
    ensures DigitPrefix(d) == d
  {
    if d != [] {
      DigitPrefixOfDigits(d[1..]);
    }
  }

  /** On a string of digits alone, `atoi` yields the number it denotes. */
  lemma AtoiOfDigits(d: string)
    requires AllDigits(d)
    ensures Atoi(d) == DecimalValue(d)
  {
    assert SkipSpaces(d) == d;
    DigitPrefixOfDigits(d);
  }

  /** `atoi` reads back every number DecimalText writes. */
  lemma AtoiOfDecimalText(n: nat)
    ensures Atoi(DecimalText(n)) == n
  {
    AtoiOfDigits(DecimalText(n));
    DecimalValueOfText(n);
  }
}
