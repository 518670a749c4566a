/** Numeric extraction from a single token: an `int` as `>> int` reads it and a
    plain decimal as `>> float` reads it, with exact arithmetic for the latter.
    Also the formatters that print such tokens, so that parsing can be checked
    against them. */
module Numerals {
  import opened Wrappers
  import Tokens

  const MinInt32: int := -0x8000_0000
  const MaxInt32: int := 0x7FFF_FFFF

  predicate IsDigit(c: char) {
    '0' <= c <= '9'
  }

  predicate AllDigits(s: string) {
    forall i :: 0 <= i < |s| ==> IsDigit(s[i])
  }

  function DigitValue(c: char): (d: nat)
    requires IsDigit(c)
    ensures d < 10
  {
    c as int - '0' as int
  }

  function DigitChar(d: nat): (c: char)
    requires d < 10
    ensures IsDigit(c) && DigitValue(c) == d
  {
    ('0' as int + d) as char
  }

  /** The value of a string of decimal digits, most significant first. */
  function NatValue(s: string): nat
    requires AllDigits(s)
    decreases |s|
  {
    if s == [] then 0 else 10 * NatValue(s[..|s| - 1]) + DigitValue(s[|s| - 1])
  }

  function Pow10(n: nat): (p: nat)
    ensures p >= 1
  {
    if n == 0 then 1 else 10 * Pow10(n - 1)
  }

  /** Shortest decimal numeral of `n`. */
  function FormatNat(n: nat): (s: string)
    ensures |s| > 0 && AllDigits(s)
    decreases n
  {
    if n < 10 then [DigitChar(n)] else FormatNat(n / 10) + [DigitChar(n % 10)]
  }

  /** Decimal numeral of `i`, with a leading '-' when negative. */
  function FormatInt(i: int): string
  {
    if i < 0 then "-" + FormatNat(-i) else FormatNat(i)
  }

  /** `n / 10` printed with exactly one fractional digit, as a percentage
      column with one decimal is printed. */
  function FormatTenths(n: nat): string
  {
    FormatNat(n / 10) + "." + [DigitChar(n % 10)]
  }

  /** An unsigned run of digits. */
  function ParseNat(s: string): (r: Option<nat>)
    ensures r.Some? <==> |s| > 0 && AllDigits(s)
  {
    if |s| > 0 && AllDigits(s) then Some(NatValue(s)) else None
  }

  /** A signed integer token: an optional '+' or '-' followed by digits. */
  function ParseInt(s: string): (r: Option<int>)
    ensures r.Some? && 0 < |s| && IsDigit(s[0]) ==> r.value >= 0
  {
    if |s| > 0 && (s[0] == '-' || s[0] == '+') then
      match ParseNat(s[1..])
      case None => None
      case Some(m) => Some(if s[0] == '-' then -(m as int) else m as int)
    else
      match ParseNat(s)
      case None => None
      case Some(m) => Some(m)
  }

  /** Extraction into a 32-bit `int`: a value outside its range fails. */
  function ParseInt32(s: string): (r: Option<int>)
    ensures r.Some? ==> MinInt32 <= r.value <= MaxInt32
    ensures r.Some? <==> ParseInt(s).Some? && MinInt32 <= ParseInt(s).value <= MaxInt32
    ensures r.Some? ==> r.value == ParseInt(s).value
  {
    match ParseInt(s)
    case None => None
    case Some(v) => if MinInt32 <= v <= MaxInt32 then Some(v) else None
  }

  /** Index of the first '.', or `|s|` when there is none. */
  function FirstDot(s: string): (k: nat)
    ensures k <= |s|
    ensures k < |s| ==> s[k] == '.'
    ensures forall i :: 0 <= i < k ==> s[i] != '.'
  {
    if s == [] then 0 else if s[0] == '.' then 0 else 1 + FirstDot(s[1..])
  }

  /** Digits, optionally split by one '.', with at least one digit in all. */
  function ParseUnsignedDecimal(s: string): (r: Option<real>)
    ensures r.Some? ==> r.value >= 0.0
  {
    var k := FirstDot(s);
    var whole := s[..k];
    var frac := if k < |s| then s[k + 1..] else [];
    if AllDigits(whole) && AllDigits(frac) && |whole| + |frac| > 0 then
      Some(NatValue(whole) as real + NatValue(frac) as real / Pow10(|frac|) as real)
    else
      None
  }

  /** A signed decimal token, as a `float` extraction reads one. */
  function ParseDecimal(s: string): (r: Option<real>)
  {
    if |s| > 0 && (s[0] == '-' || s[0] == '+') then
      match ParseUnsignedDecimal(s[1..])
      case None => None
      case Some(m) => Some(if s[0] == '-' then -m else m)
    else
      ParseUnsignedDecimal(s)
  }

  /** A character that no integer or decimal numeral contains. */
  predicate Foreign(c: char) {
    !IsDigit(c) && c != '.' && c != '-' && c != '+'
  }

  /** A token with a character other than a digit or '.' is no unsigned decimal. */
  lemma UnsignedDecimalRejects(s: string, i: nat)
    requires i < |s| && !IsDigit(s[i]) && s[i] != '.'
    ensures ParseUnsignedDecimal(s).None?
  {
    var k := FirstDot(s);
    if i < k {
      assert s[..k][i] == s[i];
    } else {
      assert i > k;
      assert s[k + 1..][i - k - 1] == s[i];
    }
  }

  /** A token holding a foreign character does not extract as a decimal. */
  lemma DecimalRejects(s: string, i: nat)
    requires i < |s| && Foreign(s[i])
    ensures ParseDecimal(s).None?
  {
    if s[0] == '-' || s[0] == '+' {
      UnsignedDecimalRejects(s[1..], i - 1);
    } else {
      UnsignedDecimalRejects(s, i);
    }
  }

  /** A token holding a foreign character does not extract as an `int`. */
  lemma Int32Rejects(s: string, i: nat)
    requires i < |s| && Foreign(s[i])
    ensures ParseInt32(s).None?
  {
    if s[0] == '-' || s[0] == '+' {
      assert s[1..][i - 1] == s[i];
    }
  }

  lemma {:induction false} NatValueOfFormat(n: nat)
    ensures NatValue(FormatNat(n)) == n
    decreases n
  {
    if n >= 10 {
      var s := FormatNat(n);
      NatValueOfFormat(n / 10);
      assert s[..|s| - 1] == FormatNat(n / 10);
    }
  }

  /** Printing a natural number and extracting it again gives it back. */
  lemma NatRoundTrip(n: nat)
    ensures ParseNat(FormatNat(n)) == Some(n)
  {
    NatValueOfFormat(n);
  }

  /** Printing an integer and extracting it again gives it back. */
  lemma IntRoundTrip(i: int)
    ensures ParseInt(FormatInt(i)) == Some(i)
  {
    var s := FormatInt(i);
    if i < 0 {
      assert s[1..] == FormatNat(-i);
      NatRoundTrip(-i);
    } else {
      NatRoundTrip(i);
      assert IsDigit(s[0]);
    }
  }

  /** A 32-bit integer printed in decimal extracts back into an `int`. */
  lemma Int32RoundTrip(i: int)
    requires MinInt32 <= i <= MaxInt32
    ensures ParseInt32(FormatInt(i)) == Some(i)
  {
    IntRoundTrip(i);
  }

  /** A one-decimal numeral extracts to exactly the tenths it stands for. */
  lemma DecimalRoundTrip(n: nat)
    ensures ParseDecimal(FormatTenths(n)) == Some(n as real / 10.0)
  {
    var s := FormatTenths(n);
    UnsignedTenths(n);
    assert IsDigit(s[0]);
    TenthsValue(n);
  }

  lemma UnsignedTenths(n: nat)
    ensures ParseUnsignedDecimal(FormatTenths(n))
         == Some((n / 10) as real + (n % 10) as real / 10.0)
  {
    var w := FormatNat(n / 10);
    var d := [DigitChar(n % 10)];
    var s := FormatTenths(n);
    assert s == w + "." + d;
    assert forall i :: 0 <= i < |w| ==> s[i] == w[i] && s[i] != '.';
    FirstDotAt(s, |w|);
    assert s[..|w|] == w;
    assert s[|w| + 1..] == d;
    NatValueOfFormat(n / 10);
    assert d[..0] == [];
    assert NatValue(d) == n % 10;
    assert Pow10(|d|) == 10;
    assert AllDigits(w) && AllDigits(d);
  }

  lemma TenthsValue(n: nat)
    ensures (n / 10) as real + (n % 10) as real / 10.0 == n as real / 10.0
  {
    var q := n / 10;
    var r := n % 10;
    assert n == 10 * q + r;
    assert n as real == 10.0 * q as real + r as real;
  }

  lemma {:induction false} FirstDotAt(s: string, k: nat)
    requires k < |s| && s[k] == '.'
    requires forall i :: 0 <= i < k ==> s[i] != '.'
    ensures FirstDot(s) == k
    decreases k
  {
    if k > 0 {
      FirstDotAt(s[1..], k - 1);
    }
  }

  /** Digits are never whitespace, so printed numbers are single tokens. */
  lemma DigitsHaveNoSpace(s: string)
    requires AllDigits(s)
    ensures forall i :: 0 <= i < |s| ==> !Tokens.IsSpace(s[i])
  {
  }

  lemma IntIsToken(i: int)
    ensures Tokens.IsToken(FormatInt(i))
  {
    if i < 0 {
      DigitsHaveNoSpace(FormatNat(-i));
    } else {
      DigitsHaveNoSpace(FormatNat(i));
    }
  }

  lemma TenthsIsToken(n: nat)
    ensures Tokens.IsToken(FormatTenths(n))
  {
    DigitsHaveNoSpace(FormatNat(n / 10));
  }
}
