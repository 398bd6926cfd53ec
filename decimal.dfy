/** Python's `float(text)` on the numeric fields of an RTTM line, over exact
    reals: an optional sign, decimal digits with at most one point, and an
    optional exponent. A text `float()` rejects (it raises `ValueError`) is
    `None`. */
module Decimal {
  import opened Wrappers

  predicate IsDigit(c: char) {
    '0' <= c <= '9'
  }

  predicate AllDigits(s: string) {
    forall i | 0 <= i < |s| :: IsDigit(s[i])
  }

  predicate HasDigit(s: string) {
    exists i | 0 <= i < |s| :: IsDigit(s[i])
  }

  function DigitValue(c: char): (v: nat)
    requires IsDigit(c)
    ensures v < 10
  {
    c as int - '0' as int
  }

  /** The value of a string of decimal digits, most significant first. */
  function DigitsValue(ds: string): (v: nat)
    requires AllDigits(ds)
    ensures ds != [] ==> v < Pow10(|ds|)
  {
    if ds == [] then 0
    else 10 * DigitsValue(ds[..|ds| - 1]) + DigitValue(ds[|ds| - 1])
  }

  function Pow10(k: nat): (p: nat)
    ensures p >= 1
  {
    if k == 0 then 1 else 10 * Pow10(k - 1)
  }

  /** `x` times ten to the power `e`, one decimal shift at a time. */
  function Shift(x: real, e: int): (r: real)
    decreases if e < 0 then -e else e
  {
    if e == 0 then x
    else if e > 0 then 10.0 * Shift(x, e - 1)
    else Shift(x, e + 1) / 10.0
  }

  /** The index of the first character of `s` that lies in `cs`, or `|s|`. */
  function Find(s: string, cs: set<char>): (k: nat)
    ensures k <= |s|
    ensures k < |s| ==> s[k] in cs
    ensures forall i | 0 <= i < k :: s[i] !in cs
  {
    if s == [] || s[0] in cs then 0 else 1 + Find(s[1..], cs)
  }

  /** Digits with at most one decimal point, and at least one digit. */
  function ParseMantissa(s: string): (r: Option<real>)
    ensures r.Some? ==> HasDigit(s)
  {
    var k := Find(s, {'.'});
    if k == |s| then
      if s != [] && AllDigits(s) then
        assert IsDigit(s[0]);
        Some(DigitsValue(s) as real)
      else None
    else
      var r := ParsePoint(s[..k], s[k + 1..]);
      if r.Some? then
        assert s[..k] + "." + s[k + 1..] == s;
        r
      else None
  }

  /** The digits `whole` before a point and `frac` after it, at least one
      digit in all: `whole + frac / 10^|frac|`. */
  function ParsePoint(whole: string, frac: string): (r: Option<real>)
    ensures r.Some? ==> HasDigit(whole + "." + frac)
  {
    if AllDigits(whole) && AllDigits(frac) && |whole| + |frac| > 0 then
      var s := whole + "." + frac;
      assert IsDigit(s[if |whole| > 0 then 0 else |whole| + 1]);
      Some(DigitsValue(whole) as real + Shift(DigitsValue(frac) as real, -|frac|))
    else None
  }

  /** An optionally signed, non-empty string of digits. */
  function ParseExponent(s: string): (r: Option<int>)
    ensures r.Some? ==> HasDigit(s)
  {
    var signed := s != [] && (s[0] == '+' || s[0] == '-');
    var ds := if signed then s[1..] else s;
    if ds != [] && AllDigits(ds) then
      assert IsDigit(s[if signed then 1 else 0]);
      var v: int := DigitsValue(ds);
      Some(if signed && s[0] == '-' then -v else v)
    else None
  }

  /** A mantissa, optionally followed by `e` or `E` and an exponent. */
  function ParseUnsigned(s: string): (r: Option<real>)
    ensures r.Some? ==> HasDigit(s)
  {
    var k := Find(s, {'e', 'E'});
    var m := ParseMantissa(s[..k]);
    if m.None? then None
    else if k == |s| then
      assert s[..k] == s;
      m
    else
      HasDigitSlice(s, 0, k);
      var e := ParseExponent(s[k + 1..]);
      if e.None? then None
      else
        Some(Shift(m.value, e.value))
  }

  /** `float(s)` for a field that `split()` produced. Every accepted text
      holds a digit, so placeholders such as `<NA>` are rejected. */
  function ParseFloat(s: string): (r: Option<real>)
    ensures r.Some? ==> HasDigit(s)
  {
    if s != [] && (s[0] == '+' || s[0] == '-') then
      match ParseUnsigned(s[1..])
      case None => None
      case Some(v) =>
        assert s[1..|s|] == s[1..];
        HasDigitSlice(s, 1, |s|);
        Some(if s[0] == '-' then -v else v)
    else ParseUnsigned(s)
  }

  /** The decimal representation of `n`, without leading zeros. */
  function ShowNat(n: nat): (s: string)
    ensures s != [] && AllDigits(s)
    ensures DigitsValue(s) == n
  {
    var d := ['0' + (n % 10) as char];
    if n < 10 then d else ShowNat(n / 10) + d
  }

  /** A negative `Shift` divides by a power of ten. */
  lemma {:induction false} ShiftDownValue(x: real, k: nat)
    ensures Shift(x, -(k as int)) == x / Pow10(k) as real
  {
    if k > 0 {
      ShiftDownValue(x, k - 1);
      var p := Pow10(k - 1) as real;
      assert Shift(x, -(k as int)) == (x / p) / 10.0;
      assert Pow10(k) as real == 10.0 * p;
      assert (x / p) / 10.0 == x / (10.0 * p);
    }
  }

  lemma HasDigitSlice(s: string, i: nat, j: nat)
    requires i <= j <= |s| && HasDigit(s[i..j])
    ensures HasDigit(s)
  {
    var k :| 0 <= k < j - i && IsDigit(s[i..j][k]);
    assert s[i + k] == s[i..j][k];
  }

  lemma FindAt(s: string, cs: set<char>, k: nat)
    requires k < |s| && s[k] in cs
    requires forall i | 0 <= i < k :: s[i] !in cs
    ensures Find(s, cs) == k
  {
  }

  lemma FindNone(s: string, cs: set<char>)
    requires forall i | 0 <= i < |s| :: s[i] !in cs
    ensures Find(s, cs) == |s|
  {
  }

  /** Without a sign, `float()` reads the text as an unsigned number. */
  lemma ParseFloatUnsigned(s: string)
    requires s == [] || (s[0] != '+' && s[0] != '-')
    ensures ParseFloat(s) == ParseUnsigned(s)
  {
  }

  /** Without an exponent marker the whole text is the mantissa. */
  lemma ParseUnsignedNoExponent(s: string)
    requires forall i | 0 <= i < |s| :: s[i] != 'e' && s[i] != 'E'
    ensures ParseUnsigned(s) == ParseMantissa(s)
  {
    FindNone(s, {'e', 'E'});
    assert s[..|s|] == s;
  }

  lemma ParseMantissaDigits(ds: string)
    requires ds != [] && AllDigits(ds)
    ensures ParseMantissa(ds) == Some(DigitsValue(ds) as real)
  {
    FindNone(ds, {'.'});
  }

  lemma ParseMantissaPoint(whole: string, frac: string)
    requires forall i | 0 <= i < |whole| :: whole[i] != '.'
    ensures ParseMantissa(whole + "." + frac) == ParsePoint(whole, frac)
  {
    var s := whole + "." + frac;
    assert forall i | 0 <= i < |whole| :: s[i] == whole[i];
    FindAt(s, {'.'}, |whole|);
    assert s[..|whole|] == whole;
    assert s[|whole| + 1..] == frac;
  }

  /** A plain string of digits reads as the integer it spells. */
  lemma ParseFloatDigits(ds: string)
    requires ds != [] && AllDigits(ds)
    ensures ParseFloat(ds) == Some(DigitsValue(ds) as real)
  {
    ParseFloatUnsigned(ds);
    ParseUnsignedNoExponent(ds);
    ParseMantissaDigits(ds);
  }

  /** Round trip: `float(str(n))` is `n` for every natural number. */
  lemma ParseShowNat(n: nat)
    ensures ParseFloat(ShowNat(n)) == Some(n as real)
  {
    ParseFloatDigits(ShowNat(n));
  }

  lemma ParsePointValue(whole: string, frac: string)
    requires AllDigits(whole) && AllDigits(frac) && |whole| + |frac| > 0
    ensures ParsePoint(whole, frac) == Some(DigitsValue(whole) as real + DigitsValue(frac) as real / Pow10(|frac|) as real)
  {
    var x := DigitsValue(frac) as real;
    var y := Shift(x, -(|frac| as int));
    assert y == x / Pow10(|frac|) as real by {
      ShiftDownValue(x, |frac|);
    }
    assert ParsePoint(whole, frac) == Some(DigitsValue(whole) as real + y);
  }

  /** `whole.frac` reads as `whole + frac / 10^|frac|`, e.g. "2.50" as 2.5. */
  lemma ParseFloatPoint(whole: string, frac: string)
    requires AllDigits(whole) && AllDigits(frac) && |whole| + |frac| > 0
    ensures ParseFloat(whole + "." + frac)
         == Some(DigitsValue(whole) as real + DigitsValue(frac) as real / Pow10(|frac|) as real)
  {
    var s := whole + "." + frac;
    assert ParseFloat(s) == ParseMantissa(s) by {
      assert forall i | 0 <= i < |s| :: s[i] == '.' || IsDigit(s[i]);
      ParseFloatUnsigned(s);
      ParseUnsignedNoExponent(s);
    }
    assert ParseMantissa(s) == ParsePoint(whole, frac) by {
      ParseMantissaPoint(whole, frac);
    }
    ParsePointValue(whole, frac);
  }

  /** A leading minus sign negates, a leading plus sign changes nothing. */
  lemma ParseFloatSign(s: string)
    requires s == [] || (s[0] != '+' && s[0] != '-')
    ensures ParseFloat("-" + s) == (if ParseFloat(s).Some? then Some(-ParseFloat(s).value) else None)
    ensures ParseFloat("+" + s) == ParseFloat(s)
  {
    ParseFloatMinus(s);
    ParseFloatPlus(s);
  }

  lemma ParseFloatMinus(s: string)
    requires s == [] || (s[0] != '+' && s[0] != '-')
    ensures ParseFloat("-" + s) == (if ParseFloat(s).Some? then Some(-ParseFloat(s).value) else None)
  {
    var t := "-" + s;
    assert t != [] && t[0] == '-';
    assert t[1..] == s;
    assert ParseFloat(s) == ParseUnsigned(s);
  }

  lemma ParseFloatPlus(s: string)
    requires s == [] || (s[0] != '+' && s[0] != '-')
    ensures ParseFloat("+" + s) == ParseFloat(s)
  {
    var t := "+" + s;
    assert t != [] && t[0] == '+';
    assert t[1..] == s;
    assert ParseFloat(s) == ParseUnsigned(s);
  }
}
