/** Numeric coercion of one cell: a decimal numeral becomes its value, any
    other text becomes "missing" instead of an error. */
module Coercion {
  import opened Records

  predicate IsDigit(c: char)
  {
    '0' <= c <= '9'
  }

  predicate AllDigits(s: string)
  {
    forall i :: 0 <= i < |s| ==> IsDigit(s[i])
  }

  /** Characters that may appear somewhere in a numeral. */
  predicate IsNumeralChar(c: char)
  {
    IsDigit(c) || c == '.' || c == '-' || c == '+'
  }

  function DigitValue(c: char): nat
    requires IsDigit(c)
  {
    c as int - '0' as int
  }

  function DigitChar(d: nat): (c: char)
    requires d < 10
    ensures IsDigit(c) && DigitValue(c) == d
  {
    ('0' as int + d) as char
  }

  /** The value of a string of decimal digits, most significant first. */
  function DigitsValue(s: string): nat
    requires AllDigits(s)
  {
    if |s| == 0 then 0 else 10 * DigitsValue(s[..|s| - 1]) + DigitValue(s[|s| - 1])
  }

  function Pow10(n: nat): (p: real)
    ensures p >= 1.0
  {
    if n == 0 then 1.0 else 10.0 * Pow10(n - 1)
  }

  /** An unsigned numeral: digits, optionally a point and more digits, with at
      least one digit in all (so "5", "5.", ".5" and "5.25" are numerals). */
  function ParseUnsigned(s: string): (r: Option<real>)
    ensures r.Some? ==> r.value >= 0.0
    ensures r.Some? ==> exists i :: 0 <= i < |s| && IsDigit(s[i])
    ensures r.Some? ==> forall i :: 0 <= i < |s| ==> IsDigit(s[i]) || s[i] == '.'
  {
    var dot := IndexOf(s, '.');
    var whole := if dot.Some? then s[..dot.value] else s;
    var frac := if dot.Some? then s[dot.value + 1..] else "";
    if AllDigits(whole) && AllDigits(frac) && |whole| + |frac| > 0 then
      assert s == if dot.Some? then whole + "." + frac else whole;
      assert |whole| > 0 ==> s[0] == whole[0];
      assert |whole| == 0 ==> s[dot.value + 1] == frac[0];
      Some(NumeralValue(whole, frac))
    else
      None
  }

  /** The value of the numeral `whole`.`frac`. */
  function NumeralValue(whole: string, frac: string): (v: real)
    requires AllDigits(whole) && AllDigits(frac)
    ensures v >= 0.0
  {
    DigitsValue(whole) as real + DigitsValue(frac) as real / Pow10(|frac|)
  }

  /** The coercion applied to every numeric column: an optional sign followed
      by an unsigned numeral; anything else is missing. */
  function ParseNumber(s: string): (r: Option<real>)
    ensures r.Some? ==> exists i :: 0 <= i < |s| && IsDigit(s[i])
    ensures (exists i :: 0 <= i < |s| && !IsNumeralChar(s[i])) ==> r.None?
  {
    var signed := |s| > 0 && (s[0] == '-' || s[0] == '+');
    var body := if signed then s[1..] else s;
    match ParseUnsigned(body)
    case None => None
    case Some(v) =>
      assert forall i :: 0 <= i < |body| ==> body[i] == s[if signed then i + 1 else i];
      Some(if signed && s[0] == '-' then -v else v)
  }

  /** Decimal rendering of a natural number, the inverse of DigitsValue. */
  function ShowNat(n: nat): (s: string)
    ensures |s| > 0 && AllDigits(s)
    ensures DigitsValue(s) == n
  {
    if n < 10 then [DigitChar(n)]
    else
      var s := ShowNat(n / 10) + [DigitChar(n % 10)];
      assert s[..|s| - 1] == ShowNat(n / 10);
      s
  }

  function ShowInt(i: int): string
  {
    if i < 0 then "-" + ShowNat(-i) else ShowNat(i)
  }

  lemma NoPointInDigits(s: string)
    requires AllDigits(s)
    ensures IndexOf(s, '.') == None
  {
  }

  /** Coercion reads back every integer that ShowInt writes. */
  lemma ParseShowInt(i: int)
    ensures ParseNumber(ShowInt(i)) == Some(i as real)
  {
    var digits := if i < 0 then ShowNat(-i) else ShowNat(i);
    NoPointInDigits(digits);
    assert ParseUnsigned(digits) == Some(NumeralValue(digits, ""));
    if i < 0 {
      assert ShowInt(i)[1..] == digits;
    } else {
      assert IsDigit(ShowInt(i)[0]);
    }
  }

  /** Coercion reads "whole.fraction" as whole + fraction / 10^(number of
      fraction digits). */
  lemma ParseDecimal(whole: nat, frac: string)
    requires AllDigits(frac)
    ensures ParseNumber(ShowNat(whole) + "." + frac) == Some(NumeralValue(ShowNat(whole), frac))
    ensures NumeralValue(ShowNat(whole), frac)
            == whole as real + DigitsValue(frac) as real / Pow10(|frac|)
  {
    var w := ShowNat(whole);
    var s := w + "." + frac;
    UnsignedWithPoint(w, frac);
    assert s[0] == w[0];
    UnsignedWhenNoSign(s);
  }

  lemma UnsignedWhenNoSign(s: string)
    requires |s| > 0 && IsDigit(s[0])
    ensures ParseNumber(s) == ParseUnsigned(s)
  {
  }

  lemma UnsignedWithPoint(w: string, frac: string)
    requires AllDigits(w) && AllDigits(frac) && |w| > 0
    ensures ParseUnsigned(w + "." + frac) == Some(NumeralValue(w, frac))
  {
    var s := w + "." + frac;
    PointAfterDigits(w, "." + frac);
    assert s == w + ("." + frac);
    assert IndexOf(s, '.') == Some(|w|);
    assert s[..|w|] == w;
    assert s[|w| + 1..] == frac;
  }

  lemma {:induction false} PointAfterDigits(w: string, t: string)
    requires AllDigits(w) && |t| > 0 && t[0] == '.'
    ensures IndexOf(w + t, '.') == Some(|w|)
  {
    if |w| > 0 {
      assert (w + t)[1..] == w[1..] + t;
      PointAfterDigits(w[1..], t);
    }
  }

  /** Text that is not a numeral at all never becomes a number. */
  lemma ParseRejectsWords()
    ensures ParseNumber("") == None
    ensures ParseNumber("-") == None
    ensures ParseNumber(".") == None
    ensures ParseNumber("n/a") == None
  {
    assert !IsNumeralChar("n/a"[0]);
  }
}
