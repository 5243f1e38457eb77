/** The magnitude band `format_large_number` chooses for a headline total.
    Only the branch is modelled; the text rendering is not. */
module Bands {

  datatype Band = Billion | Million | Plain

  const BILLION: real := 1_000_000_000.0
  const MILLION: real := 1_000_000.0

  /** The branch taken: the thresholds, both directions. */
  function BandOf(n: real): (b: Band)
    ensures b == Billion <==> n >= BILLION
    ensures b == Million <==> MILLION <= n < BILLION
    ensures b == Plain <==> n < MILLION
  {
    if n >= BILLION then Billion
    else if n >= MILLION then Million
    else Plain
  }

  /** The scaled number formatted before the band's suffix, before it is
      rounded to two decimals: in [1, 1000) for millions and at least 1 for
      billions, scaling back to the total; plain totals are unscaled. */
  function Mantissa(n: real): (x: real)
    ensures BandOf(n) == Billion ==> x >= 1.0 && x * BILLION == n
    ensures BandOf(n) == Million ==> 1.0 <= x < 1000.0 && x * MILLION == n
    ensures BandOf(n) == Plain ==> x == n && n < MILLION
  {
    match BandOf(n)
    case Billion => n / BILLION
    case Million =>
      assert n / MILLION < BILLION / MILLION;
      n / MILLION
    case Plain => n
  }

  function Rank(b: Band): nat
  {
    match b
    case Plain => 0
    case Million => 1
    case Billion => 2
  }

  /** A larger total never gets a smaller band. */
  lemma BandMonotone(n: real, m: real)
    requires n <= m
    ensures Rank(BandOf(n)) <= Rank(BandOf(m))
  {
  }
}
