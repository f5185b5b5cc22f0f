// Decimals of a given scale: rounding half away from zero.
module Decimals {
  import opened Reals

  function Pow10(s: nat): (p: real)
    ensures p > 0.0
  {
    if s == 0 then 1.0 else 10.0 * Pow10(s - 1)
  }

  // A decimal cast to scale s: half away from zero.
  function RoundUnits(a: real, p: real): real
    requires p > 0.0
  {
    (a * p + 0.5).Floor as real / p
  }

  function RoundHalfUp(x: real, s: nat): real {
    if x < 0.0 then -RoundUnits(-x, Pow10(s)) else RoundUnits(x, Pow10(s))
  }

  lemma RoundUnitsError(a: real, p: real)
    requires p > 0.0
    ensures -(0.5 / p) <= RoundUnits(a, p) - a <= 0.5 / p
  {
    QuotientWithin((a * p + 0.5).Floor as real, a, p);
  }

  lemma RoundError(x: real, s: nat)
    ensures Abs(RoundHalfUp(x, s) - x) <= 0.5 / Pow10(s)
  {
    hide RoundUnits, Pow10;
    RoundUnitsError(if x < 0.0 then -x else x, Pow10(s));
  }

  lemma QuotientWithin(n: real, a: real, p: real)
    requires p > 0.0 && a * p - 0.5 <= n <= a * p + 0.5
    ensures -(0.5 / p) <= n / p - a <= 0.5 / p
  {
    var e := 0.5 / p;
    assert e * p == 0.5 && -e * p == -0.5;
    DivideBounds(-e, e, n - a * p, p);
    Cancel(a, p);
    assert (n - a * p) / p == n / p - (a * p) / p;
  }
}
