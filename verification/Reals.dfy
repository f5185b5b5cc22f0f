// Elementary facts about products and quotients of reals.
module Reals {
  function Abs(x: real): (r: real)
    ensures r >= 0.0 && (r == x || r == -x)
  {
    if x < 0.0 then -x else x
  }

  lemma Distribute(x: real, a: real, b: real)
    ensures x * (a + b) == x * a + x * b
  {
  }

  lemma Scale(a: real, b: real, weight: real)
    requires a <= b && weight >= 0.0
    ensures a * weight <= b * weight
  {
  }

  lemma ZeroProduct(x: real, y: real)
    requires x == 0.0
    ensures x * y == 0.0
  {
  }

  lemma Cancel(x: real, y: real)
    requires y != 0.0
    ensures (x * y) / y == x
  {
  }

  lemma QuotientBack(x: real, y: real)
    requires y != 0.0
    ensures (x / y) * y == x
  {
  }

  lemma SquareSign(x: real)
    ensures x * x >= 0.0
    ensures x * x == 0.0 <==> x == 0.0
  {
    if x == 0.0 {
      ZeroProduct(x, x);
    } else {
      Cancel(x, x);
    }
  }

  lemma DivideBounds(lo: real, hi: real, x: real, n: real)
    requires n > 0.0 && lo * n <= x <= hi * n
    ensures lo <= x / n <= hi
  {
  }

  lemma QuotientSign(x: real, n: real)
    requires n > 0.0 && x >= 0.0
    ensures x / n >= 0.0 && (x / n == 0.0 <==> x == 0.0)
  {
    assert (x / n) * n == x;
  }

  lemma SameQuotient(x: real, y: real, v: real)
    requires v > 0.0
    ensures x / v == y / v <==> x == y
  {
    assert (x / v) * v == x && (y / v) * v == y;
  }

  lemma AbsQuotient(x: real, y: real, v: real, bound: real)
    requires v > 0.0 && Abs(x - y) <= bound
    ensures Abs(x / v - y / v) <= bound / v
  {
    var e := bound / v;
    assert e * v == bound && -e * v == -bound;
    DivideBounds(-e, e, x - y, v);
    assert x / v - y / v == (x - y) / v;
  }
}
