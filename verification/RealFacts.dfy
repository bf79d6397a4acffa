/** Facts about products of reals. */
module RealFacts {

  function Times(x: real, y: real): real {
    x * y
  }

  lemma TimesPositive(x: real, y: real)
    requires (x > 0.0 && y > 0.0) || (x < 0.0 && y < 0.0)
    ensures Times(x, y) > 0.0
  {
    assert (-x) * (-y) == x * y;
  }

  lemma SquareSign(x: real)
    ensures Times(x, x) >= 0.0
    ensures x != 0.0 ==> Times(x, x) > 0.0
  {
    if x != 0.0 {
      TimesPositive(x, x);
    }
  }

  function Dot(x: real, y: real, u: real, v: real): real {
    x * u + y * v
  }

  lemma NormPositive(x: real, y: real)
    requires x != 0.0 || y != 0.0
    ensures Dot(x, y, x, y) > 0.0
  {
    SquareSign(x);
    SquareSign(y);
    assert Dot(x, y, x, y) == Times(x, x) + Times(y, y);
  }

  lemma DotScales(x: real, y: real, u: real, v: real, t: real)
    ensures Dot(x, y, t * u, t * v) == t * Dot(x, y, u, v)
  {
  }

  lemma NormScales(u: real, v: real, t: real)
    ensures Dot(t * u, t * v, t * u, t * v) == (t * t) * Dot(u, v, u, v)
  {
  }

  lemma ZeroProduct(x: real, y: real)
    requires x * y == 0.0
    ensures x == 0.0 || y == 0.0
  {
  }

  lemma Cancel(x: real, y: real, d: real)
    requires d != 0.0 && x * d == y * d
    ensures x == y
  {
    assert (x - y) * d == 0.0;
    ZeroProduct(x - y, d);
  }

  lemma SquareOfDifference(w: real, u: real)
    ensures (w - u) * (w - u) == w * w - 2.0 * (w * u) + u * u
  {
  }

  /** Comparing non-negative roots is comparing what they are roots of. */
  lemma RootsCompare(r: real, s: real)
    requires r >= 0.0 && s >= 0.0
    ensures r == s <==> r * r == s * s
  {
    if r * r == s * s {
      assert (r - s) * (r + s) == r * r - s * s;
      ZeroProduct(r - s, r + s);
    }
  }
}
