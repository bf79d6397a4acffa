/** What the slope-and-intercept computation decides, case by case. */
module CircleDecision {
  import opened Ieee
  import opened RealFacts
  import opened CircleSolver
  import opened PlaneGeometry

  /** Neither on a vertical nor on a horizontal with p. */
  predicate Slanted(p: Point, q: Point) {
    p.x != q.x && p.y != q.y
  }

  function Slope(p: Point, q: Point): real
    requires p.x != q.x
  {
    (q.y - p.y) / (q.x - p.x)
  }

  lemma SlopeTimes(p: Point, q: Point)
    requires p.x != q.x
    ensures Slope(p, q) * (q.x - p.x) == q.y - p.y
    ensures p.y != q.y ==> Slope(p, q) != 0.0
  {
  }

  function Intercept(p: Point, k: real): real {
    p.y - k * p.x
  }

  /** Slope and intercept of the perpendicular to y = kx + c at abscissa m, over the reals. */
  function Perpendicular(k: real, c: real, m: real): (real, real)
    requires k != 0.0
  {
    (-(1.0 / k), m * k + c + m * (1.0 / k))
  }

  function Mean(x: real, y: real): real {
    (x + y) / 2.0
  }

  /** Slope and intercept of the perpendicular bisector, over the reals. */
  function BisectorLine(p: Point, q: Point): (real, real)
    requires Slanted(p, q)
  {
    SlopeTimes(p, q);
    Perpendicular(Slope(p, q), Intercept(p, Slope(p, q)), Mean(p.x, q.x))
  }

  lemma SlopeFinite(p: Point, q: Point)
    requires p.x != q.x
    ensures Div(Sub(Fin(q.y), Fin(p.y)), Sub(Fin(q.x), Fin(p.x))) == Fin(Slope(p, q))
  {
    assert Sub(Fin(q.x), Fin(p.x)) == Fin(q.x - p.x);
    assert Sub(Fin(q.y), Fin(p.y)) == Fin(q.y - p.y);
  }

  lemma InterceptFinite(p: Point, k: real)
    ensures Sub(Fin(p.y), Mul(Fin(k), Fin(p.x))) == Fin(Intercept(p, k))
  {
  }

  lemma PerpendicularFinite(k: real, c: real, m: real)
    requires k != 0.0
    ensures FunctionOfPerpendicularLine(Fin(k), Fin(c), Fin(m))
         == (Fin(Perpendicular(k, c, m).0), Fin(Perpendicular(k, c, m).1))
  {
    assert Div(Fin(1.0), Fin(k)) == Fin(1.0 / k);
    assert Neg(Fin(1.0 / k)) == Fin(-(1.0 / k));
    assert Mul(Fin(m), Fin(k)) == Fin(m * k);
    assert Mul(Fin(m), Fin(1.0 / k)) == Fin(m * (1.0 / k));
    assert Add(Fin(m * k), Fin(c)) == Fin(m * k + c);
    assert Add(Fin(m * k + c), Fin(m * (1.0 / k))) == Fin(m * k + c + m * (1.0 / k));
  }

  lemma BisectorFinite(p: Point, q: Point)
    requires Slanted(p, q)
    ensures Bisector(p, q) == (Fin(BisectorLine(p, q).0), Fin(BisectorLine(p, q).1))
  {
    SlopeTimes(p, q);
    SlopeFinite(p, q);
    InterceptFinite(p, Slope(p, q));
    assert MeanDouble(Fin(p.x), Fin(q.x)) == Fin(Mean(p.x, q.x));
    PerpendicularFinite(Slope(p, q), Intercept(p, Slope(p, q)), Mean(p.x, q.x));
  }

  /** A vertical side has an infinite slope, and the intercept of its bisector is no number. */
  lemma BisectorVertical(p: Point, q: Point)
    requires p.x == q.x && p.y != q.y
    ensures Bisector(p, q).1 == NaN
  {
    var dy := q.y - p.y;
    assert Sub(Fin(q.x), Fin(p.x)) == Fin(0.0);
    assert Div(Sub(Fin(q.y), Fin(p.y)), Fin(0.0)) == Inf(dy < 0.0);
    assert MeanDouble(Fin(p.x), Fin(q.x)) == Fin(p.x);
  }

  // --- The bisector is the bisector ----------------------------------------------------------

  lemma OnBisectorScaled(x: real, y: real, k: real, c: real, m: real)
    requires k != 0.0
    ensures y == -(1.0 / k) * x + (m * k + c + m * (1.0 / k)) <==> x + k * y == m + k * (k * m + c)
  {
    var i := 1.0 / k;
    assert i * k == 1.0;
    Unscale(x, y, k, i, m, c);
  }

  lemma Unscale(x: real, y: real, k: real, i: real, m: real, c: real)
    requires i * k == 1.0
    ensures y == -i * x + (m * k + c + m * i) <==> x + k * y == m + k * (k * m + c)
  {
    if y == -i * x + (m * k + c + m * i) {
      assert k * y == k * (-i * x) + k * (m * k + c) + k * (m * i);
      assert k * (-i * x) == -(i * k) * x && k * (m * i) == (i * k) * m;
    }
    if x + k * y == m + k * (k * m + c) {
      assert i * (k * y) == i * (m - x) + i * (k * (k * m + c));
      assert i * (k * y) == (i * k) * y && i * (k * (k * m + c)) == (i * k) * (k * m + c);
    }
  }

  lemma EquidistantScaled(x: real, y: real, px: real, py: real, qx: real, qy: real, k: real)
    requires qy - py == k * (qx - px) && qx != px
    ensures 2.0 * ((x - px) * (qx - px) + (y - py) * (qy - py)) == (qx - px) * (qx - px) + (qy - py) * (qy - py)
       <==> x + k * y == (px + qx) / 2.0 + k * ((py + qy) / 2.0)
  {
    var d := qx - px;
    assert (y - py) * (qy - py) == k * (y - py) * d;
    assert (qy - py) * (qy - py) == k * (qy - py) * d;
    var l, r := 2.0 * ((x - px) + k * (y - py)), d + k * (qy - py);
    assert 2.0 * ((x - px) * d + (y - py) * (qy - py)) == l * d;
    assert d * d + (qy - py) * (qy - py) == r * d;
    if l * d == r * d {
      Cancel(l, r, d);
    }
  }

  predicate OnLine(o: Point, k: real, c: real) {
    o.y == k * o.x + c
  }

  lemma OnPerpendicularIff(o: Point, p: Point, q: Point, k: real)
    requires k != 0.0 && q.y - p.y == k * (q.x - p.x) && q.x != p.x
    ensures var (l, c) := Perpendicular(k, Intercept(p, k), Mean(p.x, q.x));
      OnLine(o, l, c) <==> HalfWay(o, p, q)
  {
    EquidistantScaled(o.x, o.y, p.x, p.y, q.x, q.y, k);
    OnBisectorScaled(o.x, o.y, k, p.y - k * p.x, (p.x + q.x) / 2.0);
    MidpointOnLine(p.x, p.y, q.x, q.y, k);
  }

  /** A point is on the computed line if and only if it is equidistant from p and q. */
  lemma BisectorIsExact(o: Point, p: Point, q: Point)
    requires Slanted(p, q)
    ensures OnLine(o, BisectorLine(p, q).0, BisectorLine(p, q).1) <==> Equidistant(o, p, q)
  {
    SlopeTimes(p, q);
    EquidistantLinear(o, p, q);
    OnPerpendicularIff(o, p, q, Slope(p, q));
  }

  lemma MidpointOnLine(px: real, py: real, qx: real, qy: real, k: real)
    requires k * (qx - px) == qy - py
    ensures k * ((px + qx) / 2.0) + (py - k * px) == (py + qy) / 2.0
  {
  }

  // --- Two bisectors --------------------------------------------------------------------------

  /** p1 is on no vertical or horizontal with p2 or p3. */
  predicate General(q: Quad) {
    Slanted(q.p1, q.p2) && Slanted(q.p1, q.p3)
  }

  /** Parallel sides are sides of one line. */
  lemma SlopesEqualIff(a: Point, b: Point, c: Point)
    requires a.x != b.x && a.x != c.x
    ensures Slope(a, b) == Slope(a, c) <==> Collinear(a, b, c)
  {
    SlopeTimes(a, b);
    SlopeTimes(a, c);
    CrossOfSlopes(b.x - a.x, c.x - a.x, Slope(a, b), Slope(a, c));
    assert Cross(a, b, c) == (b.x - a.x) * (Slope(a, c) * (c.x - a.x)) - (Slope(a, b) * (b.x - a.x)) * (c.x - a.x);
  }

  lemma CrossOfSlopes(u: real, v: real, k: real, l: real)
    requires u != 0.0 && v != 0.0
    ensures u * (l * v) - (k * u) * v == 0.0 <==> k == l
  {
    assert u * (l * v) - (k * u) * v == (l - k) * (u * v);
    if (l - k) * (u * v) == 0.0 {
      ZeroProduct(l - k, u * v);
      if u * v == 0.0 {
        ZeroProduct(u, v);
      }
    }
  }

  lemma InversesEqualIff(k: real, l: real)
    requires k != 0.0 && l != 0.0
    ensures -(1.0 / k) == -(1.0 / l) <==> k == l
  {
    var i, j := 1.0 / k, 1.0 / l;
    assert i * k == 1.0 && j * l == 1.0;
    if i == j {
      assert i * k == i * l;
      assert i != 0.0;
      assert k * i == l * i;
      Cancel(k, l, i);
    }
  }

  lemma BisectorsParallelIff(a: Point, b: Point, c: Point)
    requires Slanted(a, b) && Slanted(a, c)
    ensures BisectorLine(a, b).0 == BisectorLine(a, c).0 <==> Collinear(a, b, c)
    ensures BisectorLine(a, b).0 != 0.0
  {
    SlopeTimes(a, b);
    SlopeTimes(a, c);
    SlopesEqualIff(a, b, c);
    InversesEqualIff(Slope(a, b), Slope(a, c));
  }

  /** k and its inverse do not cancel out. */
  lemma NotOpposite(k: real, i: real)
    requires i * k == 1.0
    ensures k + i != 0.0
  {
    SquareSign(k);
    assert i == -k ==> i * k == -Times(k, k);
  }

  lemma InterceptsDiffer(k: real, i: real, m: real, n: real, c: real)
    requires i * k == 1.0
    ensures m * k + c + m * i == n * k + c + n * i <==> m == n
  {
    NotOpposite(k, i);
    assert (m * k + c + m * i) - (n * k + c + n * i) == (m - n) * (k + i);
    if m * k + c + m * i == n * k + c + n * i {
      ZeroProduct(m - n, k + i);
    }
  }

  /** The bisectors of two sides of one line coincide only if the sides do. */
  lemma ParallelBisectorsDiffer(a: Point, b: Point, c: Point)
    requires Slanted(a, b) && Slanted(a, c) && Collinear(a, b, c)
    ensures BisectorLine(a, b).1 == BisectorLine(a, c).1 <==> b == c
  {
    SlopeTimes(a, b);
    SlopeTimes(a, c);
    SlopesEqualIff(a, b, c);
    var k := Slope(a, b);
    var i := 1.0 / k;
    assert i * k == 1.0;
    InterceptsDiffer(k, i, Mean(a.x, b.x), Mean(a.x, c.x), Intercept(a, k));
  }
}
