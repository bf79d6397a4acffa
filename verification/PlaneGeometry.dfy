/** Circles through points of the real plane. */
module PlaneGeometry {
  import opened CircleSolver
  import opened RealFacts

  function Dist2(a: Point, b: Point): real {
    (a.x - b.x) * (a.x - b.x) + (a.y - b.y) * (a.y - b.y)
  }

  /** o is as far from a as from b. */
  predicate Equidistant(o: Point, a: Point, b: Point) {
    Dist2(o, a) == Dist2(o, b)
  }

  predicate CentreOf3(o: Point, a: Point, b: Point, c: Point) {
    Equidistant(o, a, b) && Equidistant(o, a, c)
  }

  predicate CentreOf4(o: Point, q: Quad) {
    CentreOf3(o, q.p1, q.p2, q.p3) && Equidistant(o, q.p1, q.p4)
  }

  /** All four points are on one circle, which may be a single point. */
  ghost predicate Concyclic(q: Quad) {
    exists o :: CentreOf4(o, q)
  }

  function Cross(a: Point, b: Point, c: Point): real {
    (b.x - a.x) * (c.y - a.y) - (b.y - a.y) * (c.x - a.x)
  }

  predicate Collinear(a: Point, b: Point, c: Point) {
    Cross(a, b, c) == 0.0
  }

  /** Three different points of one line. */
  predicate InARow(a: Point, b: Point, c: Point) {
    a != b && a != c && b != c && Collinear(a, b, c)
  }

  // --- Linear form of equidistance ----------------------------------------------------------

  /** In coordinates from a, 2 <o, b> = <b, b>. */
  predicate HalfWay(o: Point, a: Point, b: Point) {
    2.0 * Dot(o.x - a.x, o.y - a.y, b.x - a.x, b.y - a.y) == Dot(b.x - a.x, b.y - a.y, b.x - a.x, b.y - a.y)
  }

  lemma EquidistantLinear(o: Point, a: Point, b: Point)
    ensures Equidistant(o, a, b) <==> HalfWay(o, a, b)
  {
    var wx, wy, ux, uy := o.x - a.x, o.y - a.y, b.x - a.x, b.y - a.y;
    assert o.x - b.x == wx - ux && o.y - b.y == wy - uy;
    SquareOfDifference(wx, ux);
    SquareOfDifference(wy, uy);
  }

  // --- Points in a row -------------------------------------------------------------------------

  /** A vector v parallel to u is a multiple of it. */
  lemma Parallel(ux: real, uy: real, vx: real, vy: real) returns (t: real)
    requires ux != 0.0 || uy != 0.0
    requires ux * vy - uy * vx == 0.0
    ensures vx == t * ux && vy == t * uy
  {
    if ux != 0.0 {
      t := vx / ux;
      assert vx == t * ux;
      assert ux * vy == uy * (t * ux);
      assert ux * (vy - t * uy) == 0.0;
    } else {
      t := vy / uy;
      assert vy == t * uy;
      assert uy * vx == 0.0;
    }
  }

  lemma NoCentreOfMultiple(wx: real, wy: real, ux: real, uy: real, t: real)
    requires ux != 0.0 || uy != 0.0
    requires 2.0 * Dot(wx, wy, ux, uy) == Dot(ux, uy, ux, uy)
    requires 2.0 * Dot(wx, wy, t * ux, t * uy) == Dot(t * ux, t * uy, t * ux, t * uy)
    ensures t == 0.0 || t == 1.0
  {
    NormPositive(ux, uy);
    DotScales(wx, wy, ux, uy, t);
    NormScales(ux, uy, t);
    ZeroOrOne(t, Dot(wx, wy, ux, uy), Dot(ux, uy, ux, uy));
  }

  lemma ZeroOrOne(t: real, p: real, n: real)
    requires n > 0.0 && 2.0 * p == n && 2.0 * (t * p) == (t * t) * n
    ensures t == 0.0 || t == 1.0
  {
    assert t * n == t * (2.0 * p) == 2.0 * (t * p);
    Cancel(t, t * t, n);
    assert t * (t - 1.0) == t * t - t;
    ZeroProduct(t, t - 1.0);
  }

  /** No circle meets a line three times. */
  lemma RowHasNoCentre(o: Point, a: Point, b: Point, c: Point)
    requires InARow(a, b, c)
    ensures !CentreOf3(o, a, b, c)
  {
    if CentreOf3(o, a, b, c) {
      EquidistantLinear(o, a, b);
      EquidistantLinear(o, a, c);
      var t := Parallel(b.x - a.x, b.y - a.y, c.x - a.x, c.y - a.y);
      NoCentreOfMultiple(o.x - a.x, o.y - a.y, b.x - a.x, b.y - a.y, t);
    }
  }

  // --- Three points not in a row --------------------------------------------------------------

  /** The circumcentre by Cramer's rule. */
  lemma Circumcentre(ux: real, uy: real, vx: real, vy: real) returns (wx: real, wy: real)
    requires ux * vy - uy * vx != 0.0
    ensures 2.0 * Dot(wx, wy, ux, uy) == Dot(ux, uy, ux, uy)
    ensures 2.0 * Dot(wx, wy, vx, vy) == Dot(vx, vy, vx, vy)
  {
    var d := ux * vy - uy * vx;
    var m, n := (ux * ux + uy * uy) / 2.0, (vx * vx + vy * vy) / 2.0;
    wx, wy := (m * vy - n * uy) / d, (n * ux - m * vx) / d;
    Cramer(m * vy - n * uy, n * ux - m * vx, d, wx, wy, ux, uy);
    Cramer(m * vy - n * uy, n * ux - m * vx, d, wx, wy, vx, vy);
    Determinant(m, n, ux, uy, vx, vy);
    Cancel(wx * ux + wy * uy, m, d);
    Cancel(wx * vx + wy * vy, n, d);
  }

  lemma Determinant(m: real, n: real, ux: real, uy: real, vx: real, vy: real)
    ensures (m * vy - n * uy) * ux + (n * ux - m * vx) * uy == m * (ux * vy - uy * vx)
    ensures (m * vy - n * uy) * vx + (n * ux - m * vx) * vy == n * (ux * vy - uy * vx)
  {
  }

  lemma Cramer(p: real, q: real, d: real, wx: real, wy: real, ux: real, uy: real)
    requires d != 0.0 && wx == p / d && wy == q / d
    ensures (wx * ux + wy * uy) * d == p * ux + q * uy
  {
    assert wx * d == p && wy * d == q;
    assert (wx * ux + wy * uy) * d == (wx * d) * ux + (wy * d) * uy;
  }

  lemma EquidistantAt(a: Point, wx: real, wy: real, b: Point)
    requires 2.0 * Dot(wx, wy, b.x - a.x, b.y - a.y) == Dot(b.x - a.x, b.y - a.y, b.x - a.x, b.y - a.y)
    ensures Equidistant(Point(a.x + wx, a.y + wy), a, b)
  {
    var o := Point(a.x + wx, a.y + wy);
    assert o.x - a.x == wx && o.y - a.y == wy;
    EquidistantLinear(o, a, b);
  }

  lemma CentreOfTriangle(a: Point, b: Point, c: Point) returns (o: Point)
    requires !Collinear(a, b, c)
    ensures CentreOf3(o, a, b, c)
  {
    var wx, wy := Circumcentre(b.x - a.x, b.y - a.y, c.x - a.x, c.y - a.y);
    o := Point(a.x + wx, a.y + wy);
    EquidistantAt(a, wx, wy, b);
    EquidistantAt(a, wx, wy, c);
  }

  /** Three points are on a circle unless they are in a row. */
  lemma CentreUnlessRow(a: Point, b: Point, c: Point) returns (o: Point)
    requires !InARow(a, b, c)
    ensures CentreOf3(o, a, b, c)
  {
    if Collinear(a, b, c) {
      if a == b {
        o := Midpoint(a, c);
      } else {
        o := Midpoint(a, b);
      }
    } else {
      o := CentreOfTriangle(a, b, c);
    }
  }

  lemma Midpoint(a: Point, b: Point) returns (o: Point)
    ensures Equidistant(o, a, b)
  {
    o := Point((a.x + b.x) / 2.0, (a.y + b.y) / 2.0);
    assert o.x - a.x == -(o.x - b.x) && o.y - a.y == -(o.y - b.y);
  }

  // --- Four points, one of them superfluous -------------------------------------------------

  /** The same four points in some order. */
  ghost predicate Covers(q: Quad, a: Point, b: Point, c: Point, d: Point) {
    forall o :: CentreOf4(o, q) <==> CentreOf3(o, a, b, c) && Equidistant(o, a, d)
  }

  lemma RowNotConcyclic(q: Quad, a: Point, b: Point, c: Point, d: Point)
    requires Covers(q, a, b, c, d) && InARow(a, b, c)
    ensures !Concyclic(q)
  {
    forall o ensures !CentreOf4(o, q) {
      RowHasNoCentre(o, a, b, c);
    }
  }

  /** With a point given twice the other three decide. */
  lemma DoubleConcyclic(q: Quad, a: Point, b: Point, c: Point, d: Point)
    requires Covers(q, a, b, c, d) && (d == a || d == b || d == c)
    ensures Concyclic(q) <==> !InARow(a, b, c)
  {
    if InARow(a, b, c) {
      RowNotConcyclic(q, a, b, c, d);
    } else {
      var o := CentreUnlessRow(a, b, c);
      assert CentreOf4(o, q);
    }
  }
}
