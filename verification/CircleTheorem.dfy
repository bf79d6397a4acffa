/** When the circle program is right. */
module CircleTheorem {
  import opened Ieee
  import opened RealFacts
  import opened CircleSolver
  import opened PlaneGeometry
  import opened CircleDecision

  // --- Distances and their squares -------------------------------------------------------------------------

  lemma FiniteSquareNonNegative(x: real)
    ensures !IsNegative(Mul(Fin(x), Fin(x)))
  {
    SquareSign(x);
    assert Mul(Fin(x), Fin(x)) == Fin(Times(x, x));
  }

  lemma InfiniteSquareNonNegative(d: Num)
    requires !d.Fin?
    ensures !IsNegative(Mul(d, d))
  {
  }

  lemma SquareNonNegative(d: Num)
    ensures !IsNegative(Mul(d, d))
  {
    if d.Fin? {
      FiniteSquareNonNegative(d.r);
    } else {
      InfiniteSquareNonNegative(d);
    }
  }

  lemma SumNonNegative(a: Num, b: Num)
    requires !IsNegative(a) && !IsNegative(b)
    ensures !IsNegative(Add(a, b))
  {
  }

  /** A squared distance is never negative. */
  lemma SquaredDistanceSign(x: Num, y: Num, p: Point)
    ensures !IsNegative(SquaredDistance(x, y, Fin(p.x), Fin(p.y)))
  {
    var dx, dy := Sub(x, Fin(p.x)), Sub(y, Fin(p.y));
    SquareNonNegative(dx);
    SquareNonNegative(dy);
    SumNonNegative(Mul(dx, dx), Mul(dy, dy));
  }

  lemma RootsCompareAsSquares(r: Num, s: Num, a: Num, b: Num)
    requires IsRoot(r, a) && IsRoot(s, b)
    requires !IsNegative(a) && !IsNegative(b)
    ensures Feq(r, s) <==> Feq(a, b)
  {
    if a.Fin? && b.Fin? {
      RootsCompare(r.r, s.r);
    }
  }

  /** r is what the program has for the distance of (x, y) and p. */
  predicate IsDistance(r: Num, x: Num, y: Num, p: Point) {
    IsRoot(r, SquaredDistance(x, y, Fin(p.x), Fin(p.y)))
  }

  /** The program takes roots before it compares; the decision is the same. */
  lemma DecideByDistances(q: Quad, x: Num, y: Num, radius: Num, distance: Num)
    requires IsDistance(radius, x, y, q.p1) && IsDistance(distance, x, y, q.p4)
    ensures DecideWith(q, x, y) == if Feq(distance, radius) then Yes(x, y) else No
  {
    SquaredDistanceSign(x, y, q.p1);
    SquaredDistanceSign(x, y, q.p4);
    RootsCompareAsSquares(distance, radius, SquaredDistance(x, y, Fin(q.p4.x), Fin(q.p4.y)),
                          SquaredDistance(x, y, Fin(q.p1.x), Fin(q.p1.y)));
  }

  // --- A vertical side -----------------------------------------------------------------------

  lemma NoIntersection(k0: Num, c0: Num, k1: Num, c1: Num)
    requires c0 == NaN || c1 == NaN
    ensures LinearFunctionsIntersection(k0, c0, k1, c1).0 == NaN
  {
  }

  lemma NoDistance(y: Num, p: Point)
    ensures SquaredDistance(NaN, y, Fin(p.x), Fin(p.y)) == NaN
  {
  }

  /** One vertical side and the answer is no, whatever the points. */
  lemma DecideVertical(q: Quad)
    requires (q.p1.x == q.p2.x && q.p1.y != q.p2.y) || (q.p1.x == q.p3.x && q.p1.y != q.p3.y)
    ensures Decide(q) == No
  {
    if q.p1.x == q.p2.x && q.p1.y != q.p2.y {
      BisectorVertical(q.p1, q.p2);
    } else {
      BisectorVertical(q.p1, q.p3);
    }
    var (k0, c0) := Bisector(q.p1, q.p2);
    var (k1, c1) := Bisector(q.p1, q.p3);
    NoIntersection(k0, c0, k1, c1);
    NoDistance(Centre(q).1, q.p1);
  }

  // --- One slanted line ------------------------------------------------------------------------

  lemma ParallelIntersection(k: real, c0: real, c1: real)
    requires k != 0.0
    ensures var (x, y) := LinearFunctionsIntersection(Fin(k), Fin(c0), Fin(k), Fin(c1));
      if c0 == c1 then x == NaN else x.Inf? && y.Inf?
  {
    assert Sub(Fin(k), Fin(k)) == Fin(0.0);
    assert Sub(Fin(c0), Fin(c1)) == Fin(c0 - c1);
  }

  lemma InfiniteDistance(x: Num, y: Num, p: Point)
    requires x.Inf? && y.Inf?
    ensures SquaredDistance(x, y, Fin(p.x), Fin(p.y)) == Inf(false)
  {
  }

  /** Three different points of a slanted line and the answer is yes, whatever the fourth: the
      centre is infinite, and so are both distances. */
  lemma DecideRow(q: Quad)
    requires General(q) && Collinear(q.p1, q.p2, q.p3) && q.p2 != q.p3
    ensures Decide(q).Yes? && Decide(q).x.Inf? && Decide(q).y.Inf?
  {
    BisectorFinite(q.p1, q.p2);
    BisectorFinite(q.p1, q.p3);
    BisectorsParallelIff(q.p1, q.p2, q.p3);
    ParallelBisectorsDiffer(q.p1, q.p2, q.p3);
    ParallelIntersection(BisectorLine(q.p1, q.p2).0, BisectorLine(q.p1, q.p2).1, BisectorLine(q.p1, q.p3).1);
    var (x, y) := Centre(q);
    InfiniteDistance(x, y, q.p1);
    InfiniteDistance(x, y, q.p4);
  }

  /** The second point given again as the third and the answer is no. */
  lemma DecideDouble(q: Quad)
    requires General(q) && q.p2 == q.p3
    ensures Decide(q) == No
  {
    BisectorFinite(q.p1, q.p2);
    SlopeTimes(q.p1, q.p2);
    var (k, c) := BisectorLine(q.p1, q.p2);
    assert Sub(Fin(c), Fin(c)) == Fin(0.0) && Sub(Fin(k), Fin(k)) == Fin(0.0);
    NoDistance(Centre(q).1, q.p1);
  }

  // --- A triangle in general position ---------------------------------------------------------

  function CrossingX(k0: real, c0: real, k1: real, c1: real): real
    requires k0 != k1
  {
    (c0 - c1) / (k1 - k0)
  }

  function LineAt(x: real, k: real, c: real): real {
    x * k + c
  }

  function Crossing(k0: real, c0: real, k1: real, c1: real): Point
    requires k0 != k1
  {
    Point(CrossingX(k0, c0, k1, c1), LineAt(CrossingX(k0, c0, k1, c1), k0, c0))
  }

  lemma LineAtFinite(x: real, k: real, c: real)
    ensures Add(Mul(Fin(x), Fin(k)), Fin(c)) == Fin(LineAt(x, k, c))
  {
  }

  lemma CrossingFinite(k0: real, c0: real, k1: real, c1: real)
    requires k0 != k1
    ensures var o := Crossing(k0, c0, k1, c1);
      LinearFunctionsIntersection(Fin(k0), Fin(c0), Fin(k1), Fin(c1)) == (Fin(o.x), Fin(o.y))
  {
    assert Sub(Fin(c0), Fin(c1)) == Fin(c0 - c1);
    assert Sub(Fin(k1), Fin(k0)) == Fin(k1 - k0);
    assert Div(Fin(c0 - c1), Fin(k1 - k0)) == Fin(CrossingX(k0, c0, k1, c1));
    LineAtFinite(CrossingX(k0, c0, k1, c1), k0, c0);
  }

  /** The crossing is the one point on both lines. */
  lemma CrossingIff(o: Point, k0: real, c0: real, k1: real, c1: real)
    requires k0 != k1
    ensures o == Crossing(k0, c0, k1, c1) <==> OnLine(o, k0, c0) && OnLine(o, k1, c1)
  {
    var d := k1 - k0;
    var x := (c0 - c1) / d;
    assert x * d == c0 - c1;
    assert x * d == k1 * x - k0 * x;
    if OnLine(o, k0, c0) && OnLine(o, k1, c1) {
      assert o.x * d == k1 * o.x - k0 * o.x;
      Cancel(o.x, x, d);
    }
  }

  lemma DistanceFinite(o: Point, p: Point)
    ensures SquaredDistance(Fin(o.x), Fin(o.y), Fin(p.x), Fin(p.y)) == Fin(Dist2(o, p))
  {
    assert Sub(Fin(o.x), Fin(p.x)) == Fin(o.x - p.x);
    assert Sub(Fin(o.y), Fin(p.y)) == Fin(o.y - p.y);
  }

  /** The centre as the program computes it, over the reals. */
  function ComputedCentre(q: Quad): Point
    requires General(q) && !Collinear(q.p1, q.p2, q.p3)
  {
    BisectorsParallelIff(q.p1, q.p2, q.p3);
    Crossing(BisectorLine(q.p1, q.p2).0, BisectorLine(q.p1, q.p2).1,
             BisectorLine(q.p1, q.p3).0, BisectorLine(q.p1, q.p3).1)
  }

  lemma CentreFinite(q: Quad)
    requires General(q) && !Collinear(q.p1, q.p2, q.p3)
    ensures Centre(q) == (Fin(ComputedCentre(q).x), Fin(ComputedCentre(q).y))
  {
    BisectorFinite(q.p1, q.p2);
    BisectorFinite(q.p1, q.p3);
    BisectorsParallelIff(q.p1, q.p2, q.p3);
    CrossingFinite(BisectorLine(q.p1, q.p2).0, BisectorLine(q.p1, q.p2).1,
                   BisectorLine(q.p1, q.p3).0, BisectorLine(q.p1, q.p3).1);
  }

  /** The computed centre is the one point equidistant from the first three. */
  lemma CentreExact(q: Quad, z: Point)
    requires General(q) && !Collinear(q.p1, q.p2, q.p3)
    ensures CentreOf3(z, q.p1, q.p2, q.p3) <==> z == ComputedCentre(q)
  {
    BisectorsParallelIff(q.p1, q.p2, q.p3);
    CrossingIff(z, BisectorLine(q.p1, q.p2).0, BisectorLine(q.p1, q.p2).1,
                BisectorLine(q.p1, q.p3).0, BisectorLine(q.p1, q.p3).1);
    BisectorIsExact(z, q.p1, q.p2);
    BisectorIsExact(z, q.p1, q.p3);
  }

  lemma DecideAt(q: Quad, o: Point)
    ensures DecideWith(q, Fin(o.x), Fin(o.y)) == if Equidistant(o, q.p1, q.p4) then Yes(Fin(o.x), Fin(o.y)) else No
  {
    DistanceFinite(o, q.p1);
    DistanceFinite(o, q.p4);
  }

  /** In general position the decision is exact, and a yes comes with the one centre. */
  lemma DecideTriangle(q: Quad)
    requires General(q) && !Collinear(q.p1, q.p2, q.p3)
    ensures var o := ComputedCentre(q);
      Decide(q) == if Concyclic(q) then Yes(Fin(o.x), Fin(o.y)) else No
    ensures forall z :: CentreOf4(z, q) ==> z == ComputedCentre(q)
  {
    var o := ComputedCentre(q);
    CentreFinite(q);
    DecideAt(q, o);
    CentreExact(q, o);
    forall z | CentreOf4(z, q) ensures z == o {
      CentreExact(q, z);
    }
    assert Equidistant(o, q.p1, q.p4) ==> CentreOf4(o, q);
  }

  // --- Rows and doubles among four points -----------------------------------------------------

  /** Some three of the four points are different and on one line. */
  predicate HasRow(q: Quad) {
    || InARow(q.p1, q.p2, q.p3)
    || InARow(q.p1, q.p2, q.p4)
    || InARow(q.p1, q.p3, q.p4)
    || InARow(q.p2, q.p3, q.p4)
  }

  predicate HasDouble(q: Quad) {
    q.p1 == q.p2 || q.p1 == q.p3 || q.p1 == q.p4 || q.p2 == q.p3 || q.p2 == q.p4 || q.p3 == q.p4
  }

  lemma HasRowNotConcyclic(q: Quad)
    requires HasRow(q)
    ensures !Concyclic(q)
  {
    if InARow(q.p1, q.p2, q.p3) {
      RowNotConcyclic(q, q.p1, q.p2, q.p3, q.p4);
    } else if InARow(q.p1, q.p2, q.p4) {
      RowNotConcyclic(q, q.p1, q.p2, q.p4, q.p3);
    } else if InARow(q.p1, q.p3, q.p4) {
      RowNotConcyclic(q, q.p1, q.p3, q.p4, q.p2);
    } else {
      RowNotConcyclic(q, q.p2, q.p3, q.p4, q.p1);
    }
  }

  /** With a point given twice, a circle exists unless there is a row. */
  lemma DoubleConcyclicIff(q: Quad)
    requires HasDouble(q)
    ensures Concyclic(q) <==> !HasRow(q)
  {
    if HasRow(q) {
      HasRowNotConcyclic(q);
    } else if q.p1 == q.p4 || q.p2 == q.p4 || q.p3 == q.p4 {
      DoubleConcyclic(q, q.p1, q.p2, q.p3, q.p4);
    } else if q.p1 == q.p3 || q.p2 == q.p3 {
      DoubleConcyclic(q, q.p1, q.p2, q.p4, q.p3);
    } else {
      DoubleConcyclic(q, q.p1, q.p3, q.p4, q.p2);
    }
  }

  // --- A right angle at the first point ---------------------------------------------------------

  /** d sees v and h under a right angle. */
  predicate Perpendicularly(d: Point, v: Point, h: Point) {
    Dot(d.x - v.x, d.y - v.y, d.x - h.x, d.y - h.y) == 0.0
  }

  lemma RightAngleCentre(o: Point, a: Point, v: Point, h: Point)
    requires v.x == a.x && v.y != a.y && h.y == a.y && h.x != a.x
    ensures CentreOf3(o, a, v, h) <==> o == Point((a.x + h.x) / 2.0, (a.y + v.y) / 2.0)
  {
    EquidistantLinear(o, a, v);
    EquidistantLinear(o, a, h);
    var s, t := v.y - a.y, h.x - a.x;
    assert Dist2(v, a) == s * s && Dist2(h, a) == t * t;
    HalfIff(o.y - a.y, s);
    HalfIff(o.x - a.x, t);
  }

  lemma HalfIff(w: real, s: real)
    requires s != 0.0
    ensures 2.0 * (w * s) == s * s <==> w == s / 2.0
  {
    assert 2.0 * (w * s) == (2.0 * w) * s;
    if (2.0 * w) * s == s * s {
      Cancel(2.0 * w, s, s);
    }
  }

  lemma ThalesIff(a: Point, v: Point, h: Point, d: Point)
    requires v.x == a.x && h.y == a.y
    ensures Equidistant(Point((a.x + h.x) / 2.0, (a.y + v.y) / 2.0), a, d) <==> Perpendicularly(d, v, h)
  {
    var o := Point((a.x + h.x) / 2.0, (a.y + v.y) / 2.0);
    EquidistantLinear(o, a, d);
    Thales(d.x - a.x, d.y - a.y, h.x - a.x, v.y - a.y);
    assert 2.0 * ((o.x - a.x) * (d.x - a.x) + (o.y - a.y) * (d.y - a.y))
        == (h.x - a.x) * (d.x - a.x) + (v.y - a.y) * (d.y - a.y);
  }

  lemma Thales(x: real, y: real, t: real, s: real)
    ensures t * x + s * y == x * x + y * y <==> Dot(x, y - s, x - t, y) == 0.0
  {
    assert Dot(x, y - s, x - t, y) == x * x - t * x + y * y - s * y;
  }

  /** The circle through the legs' ends and the corner has the hypotenuse as its diameter. */
  lemma RightAngleConcyclic(q: Quad, v: Point, d: Point)
    requires (v, d) == (q.p2, q.p3) || (v, d) == (q.p3, q.p2)
    requires v.x == q.p1.x && v.y != q.p1.y && q.p4.y == q.p1.y && q.p4.x != q.p1.x
    ensures Concyclic(q) <==> Perpendicularly(d, v, q.p4)
  {
    var o := Point((q.p1.x + q.p4.x) / 2.0, (q.p1.y + v.y) / 2.0);
    forall z ensures CentreOf4(z, q) <==> z == o && Equidistant(o, q.p1, d) {
      RightAngleCentre(z, q.p1, v, q.p4);
    }
    ThalesIff(q.p1, v, q.p4, d);
    assert Equidistant(o, q.p1, d) ==> CentreOf4(o, q);
  }

  // --- The whole program -----------------------------------------------------------------------

  lemma CentresRearranged(q: Quad, o: Point)
    ensures CentreOf4(o, q) <==> CentreOf4(o, HandleData(q).1)
  {
  }

  lemma Rearranged(q: Quad)
    ensures Concyclic(q) <==> Concyclic(HandleData(q).1)
  {
    var s := HandleData(q).1;
    forall o ensures CentreOf4(o, q) <==> CentreOf4(o, s) {
    }
    if Concyclic(q) {
      var o :| CentreOf4(o, q);
      assert CentreOf4(o, s);
    }
    if Concyclic(s) {
      var o :| CentreOf4(o, s);
      assert CentreOf4(o, q);
    }
  }

  lemma RectangleConcyclic(q: Quad)
    requires IsRectangle(q)
    ensures Concyclic(q)
  {
    var o := Point((q.p1.x + q.p4.x) / 2.0, (q.p1.y + q.p4.y) / 2.0);
    assert o.x - q.p1.x == -(o.x - q.p4.x) && o.y - q.p1.y == -(o.y - q.p4.y);
    assert CentreOf4(o, q);
  }

  lemma SamePointMeansDouble(q: Quad)
    requires HandleData(q).0 == SamePoint
    ensures HasDouble(HandleData(q).1)
  {
  }

  /** "One line" means three points with a coordinate in common; they may coincide, though. */
  lemma OneLineMeansRowOrDouble(q: Quad)
    requires HandleData(q).0 == OneLine
    ensures var s := HandleData(q).1; HasRow(s) || HasDouble(s)
  {
    var s := HandleData(q).1;
    if s.p1.x == s.p4.x && (s.p1.x == s.p2.x || s.p1.x == s.p3.x) {
      VerticalRow(s);
    } else {
      assert s.p1.y == s.p4.y && (s.p1.y == s.p2.y || s.p1.y == s.p3.y);
      HorizontalRow(s);
    }
  }

  lemma VerticalRow(s: Quad)
    requires s.p1.x == s.p4.x && (s.p1.x == s.p2.x || s.p1.x == s.p3.x)
    ensures HasRow(s) || HasDouble(s)
  {
    assert s.p1.x == s.p2.x ==> Collinear(s.p1, s.p2, s.p4);
    assert s.p1.x == s.p3.x ==> Collinear(s.p1, s.p3, s.p4);
  }

  lemma HorizontalRow(s: Quad)
    requires s.p1.y == s.p4.y && (s.p1.y == s.p2.y || s.p1.y == s.p3.y)
    ensures HasRow(s) || HasDouble(s)
  {
    assert s.p1.y == s.p2.y ==> Collinear(s.p1, s.p2, s.p4);
    assert s.p1.y == s.p3.y ==> Collinear(s.p1, s.p3, s.p4);
  }

  /** When the swaps leave a vertical side, the fourth point makes a right angle with it. */
  lemma VerticalSideLeft(q: Quad)
    requires HandleData(q).0 == Nothing
    ensures var s := HandleData(q).1;
      && s.p1.y != s.p2.y && s.p1.y != s.p3.y
      && (s.p1.x == s.p2.x || s.p1.x == s.p3.x ==> s.p4.y == s.p1.y && s.p4.x != s.p1.x)
  {
  }

  /** The inputs on which the program answers as it should, in terms of the rearranged points: when
      two are taken for the same, the rest must not be three in a row; when three are taken for a
      line, there must be a row; when a vertical side is left, the point off the right angle must
      not see its legs' ends under a right angle; when the second and third point coincide, there
      must be a row; and otherwise the first three must be no line. */
  predicate RightSorted(q: Quad) {
    IsRectangle(q) ||
    match HandleData(q)
    case (SamePoint, s) => !HasRow(s)
    case (OneLine, s) => HasRow(s)
    case (Nothing, s) =>
      if s.p1.x == s.p2.x then !Perpendicularly(s.p3, s.p2, s.p4)
      else if s.p1.x == s.p3.x then !Perpendicularly(s.p2, s.p3, s.p4)
      else if s.p2 == s.p3 then HasRow(s)
      else !Collinear(s.p1, s.p2, s.p3)
  }

  /** What the final computation answers on points that need no special treatment. */
  lemma NothingRightIff(q: Quad)
    requires HandleData(q).0 == Nothing && !IsRectangle(q)
    ensures (Decide(HandleData(q).1) != No <==> Concyclic(HandleData(q).1)) <==> RightSorted(q)
  {
    var s := HandleData(q).1;
    VerticalSideLeft(q);
    if s.p1.x == s.p2.x {
      DecideVertical(s);
      RightAngleConcyclic(s, s.p2, s.p3);
    } else if s.p1.x == s.p3.x {
      DecideVertical(s);
      RightAngleConcyclic(s, s.p3, s.p2);
    } else if s.p2 == s.p3 {
      DecideDouble(s);
      DoubleConcyclicIff(s);
    } else if Collinear(s.p1, s.p2, s.p3) {
      DecideRow(s);
      HasRowNotConcyclic(s);
    } else {
      DecideTriangle(s);
    }
  }

  /** The program says yes exactly for points of one circle, if and only if the input is one
      of those described above. */
  lemma SolveSortedIff(q: Quad)
    ensures (Solve(q) != No <==> Concyclic(q)) <==> RightSorted(q)
  {
    Rearranged(q);
    if IsRectangle(q) {
      RectangleConcyclic(q);
    } else {
      match HandleData(q)
      case (SamePoint, s) =>
        SamePointMeansDouble(q);
        DoubleConcyclicIff(s);
      case (OneLine, s) =>
        OneLineMeansRowOrDouble(q);
        if HasRow(s) {
          HasRowNotConcyclic(s);
        } else {
          DoubleConcyclicIff(s);
        }
      case (Nothing, s) => NothingRightIff(q);
    }
  }

  /** Three points of a slanted line that need no rearranging: the answer is yes, and wrong. */
  lemma SlantedRowAccepted(q: Quad)
    requires !IsRectangle(q) && HandleData(q) == (Nothing, q)
    requires General(q) && InARow(q.p1, q.p2, q.p3)
    ensures Solve(q) != No && !Concyclic(q)
  {
    DecideRow(q);
    HasRowNotConcyclic(q);
  }

  /** Such an input. */
  lemma SlantedLineAccepted(q: Quad)
    requires q == Quad(Point(0.0, 0.0), Point(1.0, 1.0), Point(2.0, 2.0), Point(5.0, 7.0))
    ensures Solve(q) != No && !Concyclic(q)
  {
    SlantedRowAccepted(q);
  }

  /** The corners of a square in the order of walking round it: the answer is no. */
  lemma SquareRejected()
    ensures var q := Quad(Point(0.0, 0.0), Point(1.0, 0.0), Point(1.0, 1.0), Point(0.0, 1.0));
      Solve(q) == No && Concyclic(q)
  {
    var q := Quad(Point(0.0, 0.0), Point(1.0, 0.0), Point(1.0, 1.0), Point(0.0, 1.0));
    assert CentreOf4(Point(0.5, 0.5), q);
    var s := HandleData(q).1;
    assert s == Quad(Point(0.0, 0.0), Point(0.0, 1.0), Point(1.0, 1.0), Point(1.0, 0.0));
    DecideVertical(s);
  }
}
