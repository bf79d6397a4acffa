/** When the circle program is right, in terms of the points as they are given. */
module CircleInput {
  import opened Sums
  import opened Ieee
  import opened RealFacts
  import opened CircleSolver
  import opened PlaneGeometry
  import opened CircleDecision
  import opened CircleTheorem

  // --- Where the points lie from the first ---------------------------------------------------------------

  function Count(a: bool, b: bool, c: bool): nat {
    (if a then 1 else 0) + (if b then 1 else 0) + (if c then 1 else 0)
  }

  /** How many of the other points are on a vertical with the first. */
  function Verticals(q: Quad): nat {
    Count(q.p2.x == q.p1.x, q.p3.x == q.p1.x, q.p4.x == q.p1.x)
  }

  function Horizontals(q: Quad): nat {
    Count(q.p2.y == q.p1.y, q.p3.y == q.p1.y, q.p4.y == q.p1.y)
  }

  predicate Aligned(q: Quad, p: Point) {
    p.x == q.p1.x || p.y == q.p1.y
  }

  /** The second point is above or below the first, the third beside it, and the fourth opposite. */
  predicate AxisRectangle(q: Quad) {
    q.p2 == Point(q.p1.x, q.p4.y) && q.p3 == Point(q.p4.x, q.p1.y)
  }

  /** The first point is given again; as the second it is noticed only next to one other point of
      the vertical. */
  predicate FoundTwice(q: Quad) {
    q.p1 == q.p3 || q.p1 == q.p4 || (q.p1 == q.p2 && Verticals(q) == 2)
  }

  /** The two points that make the triangle with the first: those aligned with it are left out, or
      else the fourth. None when two are aligned. */
  function Pair(q: Quad): Option<(Point, Point)> {
    if !Aligned(q, q.p2) && !Aligned(q, q.p3) then Some((q.p2, q.p3))
    else if !Aligned(q, q.p3) && !Aligned(q, q.p4) then Some((q.p4, q.p3))
    else if !Aligned(q, q.p2) && !Aligned(q, q.p4) then Some((q.p2, q.p4))
    else None
  }

  /** Of two points aligned with the first and one that is not: the latter sees the others under a
      right angle. */
  predicate SeesRightAngle(q: Quad) {
    if !Aligned(q, q.p2) then Perpendicularly(q.p2, q.p3, q.p4)
    else if !Aligned(q, q.p3) then Perpendicularly(q.p3, q.p2, q.p4)
    else Perpendicularly(q.p4, q.p2, q.p3)
  }

  /** The inputs on which the program answers as it should: rectangles; with two points on a vertical
      with the first, those where a repetition is found and there is no row, or none is found and
      there is one; with two on a horizontal, those with a row; with a right angle at the first point, those
      whose fourth corner does not see it as a right angle too; and otherwise those where the two
      points taken for the triangle are the same and there is a row, or make no line with the first. */
  predicate Right(q: Quad) {
    AxisRectangle(q) ||
    if Verticals(q) >= 2 then FoundTwice(q) != HasRow(q)
    else if Horizontals(q) >= 2 then HasRow(q)
    else
      match Pair(q)
      case None => !SeesRightAngle(q)
      case Some((a, b)) => if a == b then HasRow(q) else !Collinear(q.p1, a, b)
  }

  // --- What data_handler makes of them -------------------------------------------------------------------

  lemma RectangleIff(q: Quad)
    ensures IsRectangle(q) <==> AxisRectangle(q)
  {
  }

  /** The three points after the first, in any order. */
  predicate Permutes(q: Quad, a: Point, b: Point, c: Point) {
    (a, b, c) in {(q.p2, q.p3, q.p4), (q.p2, q.p4, q.p3), (q.p3, q.p2, q.p4),
                  (q.p3, q.p4, q.p2), (q.p4, q.p2, q.p3), (q.p4, q.p3, q.p2)}
  }

  /** The first point stays where it is, and none is lost. */
  lemma HandlePermutes(q: Quad)
    ensures var s := HandleData(q).1; s.p1 == q.p1 && Permutes(q, s.p2, s.p3, s.p4)
  {
  }

  lemma OnVertical(q: Quad)
    requires Verticals(q) >= 2
    ensures HandleData(q).0 == if FoundTwice(q) then SamePoint else OneLine
  {
  }

  lemma OnHorizontal(q: Quad)
    requires Verticals(q) < 2 && Horizontals(q) >= 2
    ensures HandleData(q).0 == OneLine
  {
  }

  /** The fourth place goes to the point that is aligned, and the pair comes second and third. */
  lemma PairComesFirst(q: Quad)
    requires Verticals(q) < 2 && Horizontals(q) < 2 && Pair(q).Some?
    ensures var (v, s) := HandleData(q);
      v == Nothing && s.p1 == q.p1 && (s.p2, s.p3) == Pair(q).value && General(s)
  {
  }

  lemma Symmetric(d: Point, v: Point, h: Point)
    ensures Perpendicularly(d, v, h) <==> Perpendicularly(d, h, v)
  {
  }

  /** Whichever order the points are in, the angle is at the one that is not aligned. */
  lemma AngleAt(q: Quad, d: Point, v: Point, h: Point)
    requires Permutes(q, d, v, h) && !Aligned(q, d) && Aligned(q, v) && Aligned(q, h)
    ensures SeesRightAngle(q) <==> Perpendicularly(d, v, h)
  {
    Symmetric(d, v, h);
  }

  /** With a right angle, the vertical side comes second or third and the horizontal side fourth. */
  lemma CornerComesLast(q: Quad)
    requires Verticals(q) < 2 && Horizontals(q) < 2 && Pair(q).None?
    ensures var (verdict, s) := HandleData(q);
      && verdict == Nothing && s.p1 == q.p1
      && Aligned(q, s.p4) && (s.p2.x == q.p1.x || s.p3.x == q.p1.x)
      && (s.p2.x == q.p1.x ==> Permutes(q, s.p3, s.p2, s.p4) && !Aligned(q, s.p3))
      && (s.p2.x != q.p1.x ==> Permutes(q, s.p2, s.p3, s.p4) && !Aligned(q, s.p2))
  {
  }

  // --- Rows do not depend on the order --------------------------------------------------------------------

  lemma CrossSwapped(a: Point, b: Point, c: Point)
    ensures Cross(a, c, b) == -Cross(a, b, c) && Cross(b, a, c) == -Cross(a, b, c)
  {
  }

  lemma RowSwapped(a: Point, b: Point, c: Point)
    ensures InARow(a, b, c) <==> InARow(a, c, b)
    ensures InARow(a, b, c) <==> InARow(b, a, c)
  {
    CrossSwapped(a, b, c);
  }

  lemma SwapsKeepRows(q: Quad)
    ensures HasRow(Swap24(q)) <==> HasRow(q)
    ensures HasRow(Swap34(q)) <==> HasRow(q)
  {
    RowSwapped(q.p1, q.p2, q.p3);
    RowSwapped(q.p1, q.p2, q.p4);
    RowSwapped(q.p1, q.p3, q.p4);
    RowSwapped(q.p2, q.p3, q.p4);
    RowSwapped(q.p4, q.p3, q.p2);
    RowSwapped(q.p3, q.p2, q.p4);
  }

  lemma HandleKeepsRows(q: Quad)
    ensures HasRow(HandleData(q).1) <==> HasRow(q)
  {
    var r1 := if q.p1.x == q.p2.x then Swap24(q) else q;
    var r2 := HandleX(q);
    var r3 := if r2.p1.y == r2.p2.y then Swap24(r2) else r2;
    SwapsKeepRows(q);
    SwapsKeepRows(r1);
    SwapsKeepRows(r2);
    SwapsKeepRows(r3);
  }

  // --- The theorem on the input ----------------------------------------------------------------------------

  lemma CornerRight(q: Quad)
    requires !AxisRectangle(q) && Verticals(q) < 2 && Horizontals(q) < 2 && Pair(q).None?
    ensures Right(q) <==> RightSorted(q)
  {
    CornerComesLast(q);
    RectangleIff(q);
    var s := HandleData(q).1;
    if s.p2.x == q.p1.x {
      AngleAt(q, s.p3, s.p2, s.p4);
    } else {
      AngleAt(q, s.p2, s.p3, s.p4);
    }
  }

  lemma RightIsSorted(q: Quad)
    ensures Right(q) <==> RightSorted(q)
  {
    RectangleIff(q);
    HandleKeepsRows(q);
    if !AxisRectangle(q) {
      if Verticals(q) >= 2 {
        OnVertical(q);
      } else if Horizontals(q) >= 2 {
        OnHorizontal(q);
      } else if Pair(q).Some? {
        PairComesFirst(q);
      } else {
        CornerRight(q);
      }
    }
  }

  /** The program says yes exactly for points of one circle, if and only if the input is one of
      those described. */
  lemma SolveRightIff(q: Quad)
    ensures (Solve(q) != No <==> Concyclic(q)) <==> Right(q)
  {
    SolveSortedIff(q);
    RightIsSorted(q);
  }

  // --- The answers ---------------------------------------------------------------------------------------

  /** The rectangle's yes is given for rectangles on the axes, and the repetition's where a repetition
      is found on the vertical. */
  lemma SpecialAnswers(q: Quad)
    ensures Solve(q) == YesRectangle <==> AxisRectangle(q)
    ensures Solve(q) == YesSamePoints <==> !AxisRectangle(q) && Verticals(q) >= 2 && FoundTwice(q)
  {
    RectangleIff(q);
    if Verticals(q) >= 2 {
      OnVertical(q);
    } else if Horizontals(q) >= 2 {
      OnHorizontal(q);
    } else if Pair(q).Some? {
      PairComesFirst(q);
    } else {
      CornerComesLast(q);
    }
  }

  /** No is said to two points on the vertical without a repetition that is found, to two on the horizontal, to a
      right angle, to a pair of equal points, and to a triangle whose circle misses the fourth point. */
  lemma NoIff(q: Quad)
    requires !AxisRectangle(q)
    ensures Solve(q) == No <==>
      if Verticals(q) >= 2 then !FoundTwice(q)
      else if Horizontals(q) >= 2 then true
      else match Pair(q)
           case None => true
           case Some((a, b)) => a == b || (!Collinear(q.p1, a, b) && !Concyclic(q))
  {
    RectangleIff(q);
    Rearranged(q);
    var s := HandleData(q).1;
    if Verticals(q) >= 2 {
      OnVertical(q);
    } else if Horizontals(q) >= 2 {
      OnHorizontal(q);
    } else if Pair(q).None? {
      CornerComesLast(q);
      VerticalSideLeft(q);
      DecideVertical(s);
    } else {
      PairComesFirst(q);
      PairAnswer(s);
    }
  }

  lemma PairAnswer(s: Quad)
    requires General(s)
    ensures Decide(s) == No <==> s.p2 == s.p3 || (!Collinear(s.p1, s.p2, s.p3) && !Concyclic(s))
  {
    if s.p2 == s.p3 {
      DecideDouble(s);
    } else if Collinear(s.p1, s.p2, s.p3) {
      DecideRow(s);
    } else {
      DecideTriangle(s);
    }
  }

  /** Which inputs get as far as a printed centre, and how. */
  lemma YesFromPair(q: Quad)
    requires Solve(q).Yes?
    ensures Pair(q).Some?
    ensures var s := HandleData(q).1;
      && (s.p2, s.p3) == Pair(q).value && s.p1 == q.p1 && General(s)
      && Solve(q) == Decide(s) && s.p2 != s.p3
  {
    var s := HandleData(q).1;
    if Verticals(q) >= 2 {
      OnVertical(q);
    } else if Horizontals(q) >= 2 {
      OnHorizontal(q);
    } else if Pair(q).None? {
      CornerComesLast(q);
      VerticalSideLeft(q);
      DecideVertical(s);
    } else {
      PairComesFirst(q);
      if s.p2 == s.p3 {
        DecideDouble(s);
      }
    }
  }

  lemma TriangleCentre(s: Quad, z: Point)
    requires General(s) && !Collinear(s.p1, s.p2, s.p3) && Decide(s).Yes?
    ensures Decide(s).x.Fin? && Decide(s).y.Fin?
    ensures CentreOf4(z, s) <==> z == Point(Decide(s).x.r, Decide(s).y.r)
  {
    DecideTriangle(s);
    var o :| CentreOf4(o, s);
  }

  /** A centre that is printed is one, and the only one; it is infinite exactly when the two points
      taken for the triangle make a line with the first. */
  lemma PrintedCentre(q: Quad, z: Point)
    requires Solve(q).Yes?
    ensures Pair(q).Some? && var (a, b) := Pair(q).value;
      if Collinear(q.p1, a, b) then Solve(q).x.Inf? && Solve(q).y.Inf?
      else
        && Solve(q).x.Fin? && Solve(q).y.Fin?
        && (CentreOf4(z, q) <==> z == Point(Solve(q).x.r, Solve(q).y.r))
  {
    YesFromPair(q);
    var s := HandleData(q).1;
    if Collinear(s.p1, s.p2, s.p3) {
      DecideRow(s);
    } else {
      TriangleCentre(s, z);
      CentresRearranged(q, z);
    }
  }
}
