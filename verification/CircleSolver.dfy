/** The circle program: do four points lie on one circle? */
module CircleSolver {
  import opened Ieee

  datatype Point = Point(x: real, y: real)

  datatype Quad = Quad(p1: Point, p2: Point, p3: Point, p4: Point)

  // --- The geometry routines -----------------------------------------------------------------

  /** Slope and intercept of the line through two points. */
  function FunctionOfLine(x0: Num, y0: Num, x1: Num, y1: Num): (Num, Num) {
    var k := Div(Sub(y1, y0), Sub(x1, x0));
    (k, Sub(y0, Mul(k, x0)))
  }

  /** Slope and intercept of the perpendicular to y = kx + c at the point with abscissa x. */
  function FunctionOfPerpendicularLine(k: Num, c: Num, x: Num): (Num, Num) {
    var inverse := Div(Fin(1.0), k);
    (Neg(inverse), Add(Add(Mul(x, k), c), Mul(x, inverse)))
  }

  function LinearFunctionsIntersection(k0: Num, c0: Num, k1: Num, c1: Num): (Num, Num) {
    var x := Div(Sub(c0, c1), Sub(k1, k0));
    (x, Add(Mul(x, k0), c0))
  }

  function MeanDouble(x0: Num, x1: Num): Num {
    Div(Add(x0, x1), Fin(2.0))
  }

  /** The square of the distance. */
  function SquaredDistance(x0: Num, y0: Num, x1: Num, y1: Num): Num {
    var dx, dy := Sub(x0, x1), Sub(y0, y1);
    Add(Mul(dx, dx), Mul(dy, dy))
  }

  // --- Sorting the input out ------------------------------------------------------------------

  datatype Verdict = Nothing | SamePoint | OneLine

  function Swap24(q: Quad): Quad { Quad(q.p1, q.p4, q.p3, q.p2) }

  function Swap34(q: Quad): Quad { Quad(q.p1, q.p2, q.p4, q.p3) }

  /** The swaps that should keep p2 and p3 off the vertical through p1. */
  function HandleX(q: Quad): Quad {
    var r := if q.p1.x == q.p2.x then Swap24(q) else q;
    if r.p1.x == r.p3.x then Swap34(r) else r
  }

  /** The swaps that should keep p2 and p3 off the horizontal through p1. */
  function HandleY(q: Quad): Quad {
    var r := if q.p1.y == q.p2.y then Swap24(q) else q;
    if r.p1.y == r.p3.y then Swap34(r) else r
  }

  function HandleData(q: Quad): (Verdict, Quad) {
    var r := HandleX(q);
    if r.p1.x == r.p2.x then
      (if r.p1.y == r.p2.y || r.p1.y == r.p4.y then SamePoint else OneLine, r)
    else if r.p1.x == r.p3.x then
      (if r.p1.y == r.p3.y || r.p1.y == r.p4.y then SamePoint else OneLine, r)
    else
      var s := HandleY(r);
      (if s.p1.y == s.p2.y || s.p1.y == s.p3.y then OneLine else Nothing, s)
  }

  /** The test the program calls is_triangle: two sides on verticals, two on horizontals. */
  predicate IsRectangle(q: Quad) {
    q.p1.x == q.p2.x && q.p1.y == q.p3.y && q.p3.x == q.p4.x && q.p2.y == q.p4.y
  }

  // --- The decision ---------------------------------------------------------------------------

  datatype Answer = YesSamePoints | YesRectangle | Yes(x: Num, y: Num) | No

  /** The perpendicular bisector of p and q, as the program computes it. */
  function Bisector(p: Point, q: Point): (Num, Num) {
    var (k, c) := FunctionOfLine(Fin(p.x), Fin(p.y), Fin(q.x), Fin(q.y));
    FunctionOfPerpendicularLine(k, c, MeanDouble(Fin(p.x), Fin(q.x)))
  }

  function Centre(q: Quad): (Num, Num) {
    var (k0, c0) := Bisector(q.p1, q.p2);
    var (k1, c1) := Bisector(q.p1, q.p3);
    LinearFunctionsIntersection(k0, c0, k1, c1)
  }

  /** Is the fourth point as far from the centre as the first? */
  function DecideWith(q: Quad, x: Num, y: Num): Answer {
    var r := SquaredDistance(x, y, Fin(q.p1.x), Fin(q.p1.y));
    var d := SquaredDistance(x, y, Fin(q.p4.x), Fin(q.p4.y));
    if Feq(d, r) then Yes(x, y) else No
  }

  function Decide(q: Quad): Answer {
    var (x, y) := Centre(q);
    DecideWith(q, x, y)
  }

  function Solve(q: Quad): Answer {
    if IsRectangle(q) then YesRectangle
    else
      match HandleData(q)
      case (SamePoint, _) => YesSamePoints
      case (OneLine, _) => No
      case (Nothing, s) => Decide(s)
  }

  /** The points in memory, which data_handler rearranges in place. */
  class PointMemory {
    var p1: Point
    var p2: Point
    var p3: Point
    var p4: Point

    function Model(): Quad
      reads this
    {
      Quad(p1, p2, p3, p4)
    }

    method DataHandler() returns (a0: int)
      modifies this
      ensures Model() == HandleData(old(Model())).1
      ensures a0 == match HandleData(old(Model())).0 case Nothing => 0 case SamePoint => 1 case OneLine => 2
    {
      if p1.x == p2.x {
        p2, p4 := p4, p2;
      }
      if p1.x == p3.x {
        p3, p4 := p4, p3;
      }
      if p1.x == p2.x {
        a0 := if p1.y == p2.y then 1 else if p1.y == p4.y then 1 else 2;
      } else if p1.x == p3.x {
        a0 := if p1.y == p3.y then 1 else if p1.y == p4.y then 1 else 2;
      } else {
        if p1.y == p2.y {
          p2, p4 := p4, p2;
        }
        if p1.y == p3.y {
          p3, p4 := p4, p3;
        }
        a0 := if p1.y == p2.y then 2 else if p1.y == p3.y then 2 else 0;
      }
    }
  }
}
