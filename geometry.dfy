// The geometry primitives of geometry.py: the orientation test, the
// closed-form line intersection, bounding boxes and the segment test.
// The floating-point helpers built on math.hypot, math.atan2 and sin/cos
// are parameters (a Trig value); everything around them is exact.

module Geometry {
  import opened Common

  /** Collinearity tolerance of are_points_in_line. */
  const EPSILON: real := 0.05
  /** Screen size, from main.py. */
  const SCREEN_W: real := 1000.0
  const SCREEN_H: real := 1000.0

  /**
   * The floating-point primitives, left uninterpreted:
   * distance(p, q) is math.hypot of q - p, angle(p, q) is calculate_angle
   * (minus atan2 of the difference, in degrees) and vector(angle, scalar) is
   * calculate_vector_2d (scalar times sin and cos of the angle).
   */
  datatype Trig = Trig(
    distance: (Point, Point) -> real,
    angle: (Point, Point) -> real,
    vector: (real, real) -> Point)

  /** The point p + t (q - p) of the line through p and q. */
  function Along(p: Point, q: Point, t: real): Point {
    Point(p.x + t * (q.x - p.x), p.y + t * (q.y - p.y))
  }

  /** p moved by the vector v. */
  function Shift(p: Point, v: Point): Point {
    Point(p.x + v.x, p.y + v.y)
  }

  /**
   * geometry.move_along_vector: a target, when given, decides the angle;
   * with neither a target nor an angle it raises ValueError.
   */
  function MoveAlongVector(trig: Trig, start: Point, velocity: real, target: Option<Point>, angle: Option<real>): (r: Result<Point>)
    ensures r.Err? <==> target.None? && angle.None?
    ensures r.Err? ==> r.error == ValueError
  {
    if target.Some? then Ok(Shift(start, trig.vector(trig.angle(start, target.value), velocity)))
    else if angle.None? then Err(ValueError)
    else Ok(Shift(start, trig.vector(angle.value, velocity)))
  }

  /** A target overrides any angle passed with it: moving toward it is moving at its angle. */
  lemma TargetOverridesAngle(trig: Trig, start: Point, velocity: real, target: Point, angle: Option<real>)
    ensures MoveAlongVector(trig, start, velocity, Some(target), angle)
         == MoveAlongVector(trig, start, velocity, None, Some(trig.angle(start, target)))
  {
  }

  // -----------------------------------------------------------------------
  // Orientation
  // -----------------------------------------------------------------------

  /** The value `val` computed by ccw for the triple (a, b, c). */
  function Cross(a: Point, b: Point, c: Point): real {
    (b.y - a.y) * (c.x - b.x) - (b.x - a.x) * (c.y - b.y)
  }

  /** geometry.ccw: strictly positive `val`. */
  predicate Ccw(a: Point, b: Point, c: Point) {
    Cross(a, b, c) > 0.0
  }

  /** The textbook signed doubled area of triangle (a, b, c). */
  function SignedArea(a: Point, b: Point, c: Point): real {
    (b.x - a.x) * (c.y - a.y) - (b.y - a.y) * (c.x - a.x)
  }

  /** ccw holds exactly for the triples of negative signed area (clockwise with y pointing up). */
  lemma CcwIsNegativeArea(a: Point, b: Point, c: Point)
    ensures Cross(a, b, c) == -SignedArea(a, b, c)
    ensures Ccw(a, b, c) <==> SignedArea(a, b, c) < 0.0
  {
    var ux, uy, vx, vy := b.x - a.x, b.y - a.y, c.x - a.x, c.y - a.y;
    assert c.x - b.x == vx - ux && c.y - b.y == vy - uy;
    assert Cross(a, b, c) == uy * (vx - ux) - ux * (vy - uy);
    assert uy * (vx - ux) - ux * (vy - uy) == uy * vx - ux * vy;
  }

  /** Rotating the triple cyclically does not change the test. */
  lemma CcwRotation(a: Point, b: Point, c: Point)
    ensures Cross(a, b, c) == Cross(b, c, a)
    ensures Ccw(a, b, c) <==> Ccw(b, c, a)
  {
    CcwIsNegativeArea(a, b, c);
    CcwIsNegativeArea(b, c, a);
    var ux, uy, vx, vy := b.x - a.x, b.y - a.y, c.x - a.x, c.y - a.y;
    assert SignedArea(a, b, c) == ux * vy - uy * vx;
    assert SignedArea(b, c, a) == (vx - ux) * (-uy) - (vy - uy) * (-ux);
  }

  /** Swapping the last two points negates `val`: a non-collinear triple flips. */
  lemma CcwSwap(a: Point, b: Point, c: Point)
    ensures Cross(a, c, b) == -Cross(a, b, c)
    ensures Cross(a, b, c) != 0.0 ==> (Ccw(a, c, b) <==> !Ccw(a, b, c))
  {
    CcwIsNegativeArea(a, b, c);
    CcwIsNegativeArea(a, c, b);
    assert SignedArea(a, c, b) == (c.x - a.x) * (b.y - a.y) - (c.y - a.y) * (b.x - a.x);
  }

  /** A point on the line through a and b (its parameter is t) is never ccw. */
  lemma CollinearIsNotCcw(a: Point, b: Point, t: real)
    ensures Cross(a, b, Along(a, b, t)) == 0.0
    ensures !Ccw(a, b, Along(a, b, t))
  {
    var c := Along(a, b, t);
    CcwIsNegativeArea(a, b, c);
    assert SignedArea(a, b, c) == (b.x - a.x) * (t * (b.y - a.y)) - (b.y - a.y) * (t * (b.x - a.x));
  }

  /** `val` is affine in its third point. */
  lemma CrossAffine(c: Point, d: Point, a: Point, b: Point, t: real)
    ensures Cross(c, d, Along(a, b, t))
         == Cross(c, d, a) + t * (Cross(c, d, b) - Cross(c, d, a))
  {
    var p := Along(a, b, t);
    var ex, ey := d.x - c.x, d.y - c.y;
    assert Cross(c, d, p) == ey * (p.x - d.x) - ex * (p.y - d.y);
    assert Cross(c, d, b) - Cross(c, d, a) == ey * (b.x - a.x) - ex * (b.y - a.y);
    assert ey * (p.x - d.x) == ey * (a.x - d.x) + ey * (t * (b.x - a.x));
    assert ex * (p.y - d.y) == ex * (a.y - d.y) + ex * (t * (b.y - a.y));
    assert t * (ey * (b.x - a.x) - ex * (b.y - a.y)) == ey * (t * (b.x - a.x)) - ex * (t * (b.y - a.y));
  }

  // -----------------------------------------------------------------------
  // Line intersection
  // -----------------------------------------------------------------------

  /** r lies on the line through p and q (a zero cross product). */
  predicate OnLine(p: Point, q: Point, r: Point) {
    (r.x - p.x) * (q.y - p.y) == (r.y - p.y) * (q.x - p.x)
  }

  /** The divisor x_1 * x_3 - x_5 * x_4 of get_intersection. */
  function Denominator(p1: Point, p2: Point, p3: Point, p4: Point): real {
    (p4.y - p3.y) * (p2.x - p1.x) - (p4.x - p3.x) * (p2.y - p1.y)
  }

  /** The parameter s of get_intersection along p1 -> p2. */
  function IntersectionParameter(p1: Point, p2: Point, p3: Point, p4: Point): real
    requires Denominator(p1, p2, p3, p4) != 0.0
  {
    ((p4.x - p3.x) * (p1.y - p3.y) - (p4.y - p3.y) * (p1.x - p3.x)) / Denominator(p1, p2, p3, p4)
  }

  /**
   * geometry.get_intersection (and its copy Light.get_intersection in
   * lighting.py): p1 + s * (p2 - p1); a zero divisor raises ZeroDivisionError.
   */
  function Intersection(p1: Point, p2: Point, p3: Point, p4: Point): (r: Result<Point>)
    ensures r.Err? <==> Denominator(p1, p2, p3, p4) == 0.0
    ensures r.Err? ==> r.error == ZeroDivisionError
    ensures r.Ok? ==> OnLine(p1, p2, r.value) && OnLine(p3, p4, r.value)
  {
    if Denominator(p1, p2, p3, p4) == 0.0 then Err(ZeroDivisionError)
    else
      IntersectionOnBothLines(p1, p2, p3, p4);
      Ok(Along(p1, p2, IntersectionParameter(p1, p2, p3, p4)))
  }

  lemma IntersectionOnBothLines(p1: Point, p2: Point, p3: Point, p4: Point)
    requires Denominator(p1, p2, p3, p4) != 0.0
    ensures var r := Along(p1, p2, IntersectionParameter(p1, p2, p3, p4));
            OnLine(p1, p2, r) && OnLine(p3, p4, r)
  {
    var s := IntersectionParameter(p1, p2, p3, p4);
    var x0, x1, x2 := p1.y - p3.y, p4.y - p3.y, p1.x - p3.x;
    var x3, x4, x5 := p2.x - p1.x, p2.y - p1.y, p4.x - p3.x;
    var den := x1 * x3 - x5 * x4;
    assert den == Denominator(p1, p2, p3, p4);
    assert s * den == x5 * x0 - x1 * x2;
    var r := Point(p1.x + s * x3, p1.y + s * x4);
    assert (r.x - p1.x) * x4 == (s * x3) * x4 == (s * x4) * x3 == (r.y - p1.y) * x3;
    assert (r.x - p3.x) * x1 - (r.y - p3.y) * x5 == (x2 + s * x3) * x1 - (x0 + s * x4) * x5;
    assert (x2 + s * x3) * x1 - (x0 + s * x4) * x5 == x2 * x1 - x0 * x5 + s * den;
  }

  /** Two non-parallel lines meet in one point only. */
  lemma LinesMeetOnce(p1: Point, p2: Point, p3: Point, p4: Point, q: Point, r: Point)
    requires Denominator(p1, p2, p3, p4) != 0.0
    requires OnLine(p1, p2, q) && OnLine(p3, p4, q)
    requires OnLine(p1, p2, r) && OnLine(p3, p4, r)
    ensures q == r
  {
    var ux, uy := q.x - r.x, q.y - r.y;
    var ax, ay := p2.x - p1.x, p2.y - p1.y;
    var ex, ey := p4.x - p3.x, p4.y - p3.y;
    var den := ey * ax - ex * ay;
    assert (q.x - p1.x) * ay - (q.y - p1.y) * ax == 0.0;
    assert (r.x - p1.x) * ay - (r.y - p1.y) * ax == 0.0;
    assert ux * ay - uy * ax == 0.0;
    assert (q.x - p3.x) * ey - (q.y - p3.y) * ex == 0.0;
    assert (r.x - p3.x) * ey - (r.y - p3.y) * ex == 0.0;
    assert ux * ey - uy * ex == 0.0;
    assert ux * den == 0.0 by {
      assert (ux * ay - uy * ax) * ex == 0.0;
      assert (ux * ey - uy * ex) * ax == 0.0;
      assert ux * den == (ux * ey - uy * ex) * ax - (ux * ay - uy * ax) * ex;
    }
    assert uy * den == 0.0 by {
      assert (ux * ay - uy * ax) * ey == 0.0;
      assert (ux * ey - uy * ex) * ay == 0.0;
      assert uy * den == (ux * ey - uy * ex) * ay - (ux * ay - uy * ax) * ey;
    }
  }

  /** get_intersection's result is the one point common to both lines. */
  lemma IntersectionIsUnique(p1: Point, p2: Point, p3: Point, p4: Point, q: Point)
    requires OnLine(p1, p2, q) && OnLine(p3, p4, q)
    ensures Denominator(p1, p2, p3, p4) != 0.0 ==> Intersection(p1, p2, p3, p4) == Ok(q)
  {
    if Denominator(p1, p2, p3, p4) != 0.0 {
      LinesMeetOnce(p1, p2, p3, p4, q, Intersection(p1, p2, p3, p4).value);
    }
  }

  // -----------------------------------------------------------------------
  // Bounding boxes
  // -----------------------------------------------------------------------

  /** A box [(min x, min y), (max x, max y)]. */
  datatype Box = Box(lo: Point, hi: Point)

  predicate InBox(b: Box, p: Point) {
    b.lo.x <= p.x <= b.hi.x && b.lo.y <= p.y <= b.hi.y
  }

  function Min(a: real, b: real): real { if a <= b then a else b }
  function Max(a: real, b: real): real { if a >= b then a else b }

  /** get_segment_bounding_box: the smallest box holding both end points. */
  function SegmentBox(p: Point, q: Point): (b: Box)
    ensures InBox(b, p) && InBox(b, q)
    ensures (b.lo.x == p.x || b.lo.x == q.x) && (b.hi.x == p.x || b.hi.x == q.x)
    ensures (b.lo.y == p.y || b.lo.y == q.y) && (b.hi.y == p.y || b.hi.y == q.y)
  {
    Box(Point(Min(p.x, q.x), Min(p.y, q.y)), Point(Max(p.x, q.x), Max(p.y, q.y)))
  }

  function MinX(ps: seq<Point>): (m: real)
    requires ps != []
    ensures forall i :: 0 <= i < |ps| ==> m <= ps[i].x
    ensures exists i :: 0 <= i < |ps| && m == ps[i].x
  {
    if |ps| == 1 then ps[0].x
    else
      var m := MinX(ps[1..]);
      assert forall i :: 1 <= i < |ps| ==> ps[i] == ps[1..][i - 1];
      Min(ps[0].x, m)
  }

  function MinY(ps: seq<Point>): (m: real)
    requires ps != []
    ensures forall i :: 0 <= i < |ps| ==> m <= ps[i].y
    ensures exists i :: 0 <= i < |ps| && m == ps[i].y
  {
    if |ps| == 1 then ps[0].y
    else
      var m := MinY(ps[1..]);
      assert forall i :: 1 <= i < |ps| ==> ps[i] == ps[1..][i - 1];
      Min(ps[0].y, m)
  }

  function MaxX(ps: seq<Point>): (m: real)
    requires ps != []
    ensures forall i :: 0 <= i < |ps| ==> ps[i].x <= m
    ensures exists i :: 0 <= i < |ps| && m == ps[i].x
  {
    if |ps| == 1 then ps[0].x
    else
      var m := MaxX(ps[1..]);
      assert forall i :: 1 <= i < |ps| ==> ps[i] == ps[1..][i - 1];
      Max(ps[0].x, m)
  }

  function MaxY(ps: seq<Point>): (m: real)
    requires ps != []
    ensures forall i :: 0 <= i < |ps| ==> ps[i].y <= m
    ensures exists i :: 0 <= i < |ps| && m == ps[i].y
  {
    if |ps| == 1 then ps[0].y
    else
      var m := MaxY(ps[1..]);
      assert forall i :: 1 <= i < |ps| ==> ps[i] == ps[1..][i - 1];
      Max(ps[0].y, m)
  }

  /**
   * get_polygon_bounding_box: the smallest box holding every vertex; min()
   * of an empty list raises ValueError.
   */
  function PolygonBox(ps: seq<Point>): (r: Result<Box>)
    ensures r.Err? <==> ps == []
    ensures r.Err? ==> r.error == ValueError
    ensures r.Ok? ==> forall i :: 0 <= i < |ps| ==> InBox(r.value, ps[i])
    ensures r.Ok? ==> (exists i :: 0 <= i < |ps| && r.value.lo.x == ps[i].x)
    ensures r.Ok? ==> (exists i :: 0 <= i < |ps| && r.value.lo.y == ps[i].y)
    ensures r.Ok? ==> (exists i :: 0 <= i < |ps| && r.value.hi.x == ps[i].x)
    ensures r.Ok? ==> (exists i :: 0 <= i < |ps| && r.value.hi.y == ps[i].y)
  {
    if ps == [] then Err(ValueError)
    else Ok(Box(Point(MinX(ps), MinY(ps)), Point(MaxX(ps), MaxY(ps))))
  }

  /** do_boxes_intersect(a, b, c, d) for boxes [a, b] and [c, d]. */
  predicate BoxesIntersect(a: Point, b: Point, c: Point, d: Point) {
    a.x <= d.x && b.x >= c.x && a.y <= c.y <= b.y
  }

  predicate WellFormed(b: Box) {
    b.lo.x <= b.hi.x && b.lo.y <= b.hi.y
  }

  /** The two boxes share a point. */
  predicate Overlap(b1: Box, b2: Box) {
    b1.lo.x <= b2.hi.x && b2.lo.x <= b1.hi.x && b1.lo.y <= b2.hi.y && b2.lo.y <= b1.hi.y
  }

  /** A box test that passes in one order means the boxes really overlap. */
  lemma BoxTestSound(b1: Box, b2: Box)
    requires WellFormed(b2)
    ensures BoxesIntersect(b1.lo, b1.hi, b2.lo, b2.hi) ==> Overlap(b1, b2)
  {
  }

  /**
   * The test is asymmetric in y, but trying both orders (as the occlusion
   * test does) is exactly the overlap test.
   */
  lemma BoxTestEitherOrder(b1: Box, b2: Box)
    requires WellFormed(b1) && WellFormed(b2)
    ensures BoxesIntersect(b1.lo, b1.hi, b2.lo, b2.hi) || BoxesIntersect(b2.lo, b2.hi, b1.lo, b1.hi)
        <==> Overlap(b1, b2)
  {
    if Overlap(b1, b2) {
      if b1.lo.y <= b2.lo.y {
        assert BoxesIntersect(b1.lo, b1.hi, b2.lo, b2.hi);
      } else {
        assert BoxesIntersect(b2.lo, b2.hi, b1.lo, b1.hi);
      }
    }
  }

  /** Two overlapping boxes that the one-order test rejects. */
  lemma BoxTestAsymmetric()
    ensures var b1 := Box(Point(0.0, 1.0), Point(2.0, 1.0));
            var b2 := Box(Point(1.0, 0.0), Point(1.0, 2.0));
            Overlap(b1, b2) && !BoxesIntersect(b1.lo, b1.hi, b2.lo, b2.hi)
            && BoxesIntersect(b2.lo, b2.hi, b1.lo, b1.hi)
  {
  }

  // -----------------------------------------------------------------------
  // Segment test
  // -----------------------------------------------------------------------

  /** are_points_in_line: c is within EPSILON of lying between a and b. */
  predicate InLine(trig: Trig, a: Point, b: Point, c: Point) {
    var slack := trig.distance(a, c) + trig.distance(c, b) - trig.distance(a, b);
    -EPSILON < slack < EPSILON
  }

  /** geometry.intersects for segment_a = (a, b) and segment_b = (c, d). */
  predicate Intersects(trig: Trig, a: Point, b: Point, c: Point, d: Point) {
    if InLine(trig, a, b, c) then true
    else
      var boxA := SegmentBox(a, b);
      var boxB := SegmentBox(c, d);
      if !BoxesIntersect(boxA.lo, boxA.hi, boxB.lo, boxB.hi) then false
      else Ccw(a, b, c) != Ccw(a, b, d) && Ccw(c, d, b) != Ccw(c, d, a)
  }

  /** The two segments cross at a point interior to both. */
  predicate ProperCrossing(a: Point, b: Point, c: Point, d: Point) {
    && ((Cross(a, b, c) > 0.0 && Cross(a, b, d) < 0.0) || (Cross(a, b, c) < 0.0 && Cross(a, b, d) > 0.0))
    && ((Cross(c, d, a) > 0.0 && Cross(c, d, b) < 0.0) || (Cross(c, d, a) < 0.0 && Cross(c, d, b) > 0.0))
  }

  lemma MulNonNegative(t: real, v: real)
    requires 0.0 <= t && 0.0 <= v
    ensures 0.0 <= t * v
  {
  }

  lemma ScaleBetween(t: real, v: real)
    requires 0.0 <= t <= 1.0
    ensures v >= 0.0 ==> 0.0 <= t * v <= v
    ensures v <= 0.0 ==> v <= t * v <= 0.0
  {
    assert v - t * v == (1.0 - t) * v;
    if v >= 0.0 {
      MulNonNegative(t, v);
      MulNonNegative(1.0 - t, v);
    } else {
      MulNonNegative(t, -v);
      MulNonNegative(1.0 - t, -v);
    }
  }

  /** A point a + t (b - a) with 0 <= t <= 1 lies in the segment's box. */
  lemma BetweenIsInBox(a: Point, b: Point, t: real)
    requires 0.0 <= t <= 1.0
    ensures InBox(SegmentBox(a, b), Along(a, b, t))
  {
    BetweenOnAxis(a.x, b.x, t);
    BetweenOnAxis(a.y, b.y, t);
  }

  lemma BetweenOnAxis(u: real, v: real, t: real)
    requires 0.0 <= t <= 1.0
    ensures Min(u, v) <= u + t * (v - u) <= Max(u, v)
  {
    var w := v - u;
    var m := t * w;
    ScaleBetween(t, w);
    assert (w >= 0.0 ==> 0.0 <= m <= w) && (w <= 0.0 ==> w <= m <= 0.0);
    OffsetBetween(u, v, m);
  }

  /** An offset from u no longer than the way to v, and in its direction, stays between u and v. */
  lemma OffsetBetween(u: real, v: real, m: real)
    requires v - u >= 0.0 ==> 0.0 <= m <= v - u
    requires v - u <= 0.0 ==> v - u <= m <= 0.0
    ensures Min(u, v) <= u + m <= Max(u, v)
  {
  }

  lemma RatioBetween(x: real, y: real)
    requires 0.0 < x < y
    ensures 0.0 < x / y < 1.0
  {
    var q := x / y;
    assert q * y == x;
    if q <= 0.0 { MulNonNegative(-q, y); assert false; }
    if q >= 1.0 { MulNonNegative(q - 1.0, y); assert false; }
  }

  /**
   * Under a proper crossing get_intersection(a, b, c, d) is a + s (b - a)
   * with 0 < s < 1, so it lies on the segment a-b.
   */
  lemma CrossingPointOnFirstSegment(a: Point, b: Point, c: Point, d: Point)
    requires ProperCrossing(a, b, c, d)
    ensures Denominator(a, b, c, d) != 0.0
    ensures 0.0 < IntersectionParameter(a, b, c, d) < 1.0
    ensures Intersection(a, b, c, d) == Ok(Along(a, b, IntersectionParameter(a, b, c, d)))
  {
    var ca, cb := Cross(c, d, a), Cross(c, d, b);
    var ex, ey := d.x - c.x, d.y - c.y;
    assert ca == ey * (a.x - d.x) - ex * (a.y - d.y);
    assert cb - ca == ey * (b.x - a.x) - ex * (b.y - a.y);
    assert Denominator(a, b, c, d) == cb - ca;
    var num := ex * (a.y - c.y) - ey * (a.x - c.x);
    assert ey * (a.x - d.x) - ex * (a.y - d.y) == ey * (a.x - c.x) - ex * (a.y - c.y) + (ey * (c.x - d.x) - ex * (c.y - d.y));
    assert ey * (c.x - d.x) - ex * (c.y - d.y) == 0.0;
    assert num == -ca;
    var s := IntersectionParameter(a, b, c, d);
    assert s == -ca / (cb - ca);
    ParameterBetween(ca, cb);
  }

  /** -ca / (cb - ca) lies strictly between 0 and 1 when ca and cb have opposite signs. */
  lemma ParameterBetween(ca: real, cb: real)
    requires (ca > 0.0 && cb < 0.0) || (ca < 0.0 && cb > 0.0)
    ensures 0.0 < -ca / (cb - ca) < 1.0
  {
    if ca > 0.0 {
      assert -ca / (cb - ca) == ca / (ca - cb);
      RatioBetween(ca, ca - cb);
    } else {
      RatioBetween(-ca, cb - ca);
    }
  }

  /**
   * Every proper crossing is reported by trying intersects in both orders,
   * as collide_rays_w_walls does.
   */
  lemma {:induction false} EitherOrderDetectsCrossing(trig: Trig, a: Point, b: Point, c: Point, d: Point)
    requires ProperCrossing(a, b, c, d)
    ensures Intersects(trig, a, b, c, d) || Intersects(trig, c, d, a, b)
  {
    CrossingPointOnFirstSegment(a, b, c, d);
    var s := IntersectionParameter(a, b, c, d);
    var p := Along(a, b, s);
    BetweenIsInBox(a, b, s);
    assert ProperCrossing(c, d, a, b);
    CrossingPointOnFirstSegment(c, d, a, b);
    var u := IntersectionParameter(c, d, a, b);
    var q := Along(c, d, u);
    BetweenIsInBox(c, d, u);
    LinesMeetOnce(a, b, c, d, p, q);
    var boxA, boxB := SegmentBox(a, b), SegmentBox(c, d);
    assert Overlap(boxA, boxB);
    BoxTestEitherOrder(boxA, boxB);
  }
}
