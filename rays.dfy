// Light.create_rays_for_corners: a ray from the origin to every corner not
// hidden behind a nearer corner, with "offset" rays that sweep just past a
// corner to find what lies behind it.

module Rays {
  import opened Common
  import opened Geometry
  import opened Walls
  import opened Occlusion

  /** Length of the offset rays. */
  const OFFSET_LENGTH: real := 1500.0

  /** The list `rays` and the set `excluded` of the loop. */
  datatype RaysState = RaysState(rays: seq<Ray>, excluded: set<Point>)

  /** The angular test of the inner loop, with its wrap-around case. */
  predicate InSweep(minAngle: real, maxAngle: real, a: real) {
    (minAngle < a < maxAngle) || (minAngle > maxAngle && minAngle < a < 360.0)
  }

  /** The corners farther than c whose angle falls in the sweep: those hidden behind c. */
  function Shadowed(sc: Scene, c: Point, minAngle: real, maxAngle: real): set<Point> {
    set x | x in sc.corners
      && sc.trig.distance(sc.origin, x) > sc.trig.distance(sc.origin, c)
      && InSweep(minAngle, maxAngle, sc.trig.angle(sc.origin, x))
  }

  /** The end of an offset ray: 1500 from the origin at minus the corner's angle plus delta. */
  function OffsetEnd(sc: Scene, c: Point, delta: real): Point {
    MoveAlongVector(sc.trig, sc.origin, OFFSET_LENGTH, None, Some(-sc.trig.angle(sc.origin, c) + delta)).value
  }

  /** The rays one non-border corner emits: offset a when it opens a wall turning ccw, the direct ray, offset b. */
  function CornerRays(sc: Scene, c: Point, startsWall: Wall, endsWall: Wall): seq<Ray> {
    var offsetA := if Ccw(sc.origin, c, startsWall.b) then [Ray(sc.origin, OffsetEnd(sc, c, -EPSILON))] else [];
    var offsetB := if !Ccw(sc.origin, c, endsWall.a) then [Ray(sc.origin, OffsetEnd(sc, c, EPSILON))] else [];
    offsetA + [Ray(sc.origin, c)] + offsetB
  }

  /** The angular range behind corner c: its own angle, or the angle of the far end of a wall. */
  function MaxAngle(sc: Scene, c: Point, startsWall: Wall): real {
    if Ccw(sc.origin, startsWall.a, startsWall.b) then sc.trig.angle(sc.origin, c)
    else sc.trig.angle(sc.origin, startsWall.b)
  }

  function MinAngle(sc: Scene, c: Point, endsWall: Wall): real {
    if Ccw(sc.origin, endsWall.b, endsWall.a) then sc.trig.angle(sc.origin, endsWall.a)
    else sc.trig.angle(sc.origin, c)
  }

  /** One pass of the outer loop, for corner c. */
  function CornerStep(sc: Scene, st: RaysState, c: Point): Result<RaysState> {
    if c in st.excluded then Ok(st)
    else if c in BorderCorners() then Ok(st.(rays := st.rays + [Ray(sc.origin, c)]))
    else if c !in sc.openWalls || c !in sc.closeWalls then Err(KeyError)
    else
      var startsWall, endsWall := sc.openWalls[c], sc.closeWalls[c];
      var shadow := Shadowed(sc, c, MinAngle(sc, c, endsWall), MaxAngle(sc, c, startsWall));
      Ok(RaysState(st.rays + CornerRays(sc, c, startsWall, endsWall), st.excluded + shadow))
  }

  /** The outer loop from corner i on. */
  function RaysFrom(sc: Scene, st: RaysState, i: nat): Result<RaysState>
    requires i <= |sc.corners|
    decreases |sc.corners| - i
  {
    if i == |sc.corners| then Ok(st)
    else
      match CornerStep(sc, st, sc.corners[i])
      case Err(e) => Err(e)
      case Ok(next) => RaysFrom(sc, next, i + 1)
  }

  /** The value of create_rays_for_corners. */
  function CreateRays(sc: Scene): Result<seq<Ray>> {
    match RaysFrom(sc, RaysState([], {}), 0)
    case Err(e) => Err(e)
    case Ok(st) => Ok(st.rays)
  }

  /** Light.create_rays_for_corners. */
  method CreateRaysForCorners(sc: Scene) returns (result: Result<seq<Ray>>)
    ensures result == CreateRays(sc)
  {
    var origin, corners := sc.origin, sc.corners;
    var rays: seq<Ray> := [];
    var excluded: set<Point> := {};
    var angles := seq(|corners|, k requires 0 <= k < |corners| => sc.trig.angle(origin, corners[k]));
    var distances := seq(|corners|, k requires 0 <= k < |corners| => sc.trig.distance(origin, corners[k]));
    ghost var total := RaysFrom(sc, RaysState(rays, excluded), 0);
    for i := 0 to |corners|
      invariant RaysFrom(sc, RaysState(rays, excluded), i) == total
    {
      var corner := corners[i];
      assert RaysFrom(sc, RaysState(rays, excluded), i) == Then(sc, CornerStep(sc, RaysState(rays, excluded), corner), i + 1);
      if corner in excluded {
        continue;
      }
      if corner in BorderCorners() {
        rays := rays + [Ray(origin, corner)];
        continue;
      }
      if corner !in sc.openWalls || corner !in sc.closeWalls {
        return Err(KeyError);
      }
      rays, excluded := VisitCorner(sc, angles, distances, i, rays, excluded);
    }
    return Ok(rays);
  }

  /** One pass of the outer loop for a corner that is neither excluded nor a screen corner, and is in both indexes. */
  method VisitCorner(sc: Scene, angles: seq<real>, distances: seq<real>, i: nat, rays: seq<Ray>, excluded: set<Point>)
    returns (rays': seq<Ray>, excluded': set<Point>)
    requires i < |sc.corners| && |angles| == |distances| == |sc.corners|
    requires forall k :: 0 <= k < |sc.corners| ==> angles[k] == sc.trig.angle(sc.origin, sc.corners[k])
    requires forall k :: 0 <= k < |sc.corners| ==> distances[k] == sc.trig.distance(sc.origin, sc.corners[k])
    requires sc.corners[i] !in excluded && sc.corners[i] !in BorderCorners()
    requires sc.corners[i] in sc.openWalls && sc.corners[i] in sc.closeWalls
    ensures CornerStep(sc, RaysState(rays, excluded), sc.corners[i]) == Ok(RaysState(rays', excluded'))
  {
    var origin, corner := sc.origin, sc.corners[i];
    rays', excluded' := rays, excluded;
    var angle := angles[i];
    var maxDistance := distances[i];
    var cornerStartsWall := sc.openWalls[corner];
    var cornerEndsWall := sc.closeWalls[corner];
    var maxAngle, minAngle;
    if Ccw(origin, cornerStartsWall.a, cornerStartsWall.b) {
      maxAngle := angle;
    } else {
      maxAngle := sc.trig.angle(origin, cornerStartsWall.b);
    }
    if Ccw(origin, cornerEndsWall.b, cornerEndsWall.a) {
      minAngle := sc.trig.angle(origin, cornerEndsWall.a);
    } else {
      minAngle := angle;
    }
    excluded' := ExcludeHidden(sc, angles, distances, i, minAngle, maxAngle, excluded');
    var endA := MoveAlongVector(sc.trig, origin, OFFSET_LENGTH, None, Some(-angle + EPSILON)).value;
    var endB := MoveAlongVector(sc.trig, origin, OFFSET_LENGTH, None, Some(-angle - EPSILON)).value;
    var offsetRayA: Option<Ray> := None;
    var offsetRayB: Option<Ray> := None;
    if Ccw(origin, corner, cornerStartsWall.b) {
      offsetRayA := Some(Ray(origin, endB));
    }
    if !Ccw(origin, corner, cornerEndsWall.a) {
      offsetRayB := Some(Ray(origin, endA));
    }
    assert maxAngle == MaxAngle(sc, corner, cornerStartsWall) && minAngle == MinAngle(sc, corner, cornerEndsWall);
    assert endA == OffsetEnd(sc, corner, EPSILON) && endB == OffsetEnd(sc, corner, -EPSILON);
    var emitted := [offsetRayA, Some(Ray(origin, corner)), offsetRayB];
    PresentOfThree(emitted);
    assert Present(emitted) == CornerRays(sc, corner, cornerStartsWall, cornerEndsWall);
    rays' := AppendPresent(rays', emitted);
  }

  /** The rest of the outer loop after corner i - 1 gave r. */
  function Then(sc: Scene, r: Result<RaysState>, i: nat): Result<RaysState>
    requires i <= |sc.corners|
  {
    match r
    case Err(e) => Err(e)
    case Ok(st) => RaysFrom(sc, st, i)
  }

  lemma PresentOfThree(rs: seq<Option<Ray>>)
    requires |rs| == 3
    ensures Present(rs) == (if rs[0].Some? then [rs[0].value] else [])
      + (if rs[1].Some? then [rs[1].value] else []) + (if rs[2].Some? then [rs[2].value] else [])
  {
    var one := if rs[0].Some? then [rs[0].value] else [];
    var two := if rs[1].Some? then [rs[1].value] else [];
    assert rs[..1][..0] == [];
    assert Present(rs[..1]) == one;
    assert rs[..2][..1] == rs[..1];
    assert Present(rs[..2]) == one + two;
    assert rs[..2] == rs[..|rs| - 1];
  }

  /** The values of the Some entries, in order (the `if r is not None` filter). */
  function Present(rs: seq<Option<Ray>>): seq<Ray> {
    if rs == [] then []
    else Present(rs[..|rs| - 1]) + (if rs[|rs| - 1].Some? then [rs[|rs| - 1].value] else [])
  }

  /** The inner loop: add every corner hidden behind corner i to `excluded`. */
  method ExcludeHidden(sc: Scene, angles: seq<real>, distances: seq<real>, i: nat,
                       minAngle: real, maxAngle: real, excluded: set<Point>) returns (result: set<Point>)
    requires i < |sc.corners| && |angles| == |distances| == |sc.corners|
    requires forall k :: 0 <= k < |sc.corners| ==> angles[k] == sc.trig.angle(sc.origin, sc.corners[k])
    requires forall k :: 0 <= k < |sc.corners| ==> distances[k] == sc.trig.distance(sc.origin, sc.corners[k])
    ensures result == excluded + Shadowed(sc, sc.corners[i], minAngle, maxAngle)
  {
    var corners := sc.corners;
    var maxDistance := distances[i];
    result := excluded;
    for j := 0 to |corners|
      invariant result == excluded + set x | x in corners[..j]
        && sc.trig.distance(sc.origin, x) > maxDistance && InSweep(minAngle, maxAngle, sc.trig.angle(sc.origin, x))
    {
      var anotherCorner := corners[j];
      if distances[j] > maxDistance {
        var anotherAngle := angles[j];
        if minAngle < anotherAngle < maxAngle {
          result := result + {anotherCorner};
        } else if minAngle > maxAngle {
          if minAngle < anotherAngle < 360.0 {
            result := result + {anotherCorner};
          }
        }
      }
      assert corners[..j + 1] == corners[..j] + [anotherCorner];
    }
    assert corners[..|corners|] == corners;
  }

  /** The loop `for r in (offset_ray_a, (origin, corner), offset_ray_b): if r is not None: append`. */
  method AppendPresent(rays: seq<Ray>, candidates: seq<Option<Ray>>) returns (result: seq<Ray>)
    ensures result == rays + Present(candidates)
  {
    result := rays;
    for k := 0 to |candidates|
      invariant result == rays + Present(candidates[..k])
    {
      if candidates[k].Some? {
        result := result + [candidates[k].value];
      }
      assert candidates[..k + 1][..k] == candidates[..k];
    }
    assert candidates[..|candidates|] == candidates;
  }

  // -----------------------------------------------------------------------
  // What create_rays_for_corners computes
  // -----------------------------------------------------------------------

  function Dist(sc: Scene, p: Point): real {
    sc.trig.distance(sc.origin, p)
  }

  /** A ray from the origin to a corner, or to an offset end beside a corner. */
  predicate RayShape(sc: Scene, r: Ray) {
    r.start == sc.origin
    && exists c :: (c in sc.corners
      && (r.end == c || r.end == OffsetEnd(sc, c, EPSILON) || r.end == OffsetEnd(sc, c, -EPSILON)))
  }

  /**
   * The cases of one pass, tested in this order: an excluded corner adds
   * nothing, a screen corner only its direct ray, a corner missing from an
   * index raises KeyError, and any other corner adds its direct ray with
   * offset a before it exactly when it opens a wall turning ccw and
   * offset b after it exactly when the wall it closes does not.
   */
  lemma CornerStepCases(sc: Scene, st: RaysState, c: Point)
    ensures c in st.excluded ==> CornerStep(sc, st, c) == Ok(st)
    ensures c !in st.excluded && c in BorderCorners() ==>
      CornerStep(sc, st, c) == Ok(RaysState(st.rays + [Ray(sc.origin, c)], st.excluded))
    ensures c !in st.excluded && c !in BorderCorners() && (c !in sc.openWalls || c !in sc.closeWalls) ==>
      CornerStep(sc, st, c) == Err(KeyError)
    ensures c !in st.excluded && c !in BorderCorners() && c in sc.openWalls && c in sc.closeWalls ==>
      var next := CornerStep(sc, st, c).value;
      var before := if Ccw(sc.origin, c, sc.openWalls[c].b) then 1 else 0;
      var after := if Ccw(sc.origin, c, sc.closeWalls[c].a) then 0 else 1;
      && |next.rays| == |st.rays| + before + 1 + after
      && next.rays[..|st.rays|] == st.rays
      && next.rays[|st.rays| + before] == Ray(sc.origin, c)
      && (before == 1 ==> next.rays[|st.rays|] == Ray(sc.origin, OffsetEnd(sc, c, -EPSILON)))
      && (after == 1 ==> next.rays[|next.rays| - 1] == Ray(sc.origin, OffsetEnd(sc, c, EPSILON)))
  {
  }

  lemma CornerStepSpec(sc: Scene, st: RaysState, c: Point)
    requires CornerStep(sc, st, c).Ok? && c in sc.corners
    ensures var next := CornerStep(sc, st, c).value;
      && |st.rays| <= |next.rays| <= |st.rays| + 3
      && next.rays[..|st.rays|] == st.rays
      && st.excluded <= next.excluded
      && (c !in st.excluded ==> Ray(sc.origin, c) in next.rays)
      && (forall x :: x in next.excluded && x !in st.excluded ==> Dist(sc, x) > Dist(sc, c))
      && (forall k :: |st.rays| <= k < |next.rays| ==> RayShape(sc, next.rays[k]))
  {
    var next := CornerStep(sc, st, c).value;
    if c !in st.excluded {
      var added := next.rays[|st.rays|..];
      assert next.rays == st.rays + added;
      assert Ray(sc.origin, c) in added;
      forall k | |st.rays| <= k < |next.rays|
        ensures RayShape(sc, next.rays[k])
      {
        assert next.rays[k] == added[k - |st.rays|];
      }
    }
  }

  lemma {:induction false} RaysFromSpec(sc: Scene, st: RaysState, i: nat)
    requires i <= |sc.corners| && RaysFrom(sc, st, i).Ok?
    ensures var fin := RaysFrom(sc, st, i).value;
      && |st.rays| <= |fin.rays| <= |st.rays| + 3 * (|sc.corners| - i)
      && fin.rays[..|st.rays|] == st.rays
      && st.excluded <= fin.excluded
      && (forall k :: i <= k < |sc.corners| && sc.corners[k] !in fin.excluded ==> Ray(sc.origin, sc.corners[k]) in fin.rays)
      && (forall x :: x in fin.excluded && x !in st.excluded ==>
            exists k :: i <= k < |sc.corners| && Dist(sc, x) > Dist(sc, sc.corners[k]))
      && (forall k :: |st.rays| <= k < |fin.rays| ==> RayShape(sc, fin.rays[k]))
    decreases |sc.corners| - i
  {
    if i < |sc.corners| {
      var c := sc.corners[i];
      CornerStepSpec(sc, st, c);
      var next := CornerStep(sc, st, c).value;
      RaysFromSpec(sc, next, i + 1);
      var fin := RaysFrom(sc, st, i).value;
      assert fin == RaysFrom(sc, next, i + 1).value;
      assert fin.rays[..|next.rays|][..|st.rays|] == fin.rays[..|st.rays|];
      forall k | i <= k < |sc.corners| && sc.corners[k] !in fin.excluded
        ensures Ray(sc.origin, sc.corners[k]) in fin.rays
      {
        if k == i {
          var j :| 0 <= j < |next.rays| && next.rays[j] == Ray(sc.origin, c);
          assert fin.rays[j] == fin.rays[..|next.rays|][j];
        }
      }
      forall x | x in fin.excluded && x !in st.excluded
        ensures exists k :: i <= k < |sc.corners| && Dist(sc, x) > Dist(sc, sc.corners[k])
      {
        if x in next.excluded {
          assert Dist(sc, x) > Dist(sc, sc.corners[i]);
        } else {
          var k :| i + 1 <= k < |sc.corners| && Dist(sc, x) > Dist(sc, sc.corners[k]);
        }
      }
      forall k | |st.rays| <= k < |fin.rays|
        ensures RayShape(sc, fin.rays[k])
      {
        if k < |next.rays| {
          assert fin.rays[k] == fin.rays[..|next.rays|][k];
        }
      }
    }
  }

  /**
   * create_rays_for_corners emits at most three rays per corner, all from
   * the origin to a corner or to an offset end beside one, and the nearest
   * corner always gets its direct ray: a corner is only ever excluded by a
   * strictly nearer one.
   */
  lemma CreateRaysSpec(sc: Scene)
    ensures var r := CreateRays(sc);
      r.Ok? ==>
        && |r.value| <= 3 * |sc.corners|
        && (forall k :: 0 <= k < |r.value| ==> RayShape(sc, r.value[k]))
        && (forall k :: 0 <= k < |sc.corners| && (forall m :: 0 <= m < |sc.corners| ==> Dist(sc, sc.corners[k]) <= Dist(sc, sc.corners[m]))
              ==> Ray(sc.origin, sc.corners[k]) in r.value)
  {
    var start := RaysState([], {});
    if RaysFrom(sc, start, 0).Ok? {
      RaysFromSpec(sc, start, 0);
      var fin := RaysFrom(sc, start, 0).value;
      forall k | 0 <= k < |sc.corners| && (forall m :: 0 <= m < |sc.corners| ==> Dist(sc, sc.corners[k]) <= Dist(sc, sc.corners[m]))
        ensures Ray(sc.origin, sc.corners[k]) in fin.rays
      {
        assert sc.corners[k] !in fin.excluded;
      }
    }
  }

  /** Every corner that is not a border corner is in both wall indexes. */
  predicate CornersIndexed(sc: Scene) {
    forall c :: c in sc.corners ==> c in BorderCorners() || (c in sc.openWalls && c in sc.closeWalls)
  }

  lemma {:induction false} RaysFromErrors(sc: Scene, st: RaysState, i: nat)
    requires i <= |sc.corners|
    ensures RaysFrom(sc, st, i).Err? ==> RaysFrom(sc, st, i).error == KeyError
    ensures CornersIndexed(sc) ==> RaysFrom(sc, st, i).Ok?
    decreases |sc.corners| - i
  {
    if i < |sc.corners| && CornerStep(sc, st, sc.corners[i]).Ok? {
      RaysFromErrors(sc, CornerStep(sc, st, sc.corners[i]).value, i + 1);
    }
  }

  /** create_rays_for_corners raises only KeyError, and only for a corner missing from an index. */
  lemma CreateRaysErrors(sc: Scene)
    ensures CreateRays(sc).Err? ==> CreateRays(sc).error == KeyError
    ensures CornersIndexed(sc) ==> CreateRays(sc).Ok?
  {
    RaysFromErrors(sc, RaysState([], {}), 0);
  }
}
