// lighting.py: the second snapshot of the ray-casting light, with numbered
// walls and endpoints, the culling ray caster and the collision loop over a
// growing list of rays.

module Lighting {
  import opened Common
  import opened Geometry
  import W = Walls
  import Ids

  /** The four answers of the quadrant helper lighting.py imports. */
  datatype Quadrant = UL | UR | LL | LR

  /**
   * The float and library pieces lighting.py calls, left abstract:
   * distance_2d and calculate_angle (in trig), quadrant, and shapely's
   * LineString.crosses for the segments (p, q) and (r, s).
   */
  datatype Env = Env(
    trig: Trig,
    quadrant: (Point, Point) -> Quadrant,
    crosses: (Point, Point, Point, Point) -> bool)

  /** lighting.Wall: a fresh id and the two ends of the edge. */
  datatype Wall = Wall(id: int, a: Point, b: Point)

  /** lighting.Endpoint: a fresh id, a position and the ids of the walls beginning and ending there. */
  datatype Endpoint = Endpoint(id: int, position: Point, begins: Option<int>, ends: Option<int>)

  /** A ray tuple (origin, end, begins, ends); clipped rays carry no wall ids. */
  datatype Ray = Ray(start: Point, end: Point, begins: Option<int>, ends: Option<int>)

  // -----------------------------------------------------------------------
  // Light.find_walls
  // -----------------------------------------------------------------------

  /**
   * The segments find_walls collects: the four screen borders (the same
   * ones geometry.py uses), then each obstacle's consecutive edges and its
   * closing edge. points[-1] raises IndexError for an obstacle without points.
   */
  function WallSegments(obstacles: seq<seq<Point>>): (r: Result<seq<W.Wall>>)
    ensures r.Err? <==> exists k :: 0 <= k < |obstacles| && obstacles[k] == []
    ensures r.Err? ==> r.error == IndexError
    ensures r.Ok? ==> |r.value| >= 4 && r.value[..4] == W.ScreenBordersToWalls()
  {
    if exists k :: 0 <= k < |obstacles| && obstacles[k] == [] then Err(IndexError)
    else Ok(W.ScreenBordersToWalls() + W.AllPolygonWalls(obstacles))
  }

  /** The segment loop of find_walls. */
  method CollectSegments(obstacles: seq<seq<Point>>) returns (r: Result<seq<W.Wall>>)
    ensures r == WallSegments(obstacles)
  {
    var border := W.ScreenBordersToWalls();
    var walls := [];
    for k := 0 to |obstacles|
      invariant walls == W.AllPolygonWalls(obstacles[..k])
      invariant forall j :: 0 <= j < k ==> obstacles[j] != []
    {
      var points := obstacles[k];
      walls := OpenChain(walls, points);
      if points == [] {
        return Err(IndexError);
      }
      walls := walls + [W.Wall(points[|points| - 1], points[0])];
      W.AllPolygonWallsStep(obstacles, k);
    }
    assert obstacles[..|obstacles|] == obstacles;
    return Ok(border + walls);
  }

  /** The inner loop of find_walls: the edge from each point to the next, without the closing edge. */
  method OpenChain(walls: seq<W.Wall>, points: seq<Point>) returns (walls': seq<W.Wall>)
    ensures points == [] ==> walls' == walls
    ensures points != [] ==>
      walls' + [W.Wall(points[|points| - 1], points[0])] == walls + W.PolygonWalls(points)
  {
    walls' := walls;
    var count := |points| - 1;
    for i := 0 to if count < 0 then 0 else count
      invariant walls' == walls + W.PolygonWalls(points)[..i]
    {
      walls' := walls' + [W.Wall(points[i], points[i + 1])];
      assert W.PolygonWalls(points)[..i + 1] == W.PolygonWalls(points)[..i] + [W.Wall(points[i], points[i + 1])];
    }
    if points != [] {
      assert W.PolygonWalls(points) == W.PolygonWalls(points)[..count] + [W.Wall(points[|points| - 1], points[0])];
    }
  }

  /** The walls numbered by successive new_id(Wall) calls after `last`. */
  function Numbered(segs: seq<W.Wall>, last: int): (r: seq<Wall>)
    ensures |r| == |segs|
  {
    seq(|segs|, i requires 0 <= i < |segs| => Wall(last + 1 + i, segs[i].a, segs[i].b))
  }

  /** Numbered walls keep their segments and carry strictly increasing ids, all above `last`. */
  lemma NumberedSpec(segs: seq<W.Wall>, last: int)
    ensures var r := Numbered(segs, last);
      && (forall i :: 0 <= i < |r| ==> r[i].a == segs[i].a && r[i].b == segs[i].b && last < r[i].id)
      && (forall i, j :: 0 <= i < j < |r| ==> r[i].id < r[j].id)
  {
  }

  /** [Wall(w[0], w[1]) for w in walls]: one new_id(Wall) per segment, in order. */
  method NumberWalls(segs: seq<W.Wall>, wallIds: Ids.Category) returns (walls: seq<Wall>)
    requires wallIds.count.Some?
    modifies wallIds
    ensures walls == Numbered(segs, old(wallIds.count.value))
    ensures wallIds.count == Some(old(wallIds.count.value) + |segs|)
  {
    walls := [];
    for i := 0 to |segs|
      invariant wallIds.count == Some(old(wallIds.count.value) + i)
      invariant walls == Numbered(segs[..i], old(wallIds.count.value))
    {
      var id := Ids.NewId(wallIds);
      walls := walls + [Wall(id.value, segs[i].a, segs[i].b)];
    }
    assert segs[..|segs|] == segs;
  }

  // -----------------------------------------------------------------------
  // Light.find_endpoints
  // -----------------------------------------------------------------------

  /** Each wall's a then b, wall after wall: the order find_endpoints visits them. */
  function Endings(ws: seq<Wall>): (r: seq<Point>)
    ensures |r| == 2 * |ws|
    ensures forall i :: 0 <= i < |ws| ==> r[2 * i] == ws[i].a && r[2 * i + 1] == ws[i].b
  {
    if ws == [] then []
    else Endings(ws[..|ws| - 1]) + [ws[|ws| - 1].a, ws[|ws| - 1].b]
  }

  /** The endpoint positions: every wall ending once, in first-occurrence order. */
  function Positions(ws: seq<Wall>): seq<Point> {
    Dedup(Endings(ws))
  }

  /** Fresh endpoints for the positions, numbered after `last`, with no walls yet. */
  function FreshEndpoints(ps: seq<Point>, last: int): (r: seq<Endpoint>)
    ensures |r| == |ps|
  {
    seq(|ps|, k requires 0 <= k < |ps| => Endpoint(last + 1 + k, ps[k], None, None))
  }

  /** One pass of the inner loop over the endpoints for wall w: begins on a, else ends on b. */
  function Mark(eps: seq<Endpoint>, w: Wall): (r: seq<Endpoint>)
    ensures |r| == |eps|
  {
    seq(|eps|, j requires 0 <= j < |eps| =>
      if eps[j].position == w.a then eps[j].(begins := Some(w.id))
      else if eps[j].position == w.b then eps[j].(ends := Some(w.id))
      else eps[j])
  }

  /** The second loop of find_endpoints: Mark for every wall in order. */
  function MarkAll(eps: seq<Endpoint>, ws: seq<Wall>): (r: seq<Endpoint>)
    ensures |r| == |eps|
  {
    if ws == [] then eps
    else Mark(MarkAll(eps, ws[..|ws| - 1]), ws[|ws| - 1])
  }

  /** The id of the last wall starting at p, or `init` when none does. */
  function BeginsAt(ws: seq<Wall>, p: Point, init: Option<int>): Option<int> {
    if ws == [] then init
    else if ws[|ws| - 1].a == p then Some(ws[|ws| - 1].id)
    else BeginsAt(ws[..|ws| - 1], p, init)
  }

  /** The id of the last wall ending at p without also starting there, or `init`. */
  function EndsAt(ws: seq<Wall>, p: Point, init: Option<int>): Option<int> {
    if ws == [] then init
    else if ws[|ws| - 1].a != p && ws[|ws| - 1].b == p then Some(ws[|ws| - 1].id)
    else EndsAt(ws[..|ws| - 1], p, init)
  }

  /** The endpoints find_endpoints returns when the Endpoint counter stood at `last`. */
  function EndpointsOf(ws: seq<Wall>, last: int): seq<Endpoint> {
    MarkAll(FreshEndpoints(Positions(ws), last), ws)
  }

  /** After marking, each endpoint names the last wall beginning and the last wall ending at it. */
  lemma {:induction false} MarkAllSpec(eps: seq<Endpoint>, ws: seq<Wall>, j: int)
    requires 0 <= j < |eps|
    ensures MarkAll(eps, ws)[j]
         == Endpoint(eps[j].id, eps[j].position, BeginsAt(ws, eps[j].position, eps[j].begins), EndsAt(ws, eps[j].position, eps[j].ends))
  {
    if ws != [] {
      MarkAllSpec(eps, ws[..|ws| - 1], j);
    }
  }

  /** begins is set exactly when some wall starts at the position, to the last such wall's id. */
  lemma {:induction false} BeginsAtSpec(ws: seq<Wall>, p: Point)
    ensures BeginsAt(ws, p, None).Some? <==> exists i :: 0 <= i < |ws| && ws[i].a == p
    ensures BeginsAt(ws, p, None).Some? ==>
      exists i :: (0 <= i < |ws| && ws[i].a == p && BeginsAt(ws, p, None) == Some(ws[i].id)
        && forall j :: i < j < |ws| ==> ws[j].a != p)
  {
    if ws != [] {
      var init := ws[..|ws| - 1];
      BeginsAtSpec(init, p);
      assert forall i :: 0 <= i < |init| ==> init[i] == ws[i];
    }
  }

  /**
   * ends is set exactly when some wall ends at the position without
   * starting there (the elif: a degenerate wall sets only begins), to the
   * last such wall's id.
   */
  lemma {:induction false} EndsAtSpec(ws: seq<Wall>, p: Point)
    ensures EndsAt(ws, p, None).Some? <==> exists i :: 0 <= i < |ws| && ws[i].b == p && ws[i].a != p
    ensures EndsAt(ws, p, None).Some? ==>
      exists i :: (0 <= i < |ws| && ws[i].b == p && ws[i].a != p && EndsAt(ws, p, None) == Some(ws[i].id)
        && forall j :: i < j < |ws| ==> !(ws[j].b == p && ws[j].a != p))
  {
    if ws != [] {
      var init := ws[..|ws| - 1];
      EndsAtSpec(init, p);
      assert forall i :: 0 <= i < |init| ==> init[i] == ws[i];
    }
  }

  /** A point is a wall ending exactly when some wall starts or ends there. */
  lemma {:induction false} EndingsMembers(ws: seq<Wall>, p: Point)
    ensures p in Endings(ws) <==> exists i :: 0 <= i < |ws| && (ws[i].a == p || ws[i].b == p)
  {
    if ws != [] {
      var init := ws[..|ws| - 1];
      EndingsMembers(init, p);
      assert forall i :: 0 <= i < |init| ==> init[i] == ws[i];
    }
  }

  /**
   * find_endpoints yields one endpoint per distinct wall ending, numbered
   * in first-occurrence order, each naming the last wall that begins and
   * the last non-degenerate wall that ends there.
   */
  lemma FindEndpointsSpec(ws: seq<Wall>, last: int)
    ensures var eps := EndpointsOf(ws, last);
      && |eps| == |Positions(ws)|
      && NoDuplicates(Positions(ws))
      && (forall p :: p in Positions(ws) <==> exists i :: 0 <= i < |ws| && (ws[i].a == p || ws[i].b == p))
      && forall k :: 0 <= k < |eps| ==>
           eps[k] == Endpoint(last + 1 + k, Positions(ws)[k], BeginsAt(ws, Positions(ws)[k], None), EndsAt(ws, Positions(ws)[k], None))
  {
    var unmarked := FreshEndpoints(Positions(ws), last);
    forall k | 0 <= k < |unmarked|
      ensures MarkAll(unmarked, ws)[k]
           == Endpoint(last + 1 + k, Positions(ws)[k], BeginsAt(ws, Positions(ws)[k], None), EndsAt(ws, Positions(ws)[k], None))
    {
      MarkAllSpec(unmarked, ws, k);
    }
    forall p
      ensures p in Positions(ws) <==> exists i :: 0 <= i < |ws| && (ws[i].a == p || ws[i].b == p)
    {
      DedupMembers(Endings(ws), p);
      EndingsMembers(ws, p);
    }
  }

  /** The visited list after meeting position p. */
  function Visit(visited: seq<Point>, p: Point): seq<Point> {
    if p in visited then visited else visited + [p]
  }

  /** What the first loop of find_endpoints adds for wall k. */
  lemma EndingsStep(ws: seq<Wall>, k: nat)
    requires k < |ws|
    ensures Positions(ws[..k + 1]) == Visit(Visit(Positions(ws[..k]), ws[k].a), ws[k].b)
  {
    assert ws[..k + 1][..k] == ws[..k];
    var before := Endings(ws[..k]);
    assert Endings(ws[..k + 1]) == (before + [ws[k].a]) + [ws[k].b];
    DedupSnoc(before, ws[k].a);
    DedupSnoc(before + [ws[k].a], ws[k].b);
  }

  /** FreshEndpoints grows by one endpoint per new position. */
  lemma FreshSnoc(ps: seq<Point>, p: Point, last: int)
    ensures FreshEndpoints(ps + [p], last) == FreshEndpoints(ps, last) + [Endpoint(last + 1 + |ps|, p, None, None)]
  {
  }

  /** One turn of `for ending in (wall.a, wall.b)`: a position not yet visited gets a new endpoint. */
  method VisitEnding(visited: seq<Point>, endpoints: seq<Endpoint>, ending: Point, endpointIds: Ids.Category, last: int)
    returns (visited': seq<Point>, endpoints': seq<Endpoint>)
    requires endpoints == FreshEndpoints(visited, last)
    requires endpointIds.count == Some(last + |visited|)
    modifies endpointIds
    ensures visited' == Visit(visited, ending)
    ensures endpoints' == FreshEndpoints(visited', last)
    ensures endpointIds.count == Some(last + |visited'|)
  {
    visited', endpoints' := visited, endpoints;
    if ending !in visited {
      FreshSnoc(visited, ending, last);
      visited' := visited + [ending];
      var id := Ids.NewId(endpointIds);
      endpoints' := endpoints + [Endpoint(id.value, ending, None, None)];
    }
  }

  /** The inner loop of the second pass: every endpoint checked against one wall. */
  method MarkWall(endpoints: seq<Endpoint>, wall: Wall) returns (marked: seq<Endpoint>)
    ensures marked == Mark(endpoints, wall)
  {
    marked := endpoints;
    for j := 0 to |marked|
      invariant |marked| == |endpoints|
      invariant forall m :: 0 <= m < j ==> marked[m] == Mark(endpoints, wall)[m]
      invariant forall m :: j <= m < |endpoints| ==> marked[m] == endpoints[m]
    {
      if marked[j].position == wall.a {
        marked := marked[j := marked[j].(begins := Some(wall.id))];
      } else if marked[j].position == wall.b {
        marked := marked[j := marked[j].(ends := Some(wall.id))];
      }
    }
  }

  /** The first pass of find_endpoints: a new Endpoint for every ending not seen before. */
  method NewEndpoints(walls: seq<Wall>, endpointIds: Ids.Category) returns (endpoints: seq<Endpoint>)
    requires endpointIds.count.Some?
    modifies endpointIds
    ensures endpoints == FreshEndpoints(Positions(walls), old(endpointIds.count.value))
    ensures endpointIds.count == Some(old(endpointIds.count.value) + |Positions(walls)|)
  {
    var last := endpointIds.count.value;
    var visited: seq<Point> := [];
    endpoints := [];
    for k := 0 to |walls|
      invariant visited == Positions(walls[..k])
      invariant endpoints == FreshEndpoints(visited, last)
      invariant endpointIds.count == Some(last + |visited|)
    {
      EndingsStep(walls, k);
      visited, endpoints := VisitEnding(visited, endpoints, walls[k].a, endpointIds, last);
      visited, endpoints := VisitEnding(visited, endpoints, walls[k].b, endpointIds, last);
    }
    assert walls[..|walls|] == walls;
  }

  /** Light.find_endpoints: the first pass, then the marking pass over walls and endpoints. */
  method FindEndpoints(walls: seq<Wall>, endpointIds: Ids.Category) returns (endpoints: seq<Endpoint>)
    requires endpointIds.count.Some?
    modifies endpointIds
    ensures endpoints == EndpointsOf(walls, old(endpointIds.count.value))
    ensures endpointIds.count == Some(old(endpointIds.count.value) + |Positions(walls)|)
  {
    endpoints := NewEndpoints(walls, endpointIds);
    ghost var unmarked := endpoints;
    for k := 0 to |walls|
      invariant endpoints == MarkAll(unmarked, walls[..k])
      invariant endpointIds.count == Some(old(endpointIds.count.value) + |Positions(walls)|)
    {
      endpoints := MarkWall(endpoints, walls[k]);
      assert walls[..k + 1][..k] == walls[..k];
    }
    assert walls[..|walls|] == walls;
  }

  // -----------------------------------------------------------------------
  // Light.cast_rays
  // -----------------------------------------------------------------------

  /** angle_a: the angle shift of the two rays looking round a corner. */
  const ANGLE_A: real := 0.0001

  /**
   * self.walls[id]: the dict built from the wall list, where a later wall
   * wins a repeated id; None or an id no wall has raises KeyError.
   */
  function WallById(walls: seq<Wall>, id: Option<int>): (r: Result<Wall>)
    ensures r.Ok? ==> r.value in walls && id == Some(r.value.id)
    ensures r.Err? <==> forall w :: w in walls ==> id != Some(w.id)
    ensures r.Err? ==> r.error == KeyError
  {
    if id.None? || walls == [] then Err(KeyError)
    else if walls[|walls| - 1].id == id.value then Ok(walls[|walls| - 1])
    else
      assert forall w :: w in walls ==> w in walls[..|walls| - 1] || w == walls[|walls| - 1];
      WallById(walls[..|walls| - 1], id)
  }

  /** The loop state of cast_rays: the rays so far, edge and edge_distance. */
  datatype CastState = CastState(rays: seq<Ray>, edge: Option<int>, edgeDistance: real)

  /**
   * The ray the "temporary fix" appends. Its guard looks for the 2-tuple
   * (origin, (0.0, 0.0)) among 4-tuples, which never matches, so the ray
   * is appended after every endpoint that gets a main ray.
   */
  function ZeroRay(origin: Point): Ray {
    Ray(origin, Point(0.0, 0.0), None, None)
  }

  /**
   * The ends of offset_ray_a and offset_ray_b chosen by the quadrant of the
   * endpoint. In the upper-left quadrant both tests assign offset_ray_b.
   */
  function OffsetEnds(q: Quadrant, nextEdgeEnd: real, thisEdgeBegin: real, angle: real, endA: Point, endB: Point)
    : (Option<Point>, Option<Point>)
  {
    match q
    case UL =>
      var b := if nextEdgeEnd > angle then Some(endA) else None;
      (None, if thisEdgeBegin < angle then Some(endB) else b)
    case UR =>
      (if nextEdgeEnd > angle then Some(endA) else None, if thisEdgeBegin < angle then Some(endB) else None)
    case LL =>
      (if nextEdgeEnd > angle then Some(endA) else None, if thisEdgeBegin < angle then Some(endB) else None)
    case LR =>
      (if thisEdgeBegin > angle then Some(endA) else None, if nextEdgeEnd < angle then Some(endB) else None)
  }

  /** An offset ray carries its parent endpoint's wall ids. */
  function OffsetRay(origin: Point, end: Option<Point>, e: Endpoint): seq<Ray> {
    if end.Some? then [Ray(origin, end.value, e.begins, e.ends)] else []
  }

  /** The edge test of cast_rays: no edge yet, the edge begins here, or the endpoint is nearer. */
  predicate PassesEdgeTest(trig: Trig, origin: Point, st: CastState, e: Endpoint) {
    st.edge.None? || st.edge == e.begins || trig.distance(e.position, origin) < st.edgeDistance
  }

  /** One turn of the loop of cast_rays for endpoint e. */
  function CastStep(env: Env, walls: seq<Wall>, origin: Point, maxRange: real, st: CastState, e: Endpoint): Result<CastState> {
    var trig := env.trig;
    var position := e.position;
    if trig.distance(origin, position) > maxRange then Ok(st)
    else if !PassesEdgeTest(trig, origin, st, e) then Ok(st)
    else
      var angle := trig.angle(origin, position);
      match WallById(walls, e.ends)
      case Err(err) => Err(err)
      case Ok(endWall) =>
        var firstDistance := trig.distance(position, origin);
        var secondVertex := endWall.a;
        var edge := if trig.angle(origin, secondVertex) > angle then e.ends else None;
        var edgeDistance :=
          if trig.angle(origin, secondVertex) > angle then Max(firstDistance, trig.distance(secondVertex, origin))
          else st.edgeDistance;
        match WallById(walls, e.begins)
        case Err(err) => Err(err)
        case Ok(beginWall) =>
          var endA := MoveAlongVector(trig, origin, maxRange, None, Some(-angle + ANGLE_A)).value;
          var endB := MoveAlongVector(trig, origin, maxRange, None, Some(-angle - ANGLE_A)).value;
          var offsets := OffsetEnds(env.quadrant(position, origin), trig.angle(origin, beginWall.b),
                                    trig.angle(origin, endWall.a), angle, endA, endB);
          var added := [Ray(origin, position, e.begins, e.ends)] + OffsetRay(origin, offsets.0, e)
                       + OffsetRay(origin, offsets.1, e) + [ZeroRay(origin)];
          Ok(CastState(st.rays + added, edge, edgeDistance))
  }

  /** The loop of cast_rays from endpoint i on. */
  function CastFrom(env: Env, walls: seq<Wall>, origin: Point, maxRange: real, endpoints: seq<Endpoint>,
                    st: CastState, i: nat): Result<CastState>
    requires i <= |endpoints|
    decreases |endpoints| - i
  {
    if i == |endpoints| then Ok(st)
    else match CastStep(env, walls, origin, maxRange, st, endpoints[i])
      case Err(err) => Err(err)
      case Ok(next) => CastFrom(env, walls, origin, maxRange, endpoints, next, i + 1)
  }

  /** The rays cast_rays returns (edge_distance starts unset; it is read only once edge is set). */
  function CastRaysOf(env: Env, walls: seq<Wall>, endpoints: seq<Endpoint>, origin: Point, maxRange: real): Result<seq<Ray>> {
    match CastFrom(env, walls, origin, maxRange, endpoints, CastState([], None, 0.0), 0)
    case Err(err) => Err(err)
    case Ok(st) => Ok(st.rays)
  }

  /** The quadrant branch of cast_rays. */
  method ChooseOffsets(q: Quadrant, nextEdgeEnd: real, thisEdgeBegin: real, angle: real, endA: Point, endB: Point)
    returns (offsetA: Option<Point>, offsetB: Option<Point>)
    ensures (offsetA, offsetB) == OffsetEnds(q, nextEdgeEnd, thisEdgeBegin, angle, endA, endB)
  {
    offsetA, offsetB := None, None;
    if q == UL {
      if nextEdgeEnd > angle {
        offsetB := Some(endA);
      }
      if thisEdgeBegin < angle {
        offsetB := Some(endB);
      }
    } else if q == UR {
      if nextEdgeEnd > angle {
        offsetA := Some(endA);
      }
      if thisEdgeBegin < angle {
        offsetB := Some(endB);
      }
    } else if q == LL {
      if nextEdgeEnd > angle {
        offsetA := Some(endA);
      }
      if thisEdgeBegin < angle {
        offsetB := Some(endB);
      }
    } else {
      if thisEdgeBegin > angle {
        offsetA := Some(endA);
      }
      if nextEdgeEnd < angle {
        offsetB := Some(endB);
      }
    }
  }

  /** Light.cast_rays. */
  method CastRays(env: Env, walls: seq<Wall>, endpoints: seq<Endpoint>, origin: Point, maxRange: real)
    returns (result: Result<seq<Ray>>)
    ensures result == CastRaysOf(env, walls, endpoints, origin, maxRange)
  {
    var rays: seq<Ray> := [];
    var edge: Option<int>, edgeDistance: real := None, 0.0;
    for i := 0 to |endpoints|
      invariant CastFrom(env, walls, origin, maxRange, endpoints, CastState(rays, edge, edgeDistance), i)
             == CastFrom(env, walls, origin, maxRange, endpoints, CastState([], None, 0.0), 0)
    {
      var next := CastEndpoint(env, walls, origin, maxRange, rays, edge, edgeDistance, endpoints[i]);
      if next.Err? {
        return Err(next.error);
      }
      rays, edge, edgeDistance := next.value.rays, next.value.edge, next.value.edgeDistance;
    }
    result := Ok(rays);
  }

  /** The body of cast_rays' loop for one endpoint. */
  method CastEndpoint(env: Env, walls: seq<Wall>, origin: Point, maxRange: real,
                      rays: seq<Ray>, edge: Option<int>, edgeDistance: real, endpoint: Endpoint)
    returns (result: Result<CastState>)
    ensures result == CastStep(env, walls, origin, maxRange, CastState(rays, edge, edgeDistance), endpoint)
  {
    var trig := env.trig;
    var begins, ends := endpoint.begins, endpoint.ends;
    if trig.distance(origin, endpoint.position) > maxRange {
      return Ok(CastState(rays, edge, edgeDistance));
    }
    var position := endpoint.position;
    var angle := trig.angle(origin, position);
    var ray := Ray(origin, position, begins, ends);
    var edge', edgeDistance' := edge, edgeDistance;
    if edge.None? || edge == begins || trig.distance(position, origin) < edgeDistance {
      var firstDistance := trig.distance(position, origin);
      var endWall := WallById(walls, ends);
      if endWall.Err? {
        return Err(endWall.error);
      }
      var secondVertex := endWall.value.a;
      if trig.angle(origin, secondVertex) > angle {
        edge' := ends;
        var secondDistance := trig.distance(secondVertex, origin);
        edgeDistance' := Max(firstDistance, secondDistance);
      } else {
        edge' := None;
      }
    } else {
      return Ok(CastState(rays, edge, edgeDistance));
    }
    var rays' := rays + [ray];
    var endA := MoveAlongVector(trig, origin, maxRange, None, Some(-angle + ANGLE_A)).value;
    var endB := MoveAlongVector(trig, origin, maxRange, None, Some(-angle - ANGLE_A)).value;
    var beginWall := WallById(walls, begins);
    if beginWall.Err? {
      return Err(beginWall.error);
    }
    var nextEdgeEnd := trig.angle(origin, beginWall.value.b);
    var thisEdgeBegin := trig.angle(origin, WallById(walls, ends).value.a);
    var offsetA, offsetB := ChooseOffsets(env.quadrant(position, origin), nextEdgeEnd, thisEdgeBegin, angle, endA, endB);
    rays' := rays' + OffsetRay(origin, offsetA, endpoint);
    rays' := rays' + OffsetRay(origin, offsetB, endpoint);
    rays' := rays' + [ZeroRay(origin)];
    ghost var added := [ray] + OffsetRay(origin, offsetA, endpoint) + OffsetRay(origin, offsetB, endpoint) + [ZeroRay(origin)];
    assert rays' == rays + added;
    ghost var offsets := OffsetEnds(env.quadrant(position, origin), nextEdgeEnd, thisEdgeBegin, angle, endA, endB);
    assert offsets.0 == offsetA && offsets.1 == offsetB;
    result := Ok(CastState(rays', edge', edgeDistance'));
  }

  /**
   * One turn of cast_rays either adds nothing (the endpoint is out of range
   * or fails the edge test) or adds the main ray (origin, position, begins,
   * ends), up to two offset rays with the same wall ids, and the zero ray.
   */
  lemma CastStepSpec(env: Env, walls: seq<Wall>, origin: Point, maxRange: real, st: CastState, e: Endpoint)
    ensures var r := CastStep(env, walls, origin, maxRange, st, e);
      r.Ok? ==>
        var added := r.value.rays[|st.rays|..];
        && |st.rays| <= |r.value.rays|
        && r.value.rays[..|st.rays|] == st.rays
        && (added == [] <==> env.trig.distance(origin, e.position) > maxRange || !PassesEdgeTest(env.trig, origin, st, e))
        && (added == [] ==> r.value == st)
        && (added != [] ==>
              && 2 <= |added| <= 4
              && added[0] == Ray(origin, e.position, e.begins, e.ends)
              && added[|added| - 1] == ZeroRay(origin)
              && forall k :: 0 < k < |added| - 1 ==> added[k].start == origin && added[k].begins == e.begins && added[k].ends == e.ends)
  {
  }

  /** A ray cast_rays can emit: the zero ray, or a ray from the origin carrying the ids of an endpoint in range. */
  predicate CastRay(env: Env, origin: Point, maxRange: real, endpoints: seq<Endpoint>, r: Ray) {
    r == ZeroRay(origin)
    || (r.start == origin
        && exists k :: 0 <= k < |endpoints| && r.begins == endpoints[k].begins && r.ends == endpoints[k].ends
             && env.trig.distance(origin, endpoints[k].position) <= maxRange)
  }

  lemma {:induction false} CastFromShape(env: Env, walls: seq<Wall>, origin: Point, maxRange: real, endpoints: seq<Endpoint>,
                                         st: CastState, i: nat)
    requires i <= |endpoints|
    requires forall r :: r in st.rays ==> CastRay(env, origin, maxRange, endpoints, r)
    ensures var fin := CastFrom(env, walls, origin, maxRange, endpoints, st, i);
      fin.Ok? ==> forall r :: r in fin.value.rays ==> CastRay(env, origin, maxRange, endpoints, r)
    decreases |endpoints| - i
  {
    if i < |endpoints| {
      var e := endpoints[i];
      var step := CastStep(env, walls, origin, maxRange, st, e);
      if step.Ok? {
        CastStepSpec(env, walls, origin, maxRange, st, e);
        var next := step.value;
        var added := next.rays[|st.rays|..];
        assert next.rays == st.rays + added;
        forall r | r in next.rays
          ensures CastRay(env, origin, maxRange, endpoints, r)
        {
          if r !in st.rays {
            var k :| 0 <= k < |added| && added[k] == r;
            if k < |added| - 1 {
              assert r.start == origin && r.begins == e.begins && r.ends == e.ends;
              assert env.trig.distance(origin, endpoints[i].position) <= maxRange;
            }
          }
        }
        CastFromShape(env, walls, origin, maxRange, endpoints, next, i + 1);
      }
    }
  }

  /**
   * Every ray cast_rays returns is the zero ray or starts at the origin and
   * carries the wall ids of an endpoint within max_range: endpoints out of
   * range get no ray at all.
   */
  lemma CastRaysShape(env: Env, walls: seq<Wall>, endpoints: seq<Endpoint>, origin: Point, maxRange: real)
    ensures var r := CastRaysOf(env, walls, endpoints, origin, maxRange);
      r.Ok? ==> forall ray :: ray in r.value ==> CastRay(env, origin, maxRange, endpoints, ray)
  {
    CastFromShape(env, walls, origin, maxRange, endpoints, CastState([], None, 0.0), 0);
  }

  /**
   * The temporary fix appends the zero ray on every turn that emits rays,
   * even when it is already present: two such turns leave it twice.
   */
  lemma TemporaryFixDuplicates(env: Env, walls: seq<Wall>, origin: Point, maxRange: real, st: CastState, e1: Endpoint, e2: Endpoint)
    requires CastStep(env, walls, origin, maxRange, st, e1).Ok?
    requires var mid := CastStep(env, walls, origin, maxRange, st, e1).value;
      |mid.rays| > |st.rays| && CastStep(env, walls, origin, maxRange, mid, e2).Ok?
      && |CastStep(env, walls, origin, maxRange, mid, e2).value.rays| > |mid.rays|
    ensures var mid := CastStep(env, walls, origin, maxRange, st, e1).value;
      var fin := CastStep(env, walls, origin, maxRange, mid, e2).value;
      multiset(fin.rays)[ZeroRay(origin)] >= multiset(st.rays)[ZeroRay(origin)] + 2
  {
    var mid := CastStep(env, walls, origin, maxRange, st, e1).value;
    var fin := CastStep(env, walls, origin, maxRange, mid, e2).value;
    ZeroRayAppended(env, walls, origin, maxRange, st, e1);
    ZeroRayAppended(env, walls, origin, maxRange, mid, e2);
  }

  lemma ZeroRayAppended(env: Env, walls: seq<Wall>, origin: Point, maxRange: real, st: CastState, e: Endpoint)
    requires CastStep(env, walls, origin, maxRange, st, e).Ok?
    requires |CastStep(env, walls, origin, maxRange, st, e).value.rays| > |st.rays|
    ensures multiset(CastStep(env, walls, origin, maxRange, st, e).value.rays)[ZeroRay(origin)]
         >= multiset(st.rays)[ZeroRay(origin)] + 1
  {
    var next := CastStep(env, walls, origin, maxRange, st, e).value;
    CastStepSpec(env, walls, origin, maxRange, st, e);
    var added := next.rays[|st.rays|..];
    assert next.rays == st.rays + added[..|added| - 1] + [ZeroRay(origin)];
  }

  /** Every endpoint names two walls the dict holds. */
  predicate EndpointsIndexed(walls: seq<Wall>, endpoints: seq<Endpoint>) {
    forall k :: 0 <= k < |endpoints| ==> WallById(walls, endpoints[k].begins).Ok? && WallById(walls, endpoints[k].ends).Ok?
  }

  lemma {:induction false} CastFromErrors(env: Env, walls: seq<Wall>, origin: Point, maxRange: real, endpoints: seq<Endpoint>,
                                          st: CastState, i: nat)
    requires i <= |endpoints|
    ensures var r := CastFrom(env, walls, origin, maxRange, endpoints, st, i);
      (r.Err? ==> r.error == KeyError) && (EndpointsIndexed(walls, endpoints) ==> r.Ok?)
    decreases |endpoints| - i
  {
    if i < |endpoints| && CastStep(env, walls, origin, maxRange, st, endpoints[i]).Ok? {
      CastFromErrors(env, walls, origin, maxRange, endpoints, CastStep(env, walls, origin, maxRange, st, endpoints[i]).value, i + 1);
    }
  }

  /**
   * cast_rays raises only KeyError, from an endpoint whose begins or ends
   * names no wall, and never when every endpoint names two walls.
   */
  lemma CastRaysErrors(env: Env, walls: seq<Wall>, endpoints: seq<Endpoint>, origin: Point, maxRange: real)
    ensures var r := CastRaysOf(env, walls, endpoints, origin, maxRange);
      (r.Err? ==> r.error == KeyError) && (EndpointsIndexed(walls, endpoints) ==> r.Ok?)
  {
    CastFromErrors(env, walls, origin, maxRange, endpoints, CastState([], None, 0.0), 0);
  }

  /** In the upper-left quadrant offset_ray_a is never set: both tests write offset_ray_b. */
  lemma UpperLeftHasNoOffsetA(nextEdgeEnd: real, thisEdgeBegin: real, angle: real, endA: Point, endB: Point)
    ensures OffsetEnds(UL, nextEdgeEnd, thisEdgeBegin, angle, endA, endB).0 == None
  {
  }

  // -----------------------------------------------------------------------
  // The collision loop of Light.update_light
  // -----------------------------------------------------------------------

  /** A wall blocks a ray when it is not one of the ray's own walls and the two segments cross. */
  predicate Blocks(env: Env, ray: Ray, w: Wall) {
    Some(w.id) != ray.begins && Some(w.id) != ray.ends && env.crosses(ray.start, ray.end, w.a, w.b)
  }

  /** The wall the inner loop stops at: the first one, in order, that blocks the ray. */
  function FirstCrossing(env: Env, ray: Ray, walls: seq<Wall>): (r: Option<Wall>)
    ensures r.Some? ==> r.value in walls && Blocks(env, ray, r.value)
    ensures r.None? <==> forall w :: w in walls ==> !Blocks(env, ray, w)
  {
    if walls == [] then None
    else if Blocks(env, ray, walls[0]) then Some(walls[0])
    else
      assert forall w :: w in walls ==> w == walls[0] || w in walls[1..];
      FirstCrossing(env, ray, walls[1..])
  }

  /** No wall before the one FirstCrossing picks blocks the ray. */
  lemma {:induction false} FirstCrossingIsFirst(env: Env, ray: Ray, walls: seq<Wall>)
    ensures var r := FirstCrossing(env, ray, walls);
      r.Some? ==> exists i :: 0 <= i < |walls| && walls[i] == r.value && forall j :: 0 <= j < i ==> !Blocks(env, ray, walls[j])
  {
    if walls != [] && !Blocks(env, ray, walls[0]) {
      FirstCrossingIsFirst(env, ray, walls[1..]);
      if FirstCrossing(env, ray, walls[1..]).Some? {
        var i :| 0 <= i < |walls[1..]| && walls[1..][i] == FirstCrossing(env, ray, walls).value
          && forall j :: 0 <= j < i ==> !Blocks(env, ray, walls[1..][j]);
        assert walls[i + 1] == FirstCrossing(env, ray, walls).value;
        assert forall j :: 0 <= j < i + 1 ==> !Blocks(env, ray, walls[j]) by {
          forall j | 0 <= j < i + 1
            ensures !Blocks(env, ray, walls[j])
          {
            if j > 0 {
              assert walls[j] == walls[1..][j - 1];
            }
          }
        }
      }
    } else if walls != [] {
      assert walls[0] == FirstCrossing(env, ray, walls).value;
    }
  }

  /** The inner `for wall in walls` loop with its `break`. */
  method FindCollidingWall(env: Env, ray: Ray, walls: seq<Wall>) returns (colliding: Option<Wall>)
    ensures colliding == FirstCrossing(env, ray, walls)
  {
    colliding := None;
    var i := 0;
    while i < |walls|
      invariant 0 <= i <= |walls|
      invariant FirstCrossing(env, ray, walls) == FirstCrossing(env, ray, walls[i..])
    {
      assert walls[i..][1..] == walls[i + 1..];
      if Blocks(env, ray, walls[i]) {
        colliding := Some(walls[i]);
        return;
      }
      i := i + 1;
    }
  }

  /** The ray (origin, i, None, None) that replaces a ray clipped at wall w. */
  function Clip(origin: Point, ray: Ray, w: Wall): (r: Result<Ray>)
    ensures r.Ok? ==> (r.value.start == origin && r.value.begins == None && r.value.ends == None
                       && OnLine(ray.start, ray.end, r.value.end) && OnLine(w.a, w.b, r.value.end))
    ensures r.Err? ==> r.error == ZeroDivisionError
  {
    match Intersection(ray.start, ray.end, w.a, w.b)
    case Err(err) => Err(err)
    case Ok(p) => Ok(Ray(origin, p, None, None))
  }

  /** The collision loop's state: the growing ray list, the colliding rays, and the next index to test. */
  datatype Sweep = Sweep(rays: seq<Ray>, colliding: seq<Ray>, next: nat)

  /** Testing ray s.next: a blocked ray is recorded and its replacement appended to the list. */
  function SweepStep(env: Env, origin: Point, walls: seq<Wall>, s: Sweep): (r: Result<Sweep>)
    requires s.next < |s.rays|
    ensures r.Ok? ==> r.value.next == s.next + 1 && |s.rays| <= |r.value.rays|
    ensures r.Err? ==> r.error == ZeroDivisionError
  {
    var ray := s.rays[s.next];
    match FirstCrossing(env, ray, walls)
    case None => Ok(s.(next := s.next + 1))
    case Some(w) =>
      match Clip(origin, ray, w)
      case Err(err) => Err(err)
      case Ok(replacement) => Ok(Sweep(s.rays + [replacement], s.colliding + [ray], s.next + 1))
  }

  /**
   * The loop `for ray in rays` over a list it appends to, for at most
   * `fuel` more rays; it has finished when next reaches the end of the list.
   */
  function SweepFrom(env: Env, origin: Point, walls: seq<Wall>, s: Sweep, fuel: nat): Result<Sweep>
    requires s.next <= |s.rays|
    decreases fuel
  {
    if s.next == |s.rays| || fuel == 0 then Ok(s)
    else match SweepStep(env, origin, walls, s)
      case Err(err) => Err(err)
      case Ok(t) => SweepFrom(env, origin, walls, t, fuel - 1)
  }

  /** The collision loop of update_light, bounded by `fuel` iterations. */
  method CollideRays(env: Env, origin: Point, walls: seq<Wall>, rays: seq<Ray>, fuel: nat) returns (result: Result<Sweep>)
    ensures result == SweepFrom(env, origin, walls, Sweep(rays, [], 0), fuel)
  {
    var all := rays;
    var colliding: seq<Ray> := [];
    var i := 0;
    var budget := fuel;
    while i < |all| && budget > 0
      invariant i <= |all|
      invariant SweepFrom(env, origin, walls, Sweep(all, colliding, i), budget) == SweepFrom(env, origin, walls, Sweep(rays, [], 0), fuel)
      decreases budget
    {
      var step := TestRay(env, origin, walls, all, colliding, i);
      if step.Err? {
        return Err(step.error);
      }
      all, colliding := step.value.rays, step.value.colliding;
      i := i + 1;
      budget := budget - 1;
    }
    return Ok(Sweep(all, colliding, i));
  }

  /** One pass of the collision loop: test ray i and, when a wall blocks it, queue its clipped replacement. */
  method TestRay(env: Env, origin: Point, walls: seq<Wall>, all: seq<Ray>, colliding: seq<Ray>, i: nat)
    returns (result: Result<Sweep>)
    requires i < |all|
    ensures result == SweepStep(env, origin, walls, Sweep(all, colliding, i))
    ensures result.Ok? ==> result.value.next == i + 1 && |all| <= |result.value.rays|
  {
    var ray := all[i];
    var collidingWall := FindCollidingWall(env, ray, walls);
    if collidingWall.Some? {
      var w := collidingWall.value;
      var p := Intersection(ray.start, ray.end, w.a, w.b);
      if p.Err? {
        return Err(p.error);
      }
      return Ok(Sweep(all + [Ray(origin, p.value, None, None)], colliding + [ray], i + 1));
    }
    return Ok(Sweep(all, colliding, i + 1));
  }

  /**
   * What the collision loop keeps true: the cast rays stay first, every
   * colliding ray was blocked and its clipped replacement sits at the
   * matching place after them, and every tested ray that a wall blocks
   * is recorded as colliding.
   */
  predicate SweepInvariant(env: Env, origin: Point, walls: seq<Wall>, cast: seq<Ray>, s: Sweep) {
    && |s.rays| == |cast| + |s.colliding|
    && s.rays[..|cast|] == cast
    && s.next <= |s.rays|
    && (forall k :: 0 <= k < |s.colliding| ==>
          && s.colliding[k] in s.rays[..s.next]
          && FirstCrossing(env, s.colliding[k], walls).Some?
          && Clip(origin, s.colliding[k], FirstCrossing(env, s.colliding[k], walls).value) == Ok(s.rays[|cast| + k]))
    && (forall j :: 0 <= j < s.next && FirstCrossing(env, s.rays[j], walls).Some? ==> s.rays[j] in s.colliding)
  }

  lemma SweepStepKeeps(env: Env, origin: Point, walls: seq<Wall>, cast: seq<Ray>, s: Sweep)
    requires SweepInvariant(env, origin, walls, cast, s) && s.next < |s.rays|
    requires SweepStep(env, origin, walls, s).Ok?
    ensures SweepInvariant(env, origin, walls, cast, SweepStep(env, origin, walls, s).value)
  {
    var ray := s.rays[s.next];
    match FirstCrossing(env, ray, walls)
    case None => PassKeeps(env, origin, walls, cast, s);
    case Some(w) =>
      var replacement := Clip(origin, ray, w).value;
      ClipKeeps(env, origin, walls, cast, s, replacement);
  }

  /** A ray no wall crosses is passed over, and the invariant still holds. */
  lemma PassKeeps(env: Env, origin: Point, walls: seq<Wall>, cast: seq<Ray>, s: Sweep)
    requires SweepInvariant(env, origin, walls, cast, s) && s.next < |s.rays|
    requires FirstCrossing(env, s.rays[s.next], walls).None?
    ensures SweepInvariant(env, origin, walls, cast, s.(next := s.next + 1))
  {
    var t := s.(next := s.next + 1);
    assert t.rays[..t.next] == s.rays[..s.next] + [s.rays[s.next]];
    forall k | 0 <= k < |t.colliding|
      ensures t.colliding[k] in t.rays[..t.next]
    {
      assert s.colliding[k] in s.rays[..s.next];
    }
    forall j | 0 <= j < t.next && FirstCrossing(env, t.rays[j], walls).Some?
      ensures t.rays[j] in t.colliding
    {
      assert j < s.next;
    }
  }

  /** A crossed ray is recorded as colliding and its clipped replacement appended. */
  lemma ClipKeeps(env: Env, origin: Point, walls: seq<Wall>, cast: seq<Ray>, s: Sweep, replacement: Ray)
    requires SweepInvariant(env, origin, walls, cast, s) && s.next < |s.rays|
    requires FirstCrossing(env, s.rays[s.next], walls).Some?
    requires Clip(origin, s.rays[s.next], FirstCrossing(env, s.rays[s.next], walls).value) == Ok(replacement)
    ensures SweepInvariant(env, origin, walls, cast, Sweep(s.rays + [replacement], s.colliding + [s.rays[s.next]], s.next + 1))
  {
    var ray := s.rays[s.next];
    var t := Sweep(s.rays + [replacement], s.colliding + [ray], s.next + 1);
    assert t.rays[..t.next] == s.rays[..s.next] + [ray];
    assert t.rays[..|cast|] == s.rays[..|cast|];
    forall k | 0 <= k < |t.colliding|
      ensures t.colliding[k] in t.rays[..t.next]
      ensures FirstCrossing(env, t.colliding[k], walls).Some?
      ensures Clip(origin, t.colliding[k], FirstCrossing(env, t.colliding[k], walls).value) == Ok(t.rays[|cast| + k])
    {
      if k < |s.colliding| {
        assert t.colliding[k] == s.colliding[k];
        assert t.rays[|cast| + k] == s.rays[|cast| + k];
        assert s.colliding[k] in s.rays[..s.next];
      } else {
        assert t.colliding[k] == ray;
        assert t.rays[|cast| + k] == replacement;
      }
    }
    forall j | 0 <= j < t.next && FirstCrossing(env, t.rays[j], walls).Some?
      ensures t.rays[j] in t.colliding
    {
      if j < s.next {
        assert t.rays[j] == s.rays[j];
        assert s.rays[j] in s.colliding;
      } else {
        assert t.rays[j] == ray == t.colliding[|s.colliding|];
      }
    }
  }

  lemma {:induction false} SweepFromKeeps(env: Env, origin: Point, walls: seq<Wall>, cast: seq<Ray>, s: Sweep, fuel: nat)
    requires SweepInvariant(env, origin, walls, cast, s)
    ensures var r := SweepFrom(env, origin, walls, s, fuel);
      (r.Ok? ==> SweepInvariant(env, origin, walls, cast, r.value)) && (r.Err? ==> r.error == ZeroDivisionError)
    decreases fuel
  {
    if s.next < |s.rays| && fuel > 0 && SweepStep(env, origin, walls, s).Ok? {
      SweepStepKeeps(env, origin, walls, cast, s);
      SweepFromKeeps(env, origin, walls, cast, SweepStep(env, origin, walls, s).value, fuel - 1);
    }
  }

  /**
   * The collision loop raises only ZeroDivisionError. When it runs to the
   * end of the list, a ray is recorded as colliding exactly when a wall
   * other than its own crosses it, and each colliding ray has its clipped
   * replacement, in order, after the cast rays.
   */
  lemma CollideRaysSpec(env: Env, origin: Point, walls: seq<Wall>, rays: seq<Ray>, fuel: nat)
    ensures var r := SweepFrom(env, origin, walls, Sweep(rays, [], 0), fuel);
      && (r.Err? ==> r.error == ZeroDivisionError)
      && (r.Ok? ==> SweepInvariant(env, origin, walls, rays, r.value))
      && (r.Ok? && r.value.next == |r.value.rays| ==>
            forall x :: x in r.value.rays ==> (x in r.value.colliding <==> FirstCrossing(env, x, walls).Some?))
  {
    assert rays[..|rays|] == rays;
    SweepFromKeeps(env, origin, walls, rays, Sweep(rays, [], 0), fuel);
    var r := SweepFrom(env, origin, walls, Sweep(rays, [], 0), fuel);
    if r.Ok? && r.value.next == |r.value.rays| {
      var s := r.value;
      forall x | x in s.rays
        ensures x in s.colliding <==> FirstCrossing(env, x, walls).Some?
      {
        if x in s.colliding {
          var k :| 0 <= k < |s.colliding| && s.colliding[k] == x;
        }
      }
    }
  }

  // -----------------------------------------------------------------------
  // Light.update_light and the Light object
  // -----------------------------------------------------------------------

  /** The centroid of a wall's line: its midpoint. */
  function Centroid(w: Wall): Point {
    Point((w.a.x + w.b.x) / 2.0, (w.a.y + w.b.y) / 2.0)
  }

  function EndpointAngle(trig: Trig, origin: Point): Endpoint -> real {
    (e: Endpoint) => trig.angle(origin, e.position)
  }

  function CentroidDistance(trig: Trig, origin: Point): Wall -> real {
    (w: Wall) => trig.distance(Centroid(w), origin)
  }

  function RayAngle(trig: Trig, origin: Point): Ray -> real {
    (r: Ray) => trig.angle(origin, r.end)
  }

  function NotColliding(colliding: seq<Ray>): Ray -> bool {
    (r: Ray) => r !in colliding
  }

  /** The sweep update_light runs once the endpoints are sorted: cast from them, collide with the walls nearest first. */
  function LightSweep(env: Env, origin: Point, power: real, walls: seq<Wall>, endpoints: seq<Endpoint>, fuel: nat): Result<Sweep> {
    match CastRaysOf(env, walls, endpoints, origin, power)
    case Err(err) => Err(err)
    case Ok(rays) => SweepFrom(env, origin, SortByKey(walls, CentroidDistance(env.trig, origin)), Sweep(rays, [], 0), fuel)
  }

  /** self.rays after update_light: the rays equal to no colliding ray, by angle of their ends. */
  function FinalRays(trig: Trig, origin: Point, s: Sweep): seq<Ray> {
    SortByKey(Filter(s.rays, NotColliding(s.colliding)), RayAngle(trig, origin))
  }

  function RayEnds(rays: seq<Ray>): (r: seq<Point>)
    ensures |r| == |rays|
    ensures forall i :: 0 <= i < |rays| ==> r[i] == rays[i].end
  {
    seq(|rays|, i requires 0 <= i < |rays| => rays[i].end)
  }

  /** How update_light ended: it assigned the polygon, raised, or had not left the loop when the fuel ran out. */
  datatype Outcome = Updated | Raised(error: Error) | OutOfFuel

  /** The rays and polygon an update leaves behind, given the sweep it ran. */
  predicate Settled(r: Result<Sweep>, trig: Trig, origin: Point, outcome: Outcome,
                    rays: seq<Ray>, polygon: seq<Point>, oldRays: seq<Ray>, oldPolygon: seq<Point>) {
    match r
    case Err(e) => outcome == Raised(e) && rays == oldRays && polygon == oldPolygon
    case Ok(s) =>
      if s.next < |s.rays| then outcome == OutOfFuel && rays == oldRays && polygon == oldPolygon
      else outcome == Updated && rays == FinalRays(trig, origin, s) && polygon == RayEnds(rays)
  }

  /**
   * The polygon update_light assigns runs round the light by increasing
   * angle, and every ray behind it crosses none of the walls except its own.
   */
  lemma FinalRaysSpec(env: Env, origin: Point, walls: seq<Wall>, cast: seq<Ray>, fuel: nat)
    ensures var r := SweepFrom(env, origin, walls, Sweep(cast, [], 0), fuel);
      r.Ok? && r.value.next == |r.value.rays| ==>
        var fin := FinalRays(env.trig, origin, r.value);
        && (forall i, j :: 0 <= i < j < |fin| ==> env.trig.angle(origin, RayEnds(fin)[i]) <= env.trig.angle(origin, RayEnds(fin)[j]))
        && (forall x :: x in fin ==> x in r.value.rays && forall w :: w in walls ==> !Blocks(env, x, w))
  {
    var r := SweepFrom(env, origin, walls, Sweep(cast, [], 0), fuel);
    if r.Ok? && r.value.next == |r.value.rays| {
      var s := r.value;
      CollideRaysSpec(env, origin, walls, cast, fuel);
      var kept := Filter(s.rays, NotColliding(s.colliding));
      var fin := FinalRays(env.trig, origin, s);
      forall i, j | 0 <= i < j < |fin|
        ensures env.trig.angle(origin, RayEnds(fin)[i]) <= env.trig.angle(origin, RayEnds(fin)[j])
      {
        assert RayAngle(env.trig, origin)(fin[i]) <= RayAngle(env.trig, origin)(fin[j]);
      }
      forall x | x in fin
        ensures x in s.rays && forall w :: w in walls ==> !Blocks(env, x, w)
      {
        assert x in multiset(kept);
        FilterMembers(s.rays, NotColliding(s.colliding), x);
      }
    }
  }

  /** The casting and collision phases of update_light, on already sorted endpoints. */
  method RunSweep(env: Env, origin: Point, power: real, walls: seq<Wall>, sorted: seq<Endpoint>, fuel: nat)
    returns (r: Result<Sweep>)
    ensures r == LightSweep(env, origin, power, walls, sorted, fuel)
  {
    var cast := CastRays(env, walls, sorted, origin, power);
    if cast.Err? {
      return Err(cast.error);
    }
    var sortedWalls := SortByKey(walls, CentroidDistance(env.trig, origin));
    r := CollideRays(env, origin, sortedWalls, cast.value, fuel);
  }

  /** A light of lighting.py (its id, height, color, arc and debug flag only feed drawing). */
  class Light {
    var origin: Point
    var power: real
    var obstacles: seq<seq<Point>>
    /** self.walls: the dict's walls in insertion order; WallById looks one up. */
    var walls: seq<Wall>
    var endpoints: seq<Endpoint>
    var rays: seq<Ray>
    var lightPolygon: seq<Point>

    /** The fields Light.__init__ sets before it calls find_walls. */
    constructor(x: real, y: real, power: real, obstacles: seq<seq<Point>>)
      ensures origin == Point(x, y) && this.power == power && this.obstacles == obstacles
      ensures walls == [] && endpoints == [] && rays == [] && lightPolygon == []
    {
      origin := Point(x, y);
      this.power := power;
      this.obstacles := obstacles;
      walls := [];
      endpoints := [];
      rays := [];
      lightPolygon := [];
    }

    /**
     * Light.find_walls: numbers the border and obstacle walls with
     * new_id(Wall) and builds the endpoints; an obstacle with no points
     * raises IndexError before anything changes.
     */
    method FindWalls(wallIds: Ids.Category, endpointIds: Ids.Category) returns (raised: Option<Error>)
      requires wallIds != endpointIds
      requires wallIds.count.Some? && endpointIds.count.Some?
      modifies this, wallIds, endpointIds
      ensures unchanged(this`origin, this`power, this`obstacles, this`rays, this`lightPolygon)
      ensures var segs := WallSegments(obstacles);
        && (segs.Err? ==> raised == Some(segs.error) && unchanged(this`walls, this`endpoints, wallIds, endpointIds))
        && (segs.Ok? ==>
              && raised == None
              && walls == Numbered(segs.value, old(wallIds.count.value))
              && endpoints == EndpointsOf(walls, old(endpointIds.count.value))
              && wallIds.count == Some(old(wallIds.count.value) + |segs.value|)
              && endpointIds.count == Some(old(endpointIds.count.value) + |Positions(walls)|))
    {
      var segs := CollectSegments(obstacles);
      if segs.Err? {
        return Some(segs.error);
      }
      var numbered := NumberWalls(segs.value, wallIds);
      endpoints := FindEndpoints(numbered, endpointIds);
      walls := numbered;
      raised := None;
    }

    /** Light.__init__: the fields, then find_walls, whose exception escapes the constructor call. */
    static method Create(x: real, y: real, power: real, obstacles: seq<seq<Point>>,
                         wallIds: Ids.Category, endpointIds: Ids.Category) returns (r: Result<Light>)
      requires wallIds != endpointIds
      requires wallIds.count.Some? && endpointIds.count.Some?
      modifies wallIds, endpointIds
      ensures WallSegments(obstacles).Err? ==> r == Err(IndexError) && unchanged(wallIds, endpointIds)
      ensures WallSegments(obstacles).Ok? ==> r.Ok?
      ensures r.Ok? ==>
        && fresh(r.value)
        && r.value.origin == Point(x, y) && r.value.power == power && r.value.obstacles == obstacles
        && r.value.rays == [] && r.value.lightPolygon == []
        && wallIds.count == Some(old(wallIds.count.value) + |WallSegments(obstacles).value|)
        && endpointIds.count == Some(old(endpointIds.count.value) + |Positions(r.value.walls)|)
        && r.value.walls == Numbered(WallSegments(obstacles).value, old(wallIds.count.value))
        && r.value.endpoints == EndpointsOf(r.value.walls, old(endpointIds.count.value))
    {
      var light := new Light(x, y, power, obstacles);
      var raised := light.FindWalls(wallIds, endpointIds);
      if raised.Some? {
        return Err(raised.value);
      }
      return Ok(light);
    }

    /**
     * Light.update_light, with the collision loop bounded by `fuel`: the
     * endpoints are sorted by angle in place; then either the rays and the
     * light polygon are replaced, or an exception or the exhausted fuel
     * leaves them as they were.
     */
    method UpdateLight(env: Env, fuel: nat) returns (outcome: Outcome)
      modifies this`endpoints, this`rays, this`lightPolygon
      ensures endpoints == SortByKey(old(endpoints), EndpointAngle(env.trig, origin))
      ensures Settled(LightSweep(env, origin, power, walls, endpoints, fuel), env.trig, origin, outcome,
                      rays, lightPolygon, old(rays), old(lightPolygon))
    {
      endpoints := SortByKey(endpoints, EndpointAngle(env.trig, origin));
      outcome := Relight(env, fuel);
    }

    /** The part of update_light after the endpoints are sorted. */
    method Relight(env: Env, fuel: nat) returns (outcome: Outcome)
      modifies this`rays, this`lightPolygon
      ensures Settled(LightSweep(env, origin, power, walls, endpoints, fuel), env.trig, origin, outcome,
                      rays, lightPolygon, old(rays), old(lightPolygon))
    {
      var r := RunSweep(env, origin, power, walls, endpoints, fuel);
      match r {
        case Err(e) =>
          outcome := Raised(e);
        case Ok(sweep) =>
          if sweep.next < |sweep.rays| {
            outcome := OutOfFuel;
          } else {
            rays := FinalRays(env.trig, origin, sweep);
            lightPolygon := RayEnds(rays);
            outcome := Updated;
          }
      }
    }
  }
}
