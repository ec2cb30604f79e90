// Occlusion in geometry.Light: the walls are ordered nearest first, every
// ray is tested against the walls it may cross, and rays that are blocked
// are dropped or clipped at the wall (sort_walls, filter_rays and
// collide_rays_w_walls).

module Occlusion {
  import opened Common
  import opened Geometry
  import opened Walls

  /** A ray (origin, end): a Python 2-tuple of points. */
  datatype Ray = Ray(start: Point, end: Point)

  // -----------------------------------------------------------------------
  // Wall order (Light.calculate_walls_centers and Light.sort_walls)
  // -----------------------------------------------------------------------

  /** The entry of walls_centers: half the wall's length along its direction from its start. */
  function WallCenter(trig: Trig, w: Wall): Point {
    var halfLength := trig.distance(w.a, w.b) / 2.0;
    var direction := trig.angle(w.a, w.b);
    MoveAlongVector(trig, w.a, halfLength, None, Some(-direction)).value
  }

  /** Light.calculate_walls_centers: each wall, keyed to its center. */
  method CalculateWallsCenters(trig: Trig, ws: seq<Wall>) returns (centers: map<Wall, Point>)
    ensures forall w :: w in centers <==> w in ws
    ensures forall w :: w in centers ==> centers[w] == WallCenter(trig, w)
  {
    centers := map[];
    for i := 0 to |ws|
      invariant forall w :: w in centers <==> w in ws[..i]
      invariant forall w :: w in centers ==> centers[w] == WallCenter(trig, w)
    {
      assert ws[..i + 1] == ws[..i] + [ws[i]];
      centers := centers[ws[i] := WallCenter(trig, ws[i])];
    }
    assert ws[..|ws|] == ws;
  }

  /** The sort key of sort_walls: distance from the origin to the wall's center. */
  function WallDistance(trig: Trig, origin: Point): Wall -> real {
    w => trig.distance(origin, WallCenter(trig, w))
  }

  function NotBorder(borderWalls: seq<Wall>): Wall -> bool {
    w => w !in borderWalls
  }

  function IsBorder(borderWalls: seq<Wall>): Wall -> bool {
    w => w in borderWalls
  }

  /**
   * Light.sort_walls: a stable sort by distance, then a stable sort by the
   * key "is a border wall" (False before True), which keeps the distance
   * order within the obstacle walls and within the border walls.
   */
  function SortWalls(trig: Trig, origin: Point, walls: seq<Wall>, borderWalls: seq<Wall>): (r: seq<Wall>)
  {
    var byDistance := SortByKey(walls, WallDistance(trig, origin));
    Filter(byDistance, NotBorder(borderWalls)) + Filter(byDistance, IsBorder(borderWalls))
  }

  /** sort_walls returns the same walls, in another order. */
  lemma SortWallsPermutation(trig: Trig, origin: Point, walls: seq<Wall>, borderWalls: seq<Wall>)
    ensures multiset(SortWalls(trig, origin, walls, borderWalls)) == multiset(walls)
  {
    var byDistance := SortByKey(walls, WallDistance(trig, origin));
    FilterPartition(byDistance, NotBorder(borderWalls), IsBorder(borderWalls));
  }

  /** sort_walls puts no border wall before an obstacle wall. */
  lemma SortWallsBorderLast(trig: Trig, origin: Point, walls: seq<Wall>, borderWalls: seq<Wall>)
    ensures var r := SortWalls(trig, origin, walls, borderWalls);
      forall i, j :: 0 <= i < j < |r| && r[i] in borderWalls ==> r[j] in borderWalls
  {
    var byDistance := SortByKey(walls, WallDistance(trig, origin));
    var front := Filter(byDistance, NotBorder(borderWalls));
    var back := Filter(byDistance, IsBorder(borderWalls));
    var r := front + back;
    SplitAtBorder(front, back, borderWalls);
  }

  /** The obstacle walls come first, then the border walls. */
  lemma SplitAtBorder(front: seq<Wall>, back: seq<Wall>, borderWalls: seq<Wall>)
    requires forall k :: 0 <= k < |front| ==> NotBorder(borderWalls)(front[k])
    requires forall k :: 0 <= k < |back| ==> IsBorder(borderWalls)(back[k])
    ensures forall k :: 0 <= k < |front| ==> (front + back)[k] !in borderWalls
    ensures forall k :: |front| <= k < |front + back| ==> (front + back)[k] in borderWalls
  {
    forall k | |front| <= k < |front + back|
      ensures (front + back)[k] in borderWalls
    {
      assert (front + back)[k] == back[k - |front|];
    }
  }

  /** Within the obstacle walls and within the border walls, sort_walls is nearest first. */
  lemma SortWallsGroupsSorted(trig: Trig, origin: Point, walls: seq<Wall>, borderWalls: seq<Wall>)
    ensures var r := SortWalls(trig, origin, walls, borderWalls);
      forall i, j :: 0 <= i < j < |r| && (r[i] in borderWalls <==> r[j] in borderWalls) ==>
        WallDistance(trig, origin)(r[i]) <= WallDistance(trig, origin)(r[j])
  {
    var key := WallDistance(trig, origin);
    var byDistance := SortByKey(walls, key);
    var front := Filter(byDistance, NotBorder(borderWalls));
    var back := Filter(byDistance, IsBorder(borderWalls));
    FilterSorted(byDistance, NotBorder(borderWalls), key);
    FilterSorted(byDistance, IsBorder(borderWalls), key);
    SplitAtBorder(front, back, borderWalls);
    GroupsSorted(front, back, borderWalls, key);
  }

  lemma GroupsSorted(front: seq<Wall>, back: seq<Wall>, borderWalls: seq<Wall>, key: Wall -> real)
    requires SortedBy(front, key) && SortedBy(back, key)
    requires forall k :: 0 <= k < |front| ==> (front + back)[k] !in borderWalls
    requires forall k :: |front| <= k < |front + back| ==> (front + back)[k] in borderWalls
    ensures var r := front + back;
      forall i, j :: 0 <= i < j < |r| && (r[i] in borderWalls <==> r[j] in borderWalls) ==> key(r[i]) <= key(r[j])
  {
    var r := front + back;
    forall i, j | 0 <= i < j < |r| && (r[i] in borderWalls <==> r[j] in borderWalls)
      ensures key(r[i]) <= key(r[j])
    {
      if j < |front| {
        assert r[i] == front[i] && r[j] == front[j];
      } else if i >= |front| {
        assert r[i] == back[i - |front|] && r[j] == back[j - |front|];
      }
    }
  }

  // -----------------------------------------------------------------------
  // The per-wall ray filter (Light.filter_rays)
  // -----------------------------------------------------------------------

  /** A ray is tested against a wall when its end is ccw of origin->wall.b and not of origin->wall.a. */
  predicate PassesFilter(origin: Point, wall: Wall, ray: Ray) {
    Ccw(origin, wall.b, ray.end) && !Ccw(origin, wall.a, ray.end)
  }

  function FilterRays(origin: Point, rays: seq<Ray>, wall: Wall): seq<Ray> {
    Filter(rays, r => PassesFilter(origin, wall, r))
  }

  /** Light.filter_rays keeps exactly the rays passing the test, and never a ray to the wall's own end. */
  lemma FilterRaysSpec(origin: Point, rays: seq<Ray>, wall: Wall, ray: Ray)
    ensures ray in FilterRays(origin, rays, wall) <==> ray in rays && PassesFilter(origin, wall, ray)
    ensures ray.end == wall.b ==> ray !in FilterRays(origin, rays, wall)
  {
    FilterMembers(rays, r => PassesFilter(origin, wall, r), ray);
    CollinearIsNotCcw(origin, wall.b, 1.0);
    assert Along(origin, wall.b, 1.0) == wall.b;
  }

  // -----------------------------------------------------------------------
  // Collisions (Light.collide_rays_w_walls)
  // -----------------------------------------------------------------------

  /** What collide_rays_w_walls reads besides its rays and walls. */
  datatype Scene = Scene(
    trig: Trig,
    origin: Point,
    corners: seq<Point>,
    openWalls: map<Point, Wall>,
    closeWalls: map<Point, Wall>)

  /** The set `colliding` and the list `offset_rays` of the loop. */
  datatype Collisions = Collisions(colliding: set<Ray>, offsets: seq<Ray>)

  /** intersects(ray, wall) or intersects(wall, ray). */
  predicate CrossesEither(trig: Trig, ray: Ray, wall: Wall) {
    Intersects(trig, ray.start, ray.end, wall.a, wall.b) || Intersects(trig, wall.a, wall.b, ray.start, ray.end)
  }

  /**
   * The wall stops the ray: the segments meet, and for a ray shot at a
   * corner the wall is neither of the corner's two walls.
   */
  predicate Hits(sc: Scene, ray: Ray, wall: Wall) {
    && CrossesEither(sc.trig, ray, wall)
    && (ray.end in sc.corners ==>
          && ray.end in sc.openWalls && ray.end in sc.closeWalls
          && wall != sc.openWalls[ray.end] && wall != sc.closeWalls[ray.end])
  }

  /** A ray that passes the wall's filter and is stopped by it. */
  predicate Blocks(sc: Scene, ray: Ray, wall: Wall) {
    PassesFilter(sc.origin, wall, ray) && Hits(sc, ray, wall)
  }

  /** One visit of the inner loop body, for a ray the filter let through. */
  function Visit(sc: Scene, st: Collisions, ray: Ray, wall: Wall): Result<Collisions> {
    if ray in st.colliding then Ok(st)
    else if ray.end in sc.corners && (ray.end !in sc.openWalls || ray.end !in sc.closeWalls) then Err(KeyError)
    else if !CrossesEither(sc.trig, ray, wall) then Ok(st)
    else if ray.end !in sc.corners then
      match Intersection(ray.start, ray.end, wall.a, wall.b)
      case Err(e) => Err(e)
      case Ok(p) => Ok(Collisions(st.colliding + {ray}, st.offsets + [Ray(sc.origin, p)]))
    else if wall != sc.openWalls[ray.end] && wall != sc.closeWalls[ray.end] then
      Ok(st.(colliding := st.colliding + {ray}))
    else Ok(st)
  }

  /** The inner loop over the filtered rays of one wall. */
  function VisitRays(sc: Scene, st: Collisions, rays: seq<Ray>, wall: Wall): Result<Collisions>
    decreases |rays|
  {
    if rays == [] then Ok(st)
    else
      match Visit(sc, st, rays[0], wall)
      case Err(e) => Err(e)
      case Ok(next) => VisitRays(sc, next, rays[1..], wall)
  }

  /** The outer loop over the walls. */
  function VisitWalls(sc: Scene, st: Collisions, rays: seq<Ray>, walls: seq<Wall>): Result<Collisions>
    decreases |walls|
  {
    if walls == [] then Ok(st)
    else
      match VisitRays(sc, st, FilterRays(sc.origin, rays, walls[0]), walls[0])
      case Err(e) => Err(e)
      case Ok(next) => VisitWalls(sc, next, rays, walls[1..])
  }

  function NotIn(colliding: set<Ray>): Ray -> bool {
    r => r !in colliding
  }

  /** The value of collide_rays_w_walls: surviving rays in order, then the clipped replacements. */
  function CollideRaysWithWalls(sc: Scene, rays: seq<Ray>, walls: seq<Wall>): Result<seq<Ray>> {
    match VisitWalls(sc, Collisions({}, []), rays, walls)
    case Err(e) => Err(e)
    case Ok(st) => Ok(Filter(rays, NotIn(st.colliding)) + st.offsets)
  }

  /** Light.collide_rays_w_walls. */
  method CollideRays(sc: Scene, rays: seq<Ray>, walls: seq<Wall>) returns (result: Result<seq<Ray>>)
    ensures result == CollideRaysWithWalls(sc, rays, walls)
  {
    ghost var total := VisitWalls(sc, Collisions({}, []), rays, walls);
    var colliding: set<Ray> := {};
    var offsetRays: seq<Ray> := [];
    for j := 0 to |walls|
      invariant VisitWalls(sc, Collisions(colliding, offsetRays), rays, walls[j..]) == total
    {
      var wall := walls[j];
      var candidates := FilterRays(sc.origin, rays, wall);
      assert walls[j..][0] == wall && walls[j..][1..] == walls[j + 1..];
      for k := 0 to |candidates|
        invariant Then(sc, VisitRays(sc, Collisions(colliding, offsetRays), candidates[k..], wall), rays, walls[j + 1..]) == total
      {
        var ray := candidates[k];
        assert candidates[k..][0] == ray && candidates[k..][1..] == candidates[k + 1..];
        var next := VisitRay(sc, colliding, offsetRays, ray, wall);
        if next.Err? {
          return Err(next.error);
        }
        colliding, offsetRays := next.value.colliding, next.value.offsets;
      }
    }
    return Ok(Filter(rays, NotIn(colliding)) + offsetRays);
  }

  /** The body of the inner loop of collide_rays_w_walls, for one filtered ray. */
  method VisitRay(sc: Scene, colliding: set<Ray>, offsetRays: seq<Ray>, ray: Ray, wall: Wall)
    returns (result: Result<Collisions>)
    ensures result == Visit(sc, Collisions(colliding, offsetRays), ray, wall)
  {
    if ray in colliding {
      return Ok(Collisions(colliding, offsetRays));
    }
    var rayEndPoint := ray.end;
    var isCorner := rayEndPoint in sc.corners;
    if isCorner && (rayEndPoint !in sc.openWalls || rayEndPoint !in sc.closeWalls) {
      return Err(KeyError);
    }
    result := Ok(Collisions(colliding, offsetRays));
    if CrossesEither(sc.trig, ray, wall) {
      if !isCorner {
        var newRayEnd := Intersection(ray.start, ray.end, wall.a, wall.b);
        if newRayEnd.Err? {
          return Err(newRayEnd.error);
        }
        result := Ok(Collisions(colliding + {ray}, offsetRays + [Ray(sc.origin, newRayEnd.value)]));
      } else if wall != sc.openWalls[rayEndPoint] && wall != sc.closeWalls[rayEndPoint] {
        result := Ok(Collisions(colliding + {ray}, offsetRays));
      }
    }
  }

  /** The rest of the outer loop after the inner loop produced r. */
  function Then(sc: Scene, r: Result<Collisions>, rays: seq<Ray>, walls: seq<Wall>): Result<Collisions> {
    match r
    case Err(e) => Err(e)
    case Ok(st) => VisitWalls(sc, st, rays, walls)
  }

  // -----------------------------------------------------------------------
  // What the collision pass computes
  // -----------------------------------------------------------------------

  /** The rays of rs that the wall stops. */
  function HitSet(sc: Scene, rs: seq<Ray>, wall: Wall): set<Ray> {
    set r | r in rs && Hits(sc, r, wall)
  }

  /** The rays stopped by some wall: exactly the rays collide_rays_w_walls drops. */
  function BlockedRays(sc: Scene, rays: seq<Ray>, walls: seq<Wall>): set<Ray> {
    set r | r in rays && exists w :: w in walls && Blocks(sc, r, w)
  }

  /** The colliding rays shot at no corner: the ones that get a clipped replacement. */
  function Clipped(sc: Scene, colliding: set<Ray>): set<Ray> {
    set r | r in colliding && r.end !in sc.corners
  }

  /** The first wall of `walls`, in their order, that blocks the ray. */
  function FirstBlocker(sc: Scene, ray: Ray, walls: seq<Wall>): (r: Option<Wall>)
    ensures r.Some? ==> r.value in walls && Blocks(sc, ray, r.value)
    ensures r.None? ==> forall w :: w in walls ==> !Blocks(sc, ray, w)
    decreases |walls|
  {
    if walls == [] then None
    else if Blocks(sc, ray, walls[0]) then Some(walls[0])
    else
      assert forall w :: w in walls ==> w == walls[0] || w in walls[1..];
      FirstBlocker(sc, ray, walls[1..])
  }

  /** A wall that blocks the ray after no earlier wall did is its first blocker. */
  lemma {:induction false} FirstBlockerAt(sc: Scene, ray: Ray, walls: seq<Wall>, j: int)
    requires 0 <= j < |walls| && Blocks(sc, ray, walls[j])
    requires forall w :: w in walls[..j] ==> !Blocks(sc, ray, w)
    ensures FirstBlocker(sc, ray, walls) == Some(walls[j])
    decreases j
  {
    if j > 0 {
      assert walls[0] in walls[..j];
      var rest := walls[1..];
      assert rest[j - 1] == walls[j];
      forall w | w in rest[..j - 1]
        ensures !Blocks(sc, ray, w)
      {
        var k :| 0 <= k < j - 1 && rest[..j - 1][k] == w;
        assert w == walls[..j][k + 1];
      }
      FirstBlockerAt(sc, ray, rest, j - 1);
    }
  }

  /** `o` replaces the ray: from the origin to where the ray's line meets its first blocking wall. */
  predicate ClippedAt(sc: Scene, walls: seq<Wall>, ray: Ray, o: Ray) {
    var first := FirstBlocker(sc, ray, walls);
    && first.Some?
    && o.start == sc.origin
    && Intersection(ray.start, ray.end, first.value.a, first.value.b) == Ok(o.end)
  }

  /**
   * `order` lists the clipped rays of `colliding`, each once, and
   * offsets[i] replaces order[i].
   */
  ghost predicate ClipOrder(sc: Scene, walls: seq<Wall>, colliding: set<Ray>, offsets: seq<Ray>, order: seq<Ray>) {
    && |order| == |offsets|
    && NoDuplicates(order)
    && (forall r :: r in order <==> r in Clipped(sc, colliding))
    && (forall i :: 0 <= i < |order| ==> ClippedAt(sc, walls, order[i], offsets[i]))
  }

  /** The replacements are the clipped rays of `colliding`, each cut once at its first blocking wall. */
  ghost predicate Clips(sc: Scene, walls: seq<Wall>, colliding: set<Ray>, offsets: seq<Ray>) {
    exists order :: ClipOrder(sc, walls, colliding, offsets, order)
  }

  /** One replacement per clipped ray: none is clipped twice. */
  predicate Counted(sc: Scene, st: Collisions) {
    |st.offsets| == |Clipped(sc, st.colliding)|
  }

  /**
   * The effect of one visit: the ray joins `colliding` exactly when the
   * wall hits it, and a ray clipped here is clipped at its first blocker.
   */
  lemma VisitSpec(sc: Scene, st: Collisions, ray: Ray, wall: Wall, walls: seq<Wall>)
    requires Visit(sc, st, ray, wall).Ok?
    requires ray !in st.colliding && Hits(sc, ray, wall) ==> FirstBlocker(sc, ray, walls) == Some(wall)
    ensures var next := Visit(sc, st, ray, wall).value;
      && next.colliding == st.colliding + (if Hits(sc, ray, wall) then {ray} else {})
      && (Counted(sc, st) ==> Counted(sc, next))
      && (Clips(sc, walls, st.colliding, st.offsets) ==> Clips(sc, walls, next.colliding, next.offsets))
  {
    var next := Visit(sc, st, ray, wall).value;
    if ray in st.colliding || !Hits(sc, ray, wall) {
      assert next.offsets == st.offsets;
      assert next.colliding == st.colliding + (if Hits(sc, ray, wall) then {ray} else {});
    } else if ray.end !in sc.corners {
      var p := Intersection(ray.start, ray.end, wall.a, wall.b).value;
      assert next == Collisions(st.colliding + {ray}, st.offsets + [Ray(sc.origin, p)]);
      ClippedAdd(sc, st.colliding, ray);
      ClipsAdd(sc, walls, st.colliding, st.offsets, ray, Ray(sc.origin, p));
    } else {
      assert next == st.(colliding := st.colliding + {ray});
      assert Clipped(sc, next.colliding) == Clipped(sc, st.colliding);
      if Clips(sc, walls, st.colliding, st.offsets) {
        var order :| ClipOrder(sc, walls, st.colliding, st.offsets, order);
        assert ClipOrder(sc, walls, next.colliding, next.offsets, order);
      }
    }
  }

  lemma ClippedAdd(sc: Scene, colliding: set<Ray>, ray: Ray)
    requires ray !in colliding && ray.end !in sc.corners
    ensures |Clipped(sc, colliding + {ray})| == |Clipped(sc, colliding)| + 1
  {
    assert Clipped(sc, colliding + {ray}) == Clipped(sc, colliding) + {ray};
  }

  lemma ClipsAdd(sc: Scene, walls: seq<Wall>, colliding: set<Ray>, offsets: seq<Ray>, ray: Ray, o: Ray)
    requires ray !in colliding && ray.end !in sc.corners
    requires ClippedAt(sc, walls, ray, o)
    ensures Clips(sc, walls, colliding, offsets) ==> Clips(sc, walls, colliding + {ray}, offsets + [o])
  {
    if Clips(sc, walls, colliding, offsets) {
      var order :| ClipOrder(sc, walls, colliding, offsets, order);
      var more := order + [ray];
      assert Clipped(sc, colliding + {ray}) == Clipped(sc, colliding) + {ray};
      forall i | 0 <= i < |more|
        ensures ClippedAt(sc, walls, more[i], (offsets + [o])[i])
      {
        if i < |order| {
          assert more[i] == order[i];
        }
      }
      assert ClipOrder(sc, walls, colliding + {ray}, offsets + [o], more);
    }
  }

  /** The inner loop adds to `colliding` the rays the wall hits, and keeps the replacements accounted for. */
  lemma {:induction false} VisitRaysSpec(sc: Scene, st: Collisions, rs: seq<Ray>, wall: Wall, walls: seq<Wall>)
    requires VisitRays(sc, st, rs, wall).Ok?
    requires forall r :: r in rs && r !in st.colliding && Hits(sc, r, wall) ==> FirstBlocker(sc, r, walls) == Some(wall)
    ensures var next := VisitRays(sc, st, rs, wall).value;
      && next.colliding == st.colliding + HitSet(sc, rs, wall)
      && (Counted(sc, st) ==> Counted(sc, next))
      && (Clips(sc, walls, st.colliding, st.offsets) ==> Clips(sc, walls, next.colliding, next.offsets))
    decreases |rs|
  {
    if rs == [] {
      assert HitSet(sc, rs, wall) == {};
    } else {
      VisitSpec(sc, st, rs[0], wall, walls);
      var mid := Visit(sc, st, rs[0], wall).value;
      assert forall r :: r in rs[1..] ==> r in rs;
      VisitRaysSpec(sc, mid, rs[1..], wall, walls);
      assert rs == [rs[0]] + rs[1..];
      assert HitSet(sc, rs, wall) == (if Hits(sc, rs[0], wall) then {rs[0]} else {}) + HitSet(sc, rs[1..], wall);
    }
  }

  /**
   * The outer loop from wall j on adds to `colliding` exactly the rays
   * those walls block, each at its first blocker.
   */
  lemma {:induction false} VisitWallsSpec(sc: Scene, st: Collisions, rays: seq<Ray>, walls: seq<Wall>, j: int)
    requires 0 <= j <= |walls|
    requires VisitWalls(sc, st, rays, walls[j..]).Ok?
    requires BlockedRays(sc, rays, walls[..j]) <= st.colliding
    ensures var next := VisitWalls(sc, st, rays, walls[j..]).value;
      && next.colliding == st.colliding + BlockedRays(sc, rays, walls[j..])
      && (Counted(sc, st) ==> Counted(sc, next))
      && (Clips(sc, walls, st.colliding, st.offsets) ==> Clips(sc, walls, next.colliding, next.offsets))
    decreases |walls| - j
  {
    var ws := walls[j..];
    if ws == [] {
      assert BlockedRays(sc, rays, ws) == {};
    } else {
      var wall := ws[0];
      assert wall == walls[j] && ws[1..] == walls[j + 1..];
      var candidates := FilterRays(sc.origin, rays, wall);
      forall r | r in candidates && r !in st.colliding && Hits(sc, r, wall)
        ensures FirstBlocker(sc, r, walls) == Some(wall)
      {
        FilterRaysSpec(sc.origin, rays, wall, r);
        assert r !in BlockedRays(sc, rays, walls[..j]);
        FirstBlockerAt(sc, r, walls, j);
      }
      VisitRaysSpec(sc, st, candidates, wall, walls);
      var mid := VisitRays(sc, st, candidates, wall).value;
      forall r | r in BlockedRays(sc, rays, walls[..j + 1])
        ensures r in mid.colliding
      {
        var w :| w in walls[..j + 1] && Blocks(sc, r, w);
        var k :| 0 <= k < j + 1 && walls[..j + 1][k] == w;
        if k < j {
          assert w in walls[..j];
        } else {
          FilterRaysSpec(sc.origin, rays, wall, r);
        }
      }
      VisitWallsSpec(sc, mid, rays, walls, j + 1);
      forall r
        ensures r in BlockedRays(sc, rays, ws) <==> r in HitSet(sc, candidates, wall) || r in BlockedRays(sc, rays, ws[1..])
      {
        FilterRaysSpec(sc.origin, rays, wall, r);
        if r in BlockedRays(sc, rays, ws) {
          var w :| w in ws && Blocks(sc, r, w);
          if w != wall {
            assert w in ws[1..];
          }
        }
        if r in BlockedRays(sc, rays, ws[1..]) {
          var w :| w in ws[1..] && Blocks(sc, r, w);
          assert w in ws;
        }
      }
    }
  }

  /**
   * Light.collide_rays_w_walls returns the rays no wall blocks, in their
   * order, followed by one replacement per blocked ray not shot at a
   * corner, each from the origin to where that ray's line meets the first
   * wall, in the order of `walls`, that blocks it.
   */
  lemma CollideRaysWithWallsSpec(sc: Scene, rays: seq<Ray>, walls: seq<Wall>)
    ensures var result := CollideRaysWithWalls(sc, rays, walls);
      result.Ok? ==>
        var survivors := Filter(rays, NotIn(BlockedRays(sc, rays, walls)));
        && |survivors| <= |result.value|
        && result.value[..|survivors|] == survivors
        && |result.value| - |survivors| == |Clipped(sc, BlockedRays(sc, rays, walls))|
        && Clips(sc, walls, BlockedRays(sc, rays, walls), result.value[|survivors|..])
  {
    var start := Collisions({}, []);
    if VisitWalls(sc, start, rays, walls).Ok? {
      assert Clipped(sc, {}) == {};
      assert ClipOrder(sc, walls, {}, [], []);
      assert walls[0..] == walls;
      assert BlockedRays(sc, rays, walls[..0]) == {};
      VisitWallsSpec(sc, start, rays, walls, 0);
      var st := VisitWalls(sc, start, rays, walls).value;
      assert st.colliding == BlockedRays(sc, rays, walls);
      var result := Filter(rays, NotIn(st.colliding)) + st.offsets;
      assert result[..|Filter(rays, NotIn(st.colliding))|] == Filter(rays, NotIn(st.colliding));
      assert result[|Filter(rays, NotIn(st.colliding))|..] == st.offsets;
    }
  }

  /** A surviving ray is one that no wall blocks. */
  lemma SurvivorsAreUnblocked(sc: Scene, rays: seq<Ray>, walls: seq<Wall>, ray: Ray)
    ensures ray in Filter(rays, NotIn(BlockedRays(sc, rays, walls)))
        <==> ray in rays && forall w :: w in walls ==> !Blocks(sc, ray, w)
  {
    FilterMembers(rays, NotIn(BlockedRays(sc, rays, walls)), ray);
  }

  /** Every corner is in both wall indexes. */
  predicate Indexed(sc: Scene) {
    forall c :: c in sc.corners ==> c in sc.openWalls && c in sc.closeWalls
  }

  lemma {:induction false} VisitRaysErrors(sc: Scene, st: Collisions, rs: seq<Ray>, wall: Wall)
    ensures var r := VisitRays(sc, st, rs, wall);
      r.Err? ==> (r.error == KeyError || r.error == ZeroDivisionError) && (Indexed(sc) ==> r.error == ZeroDivisionError)
    decreases |rs|
  {
    if rs != [] && Visit(sc, st, rs[0], wall).Ok? {
      VisitRaysErrors(sc, Visit(sc, st, rs[0], wall).value, rs[1..], wall);
    }
  }

  lemma {:induction false} VisitWallsErrors(sc: Scene, st: Collisions, rays: seq<Ray>, ws: seq<Wall>)
    ensures var r := VisitWalls(sc, st, rays, ws);
      r.Err? ==> (r.error == KeyError || r.error == ZeroDivisionError) && (Indexed(sc) ==> r.error == ZeroDivisionError)
    decreases |ws|
  {
    if ws != [] {
      var candidates := FilterRays(sc.origin, rays, ws[0]);
      VisitRaysErrors(sc, st, candidates, ws[0]);
      if VisitRays(sc, st, candidates, ws[0]).Ok? {
        VisitWallsErrors(sc, VisitRays(sc, st, candidates, ws[0]).value, rays, ws[1..]);
      }
    }
  }

  /**
   * collide_rays_w_walls raises only KeyError (a corner missing from an
   * index) or ZeroDivisionError (a clipped ray parallel to its wall), and
   * with every corner indexed only the latter.
   */
  lemma CollideRaysWithWallsErrors(sc: Scene, rays: seq<Ray>, walls: seq<Wall>)
    ensures var r := CollideRaysWithWalls(sc, rays, walls);
      r.Err? ==> (r.error == KeyError || r.error == ZeroDivisionError) && (Indexed(sc) ==> r.error == ZeroDivisionError)
  {
    VisitWallsErrors(sc, Collisions({}, []), rays, walls);
  }
}
