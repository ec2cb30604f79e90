// geometry.Light: a light source (or observer) with its walls, its corner
// indexes and the visibility polygon it recomputes each frame.

module Visibility {
  import opened Common
  import opened Geometry
  import opened Walls
  import opened Occlusion
  import opened Rays

  function CornerAngle(trig: Trig, origin: Point): Point -> real {
    c => trig.angle(origin, c)
  }

  function EndAngle(trig: Trig, origin: Point): Ray -> real {
    (r: Ray) => trig.angle(origin, r.end)
  }

  function RayEnds(rays: seq<Ray>): (r: seq<Point>)
    ensures |r| == |rays|
    ensures forall i :: 0 <= i < |rays| ==> r[i] == rays[i].end
  {
    seq(|rays|, i requires 0 <= i < |rays| => rays[i].end)
  }

  /** The scene update_visible_polygon hands to its helpers: corners sorted by angle. */
  function SceneOf(trig: Trig, origin: Point, corners: seq<Point>, open: map<Point, Wall>, close: map<Point, Wall>): Scene {
    Scene(trig, origin, SortByKey(corners, CornerAngle(trig, origin)), open, close)
  }

  /** The rays update_visible_polygon keeps, before the final sort. */
  function VisibleRays(trig: Trig, origin: Point, walls: seq<Wall>, borderWalls: seq<Wall>,
                       corners: seq<Point>, open: map<Point, Wall>, close: map<Point, Wall>): Result<seq<Ray>>
  {
    var sc := SceneOf(trig, origin, corners, open, close);
    match CreateRays(sc)
    case Err(e) => Err(e)
    case Ok(rays) => CollideRaysWithWalls(sc, rays, SortWalls(trig, origin, walls, borderWalls))
  }

  /** The polygon update_visible_polygon assigns: the kept rays' ends, by angle. */
  function VisiblePolygon(trig: Trig, origin: Point, walls: seq<Wall>, borderWalls: seq<Wall>,
                          corners: seq<Point>, open: map<Point, Wall>, close: map<Point, Wall>): Result<seq<Point>>
  {
    match VisibleRays(trig, origin, walls, borderWalls, corners, open, close)
    case Err(e) => Err(e)
    case Ok(rays) => Ok(RayEnds(SortByKey(rays, EndAngle(trig, origin))))
  }

  // -----------------------------------------------------------------------
  // What update_visible_polygon promises
  // -----------------------------------------------------------------------

  /** The light polygon runs round the light by increasing angle. */
  lemma VisiblePolygonSorted(trig: Trig, origin: Point, walls: seq<Wall>, borderWalls: seq<Wall>,
                             corners: seq<Point>, open: map<Point, Wall>, close: map<Point, Wall>)
    ensures var r := VisiblePolygon(trig, origin, walls, borderWalls, corners, open, close);
      r.Ok? ==> forall i, j :: 0 <= i < j < |r.value| ==> trig.angle(origin, r.value[i]) <= trig.angle(origin, r.value[j])
  {
    var rays := VisibleRays(trig, origin, walls, borderWalls, corners, open, close);
    if rays.Ok? {
      var sorted := SortByKey(rays.value, EndAngle(trig, origin));
      forall i, j | 0 <= i < j < |sorted|
        ensures trig.angle(origin, RayEnds(sorted)[i]) <= trig.angle(origin, RayEnds(sorted)[j])
      {
        assert EndAngle(trig, origin)(sorted[i]) <= EndAngle(trig, origin)(sorted[j]);
      }
    }
  }

  /**
   * A point the light reaches: the end of a ray cast at a corner (or beside
   * it) that no wall blocks, or, for such a ray not cast at a corner, where
   * its line meets a wall that blocks it.
   */
  ghost predicate Reached(sc: Scene, walls: seq<Wall>, q: Point) {
    (exists ray :: RayShape(sc, ray) && ray.end == q && forall w :: w in walls ==> !Blocks(sc, ray, w))
    || (exists ray, w :: && RayShape(sc, ray) && ray.end !in sc.corners && w in walls && Blocks(sc, ray, w)
                         && Intersection(ray.start, ray.end, w.a, w.b) == Ok(q))
  }

  lemma SurvivorReaches(sc: Scene, rays: seq<Ray>, walls: seq<Wall>, sortedWalls: seq<Wall>, ray: Ray)
    requires multiset(sortedWalls) == multiset(walls)
    requires forall k :: 0 <= k < |rays| ==> RayShape(sc, rays[k])
    requires ray in Filter(rays, NotIn(BlockedRays(sc, rays, sortedWalls)))
    ensures Reached(sc, walls, ray.end)
  {
    SurvivorsAreUnblocked(sc, rays, sortedWalls, ray);
    var n :| 0 <= n < |rays| && rays[n] == ray;
    assert RayShape(sc, rays[n]);
    forall w | w in walls
      ensures !Blocks(sc, ray, w)
    {
      assert w in multiset(sortedWalls);
    }
  }

  lemma OffsetReaches(sc: Scene, rays: seq<Ray>, walls: seq<Wall>, sortedWalls: seq<Wall>, offsets: seq<Ray>, m: int)
    requires multiset(sortedWalls) == multiset(walls)
    requires forall k :: 0 <= k < |rays| ==> RayShape(sc, rays[k])
    requires Clips(sc, sortedWalls, BlockedRays(sc, rays, sortedWalls), offsets) && 0 <= m < |offsets|
    ensures Reached(sc, walls, offsets[m].end)
  {
    var order :| ClipOrder(sc, sortedWalls, BlockedRays(sc, rays, sortedWalls), offsets, order);
    var ray := order[m];
    assert ray in Clipped(sc, BlockedRays(sc, rays, sortedWalls));
    var n :| 0 <= n < |rays| && rays[n] == ray;
    assert RayShape(sc, rays[n]);
    assert ClippedAt(sc, sortedWalls, ray, offsets[m]);
    var w := FirstBlocker(sc, ray, sortedWalls).value;
    assert w in multiset(walls);
  }

  /** What collide_rays_w_walls returns: the unblocked rays, then the replacements. */
  ghost predicate SurvivorsThenOffsets(sc: Scene, rays: seq<Ray>, sortedWalls: seq<Wall>, kept: seq<Ray>) {
    var survivors := Filter(rays, NotIn(BlockedRays(sc, rays, sortedWalls)));
    && |survivors| <= |kept|
    && kept[..|survivors|] == survivors
    && Clips(sc, sortedWalls, BlockedRays(sc, rays, sortedWalls), kept[|survivors|..])
  }

  lemma KeptRayReaches(sc: Scene, rays: seq<Ray>, walls: seq<Wall>, sortedWalls: seq<Wall>, kept: seq<Ray>, i: int)
    requires multiset(sortedWalls) == multiset(walls)
    requires forall k :: 0 <= k < |rays| ==> RayShape(sc, rays[k])
    requires SurvivorsThenOffsets(sc, rays, sortedWalls, kept)
    requires 0 <= i < |kept|
    ensures Reached(sc, walls, kept[i].end)
  {
    var survivors := Filter(rays, NotIn(BlockedRays(sc, rays, sortedWalls)));
    if i < |survivors| {
      assert kept[i] == survivors[i];
      SurvivorReaches(sc, rays, walls, sortedWalls, kept[i]);
    } else {
      var offsets := kept[|survivors|..];
      assert kept[i] == offsets[i - |survivors|];
      OffsetReaches(sc, rays, walls, sortedWalls, offsets, i - |survivors|);
    }
  }

  /** Every ray update_visible_polygon keeps ends at a point the light reaches. */
  lemma VisibleRaysReach(trig: Trig, origin: Point, walls: seq<Wall>, borderWalls: seq<Wall>,
                         corners: seq<Point>, open: map<Point, Wall>, close: map<Point, Wall>)
    ensures var r := VisibleRays(trig, origin, walls, borderWalls, corners, open, close);
      r.Ok? ==> forall i :: 0 <= i < |r.value| ==> Reached(SceneOf(trig, origin, corners, open, close), walls, r.value[i].end)
  {
    var sc := SceneOf(trig, origin, corners, open, close);
    var sortedWalls := SortWalls(trig, origin, walls, borderWalls);
    if CreateRays(sc).Ok? {
      var created := CreateRays(sc).value;
      var kept := CollideRaysWithWalls(sc, created, sortedWalls);
      if kept.Ok? {
        SortWallsPermutation(trig, origin, walls, borderWalls);
        CreateRaysSpec(sc);
        CollideRaysWithWallsSpec(sc, created, sortedWalls);
        assert SurvivorsThenOffsets(sc, created, sortedWalls, kept.value);
        forall i | 0 <= i < |kept.value|
          ensures Reached(sc, walls, kept.value[i].end)
        {
          KeptRayReaches(sc, created, walls, sortedWalls, kept.value, i);
        }
      }
    }
  }

  /** Each vertex of the light polygon is a point the light reaches, one per kept ray. */
  lemma VisiblePolygonVertices(trig: Trig, origin: Point, walls: seq<Wall>, borderWalls: seq<Wall>,
                               corners: seq<Point>, open: map<Point, Wall>, close: map<Point, Wall>)
    ensures var r := VisiblePolygon(trig, origin, walls, borderWalls, corners, open, close);
      r.Ok? ==>
        && |r.value| == |VisibleRays(trig, origin, walls, borderWalls, corners, open, close).value|
        && forall k :: 0 <= k < |r.value| ==> Reached(SceneOf(trig, origin, corners, open, close), walls, r.value[k])
  {
    var sc := SceneOf(trig, origin, corners, open, close);
    var rays := VisibleRays(trig, origin, walls, borderWalls, corners, open, close);
    if rays.Ok? {
      VisibleRaysReach(trig, origin, walls, borderWalls, corners, open, close);
      var sorted := SortByKey(rays.value, EndAngle(trig, origin));
      forall k | 0 <= k < |sorted|
        ensures Reached(sc, walls, RayEnds(sorted)[k])
      {
        SortedRayReaches(sc, walls, rays.value, sorted, k);
      }
    }
  }

  lemma SortedRayReaches(sc: Scene, walls: seq<Wall>, rays: seq<Ray>, sorted: seq<Ray>, k: int)
    requires multiset(sorted) == multiset(rays)
    requires forall i :: 0 <= i < |rays| ==> Reached(sc, walls, rays[i].end)
    requires 0 <= k < |sorted|
    ensures Reached(sc, walls, sorted[k].end)
  {
    assert sorted[k] in multiset(rays);
    var i :| 0 <= i < |rays| && rays[i] == sorted[k];
  }

  /**
   * update_visible_polygon raises only KeyError (a corner missing from a
   * wall index) or ZeroDivisionError (a clipped ray parallel to its wall).
   */
  lemma VisiblePolygonErrors(trig: Trig, origin: Point, walls: seq<Wall>, borderWalls: seq<Wall>,
                             corners: seq<Point>, open: map<Point, Wall>, close: map<Point, Wall>)
    ensures var r := VisiblePolygon(trig, origin, walls, borderWalls, corners, open, close);
      r.Err? ==> r.error == KeyError || r.error == ZeroDivisionError
  {
    var sc := SceneOf(trig, origin, corners, open, close);
    CreateRaysErrors(sc);
    if CreateRays(sc).Ok? {
      CollideRaysWithWallsErrors(sc, CreateRays(sc).value, SortWalls(trig, origin, walls, borderWalls));
    }
  }

  /** With every corner in both indexes, update_visible_polygon can only fail with ZeroDivisionError. */
  lemma IndexedCornersRaiseNoKeyError(trig: Trig, origin: Point, walls: seq<Wall>, borderWalls: seq<Wall>,
                                      corners: seq<Point>, open: map<Point, Wall>, close: map<Point, Wall>)
    requires forall c :: c in corners ==> c in open && c in close
    ensures var r := VisiblePolygon(trig, origin, walls, borderWalls, corners, open, close);
      r.Err? ==> r.error == ZeroDivisionError
  {
    var sc := SceneOf(trig, origin, corners, open, close);
    SceneIndexed(trig, origin, corners, open, close);
    CreateRaysErrors(sc);
    CollideRaysWithWallsErrors(sc, CreateRays(sc).value, SortWalls(trig, origin, walls, borderWalls));
  }

  /** Sorting the corners by angle keeps every one of them in both wall indexes. */
  lemma SceneIndexed(trig: Trig, origin: Point, corners: seq<Point>, open: map<Point, Wall>, close: map<Point, Wall>)
    requires forall c :: c in corners ==> c in open && c in close
    ensures Indexed(SceneOf(trig, origin, corners, open, close))
    ensures CornersIndexed(SceneOf(trig, origin, corners, open, close))
  {
    var sc := SceneOf(trig, origin, corners, open, close);
    forall c | c in sc.corners
      ensures c in sc.openWalls && c in sc.closeWalls
    {
      assert c in multiset(sc.corners);
      assert c in multiset(corners);
    }
  }

  /**
   * For a light built over obstacles with no repeated consecutive vertex,
   * every corner is in both wall indexes, so update_visible_polygon can
   * only fail with ZeroDivisionError.
   */
  lemma ProperObstaclesRaiseNoKeyError(trig: Trig, origin: Point, obstacles: seq<seq<Point>>)
    requires forall k :: 0 <= k < |obstacles| ==> ProperPolygon(obstacles[k])
    ensures var walls := ScreenBordersToWalls() + AllPolygonWalls(obstacles);
      var r := VisiblePolygon(trig, origin, walls, ScreenBordersToWalls(), Dedup(Endpoints(walls)), OpenWalls(walls), CloseWalls(walls));
      r.Err? ==> r.error == ZeroDivisionError
  {
    var border := ScreenBordersToWalls();
    var walls := border + AllPolygonWalls(obstacles);
    BorderWallsProper();
    AllPolygonWallsLinked(obstacles);
    AllPolygonWallsNonDegenerate(obstacles);
    LinkedConcat(border, AllPolygonWalls(obstacles));
    assert NonDegenerate(walls);
    IndexesCoverCorners(walls);
    IndexedCornersRaiseNoKeyError(trig, origin, walls, border, Dedup(Endpoints(walls)), OpenWalls(walls), CloseWalls(walls));
  }

  /** The body of update_visible_polygon, without the assignment to the light. */
  method ComputeVisiblePolygon(trig: Trig, origin: Point, walls: seq<Wall>, borderWalls: seq<Wall>,
                               corners: seq<Point>, open: map<Point, Wall>, close: map<Point, Wall>)
    returns (polygon: Result<seq<Point>>)
    ensures polygon == VisiblePolygon(trig, origin, walls, borderWalls, corners, open, close)
  {
    var sc := SceneOf(trig, origin, corners, open, close);
    var sortedWalls := SortWalls(trig, origin, walls, borderWalls);
    var rays := CreateRaysForCorners(sc);
    if rays.Err? {
      return Err(rays.error);
    }
    var kept := CollideRays(sc, rays.value, sortedWalls);
    if kept.Err? {
      return Err(kept.error);
    }
    var sortedRays := SortByKey(kept.value, EndAngle(trig, origin));
    polygon := Ok(RayEnds(sortedRays));
  }

  /** What an update that computed `r` leaves behind: the new polygon, or the old one and the exception. */
  predicate Updated(before: seq<Point>, after: seq<Point>, raised: Option<Error>, r: Result<seq<Point>>) {
    match r
    case Ok(polygon) => raised == None && after == polygon
    case Err(e) => raised == Some(e) && after == before
  }

  class Light {
    /** math.hypot, math.atan2 and sin/cos, left abstract. */
    const trig: Trig
    var origin: Point
    var obstacles: seq<seq<Point>>
    var borderWalls: seq<Wall>
    var walls: seq<Wall>
    var wallsCenters: map<Wall, Point>
    var cornersOpenWalls: map<Point, Wall>
    var cornersCloseWalls: map<Point, Wall>
    var corners: seq<Point>
    var borderCorners: seq<Point>
    var lightPolygon: seq<Point>

    /** The fields derived in the constructor agree with the obstacles. */
    predicate Valid()
      reads this
    {
      && borderWalls == ScreenBordersToWalls()
      && walls == borderWalls + AllPolygonWalls(obstacles)
      && wallsCenters == (map w | w in walls + borderWalls :: WallCenter(trig, w))
      && corners == Dedup(Endpoints(walls))
      && cornersOpenWalls == OpenWalls(walls)
      && cornersCloseWalls == CloseWalls(walls)
      && borderCorners == BorderCorners()
    }

    /** Light.__init__ (the color is only used for drawing). */
    constructor(trig: Trig, x: real, y: real, obstacles: seq<seq<Point>>)
      ensures Valid()
      ensures this.trig == trig && origin == Point(x, y) && this.obstacles == obstacles
      ensures lightPolygon == []
    {
      this.trig := trig;
      origin := Point(x, y);
      this.obstacles := obstacles;
      var border := ScreenBordersToWalls();
      var obstacleWalls := ObstaclesToWalls(obstacles);
      var allWalls := border + obstacleWalls;
      borderWalls := border;
      walls := allWalls;
      var centers := CalculateWallsCenters(trig, allWalls + border);
      wallsCenters := centers;
      var c, open, close := FindCorners(allWalls);
      cornersOpenWalls := open;
      cornersCloseWalls := close;
      corners := c;
      borderCorners := BorderCorners();
      lightPolygon := [];
    }

    /** Light.move_to: only the origin changes. */
    method MoveTo(x: real, y: real)
      requires Valid()
      modifies this
      ensures Valid()
      ensures origin == Point(x, y)
      ensures obstacles == old(obstacles) && walls == old(walls) && corners == old(corners)
      ensures lightPolygon == old(lightPolygon)
    {
      origin := Point(x, y);
    }

    /**
     * Light.update_visible_polygon: on success the light polygon becomes
     * VisiblePolygon; an exception leaves it as it was. Nothing else changes.
     */
    method UpdateVisiblePolygon() returns (raised: Option<Error>)
      modifies this
      ensures Updated(old(lightPolygon), lightPolygon, raised,
                      old(VisiblePolygon(trig, origin, walls, borderWalls, corners, cornersOpenWalls, cornersCloseWalls)))
      ensures unchanged(this`origin, this`obstacles, this`borderWalls, this`walls, this`wallsCenters)
      ensures unchanged(this`corners, this`cornersOpenWalls, this`cornersCloseWalls, this`borderCorners)
    {
      var polygon := ComputeVisiblePolygon(trig, origin, walls, borderWalls, corners, cornersOpenWalls, cornersCloseWalls);
      match polygon
      case Err(e) =>
        raised := Some(e);
      case Ok(p) =>
        lightPolygon := p;
        raised := None;
    }
  }
}
