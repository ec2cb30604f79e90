// The walls and corners of geometry.Light: the screen border and every
// obstacle polygon become closed chains of directed walls, and every wall
// end point becomes a corner indexed by the wall it opens and the wall it
// closes.

module Walls {
  import opened Common
  import opened Geometry

  /** A directed wall (a, b): a Python 2-tuple of points. */
  datatype Wall = Wall(a: Point, b: Point)

  /** Wall i ends where wall i + 1 starts, and the last ends where the first starts. */
  predicate ClosedChain(ws: seq<Wall>) {
    forall i, j :: 0 <= i < |ws| && j == Next(i, |ws|) ==> ws[i].b == ws[j].a
  }

  /** The index after i in a cycle of length n. */
  function Next(i: nat, n: nat): nat {
    if i + 1 < n then i + 1 else 0
  }

  /** Light.get_border_corners. */
  function BorderCorners(): (r: seq<Point>)
    ensures |r| == 4
  {
    [Point(SCREEN_H, 0.0), Point(SCREEN_H, SCREEN_W), Point(0.0, SCREEN_W), Point(0.0, 0.0)]
  }

  /** The walls of one polygon: vertex i to vertex i + 1, the last back to vertex 0. */
  function PolygonWalls(v: seq<Point>): (r: seq<Wall>)
    ensures |r| == |v|
    ensures forall i :: 0 <= i < |v| ==> r[i].a == v[i]
  {
    seq(|v|, i requires 0 <= i < |v| => Wall(v[i], if i < |v| - 1 then v[i + 1] else v[0]))
  }

  /** A polygon's walls form a closed chain whose starts are its vertices in order. */
  lemma PolygonWallsClosed(v: seq<Point>)
    ensures ClosedChain(PolygonWalls(v))
    ensures forall i :: 0 <= i < |v| ==> PolygonWalls(v)[i].b == v[Next(i, |v|)]
  {
  }

  /** Light.screen_borders_to_walls: north, east, south and west. */
  function ScreenBordersToWalls(): (r: seq<Wall>)
    ensures |r| == 4
  {
    [Wall(Point(SCREEN_H, 0.0), Point(SCREEN_H, SCREEN_W)),
     Wall(Point(SCREEN_H, SCREEN_W), Point(0.0, SCREEN_W)),
     Wall(Point(0.0, SCREEN_W), Point(0.0, 0.0)),
     Wall(Point(0.0, 0.0), Point(SCREEN_H, 0.0))]
  }

  /** The border walls are the polygon walls of the border corners: a closed chain. */
  lemma BorderWallsArePolygon()
    ensures ScreenBordersToWalls() == PolygonWalls(BorderCorners())
    ensures ClosedChain(ScreenBordersToWalls())
  {
    var v := BorderCorners();
    var ws := PolygonWalls(v);
    assert ws[3] == Wall(v[3], v[0]);
    assert ws == [Wall(v[0], v[1]), Wall(v[1], v[2]), Wall(v[2], v[3]), Wall(v[3], v[0])];
    PolygonWallsClosed(v);
  }

  /** The walls of every obstacle, obstacle after obstacle. */
  function AllPolygonWalls(obstacles: seq<seq<Point>>): (r: seq<Wall>)
  {
    if obstacles == [] then []
    else AllPolygonWalls(obstacles[..|obstacles| - 1]) + PolygonWalls(obstacles[|obstacles| - 1])
  }

  function VertexCount(obstacles: seq<seq<Point>>): nat {
    if obstacles == [] then 0
    else VertexCount(obstacles[..|obstacles| - 1]) + |obstacles[|obstacles| - 1]|
  }

  /** An obstacle with N vertices yields exactly N walls. */
  lemma {:induction false} AllPolygonWallsLength(obstacles: seq<seq<Point>>)
    ensures |AllPolygonWalls(obstacles)| == VertexCount(obstacles)
  {
    if obstacles != [] {
      AllPolygonWallsLength(obstacles[..|obstacles| - 1]);
    }
  }

  /** Light.obstacles_to_walls. */
  method ObstaclesToWalls(obstacles: seq<seq<Point>>) returns (walls: seq<Wall>)
    ensures walls == AllPolygonWalls(obstacles)
  {
    walls := [];
    for k := 0 to |obstacles|
      invariant walls == AllPolygonWalls(obstacles[..k])
    {
      AllPolygonWallsStep(obstacles, k);
      walls := AppendPolygonWalls(walls, obstacles[k]);
    }
    assert obstacles[..|obstacles|] == obstacles;
  }

  /** The inner loop of obstacles_to_walls: one wall per vertex, to the next vertex or back to the first. */
  method AppendPolygonWalls(walls: seq<Wall>, obstacle: seq<Point>) returns (walls': seq<Wall>)
    ensures walls' == walls + PolygonWalls(obstacle)
  {
    walls' := walls;
    var vertexCount := |obstacle|;
    for i := 0 to vertexCount
      invariant walls' == walls + PolygonWalls(obstacle)[..i]
    {
      var next := if i < vertexCount - 1 then obstacle[i + 1] else obstacle[0];
      walls' := walls' + [Wall(obstacle[i], next)];
      assert PolygonWalls(obstacle)[..i + 1] == PolygonWalls(obstacle)[..i] + [Wall(obstacle[i], next)];
    }
    assert PolygonWalls(obstacle)[..vertexCount] == PolygonWalls(obstacle);
  }

  lemma AllPolygonWallsStep(obstacles: seq<seq<Point>>, k: nat)
    requires k < |obstacles|
    ensures AllPolygonWalls(obstacles[..k + 1]) == AllPolygonWalls(obstacles[..k]) + PolygonWalls(obstacles[k])
  {
    assert obstacles[..k + 1][..k] == obstacles[..k];
  }

  // -----------------------------------------------------------------------
  // Corners (Light.find_corners)
  // -----------------------------------------------------------------------

  /** Every wall's two end points, in order: the vertices find_corners visits. */
  function Endpoints(ws: seq<Wall>): (r: seq<Point>)
    ensures |r| == 2 * |ws|
    ensures forall i :: 0 <= i < |ws| ==> r[2 * i] == ws[i].a && r[2 * i + 1] == ws[i].b
  {
    if ws == [] then []
    else Endpoints(ws[..|ws| - 1]) + [ws[|ws| - 1].a, ws[|ws| - 1].b]
  }

  /**
   * corners_open_walls: a wall is stored under its first point; wall.index
   * finds a degenerate wall's second point at index 0 too. Later walls win.
   */
  function OpenWalls(ws: seq<Wall>): map<Point, Wall>
  {
    if ws == [] then map[]
    else OpenWalls(ws[..|ws| - 1])[ws[|ws| - 1].a := ws[|ws| - 1]]
  }

  /** corners_close_walls: a wall is stored under a second point distinct from its first. */
  function CloseWalls(ws: seq<Wall>): map<Point, Wall>
  {
    if ws == [] then map[]
    else
      var w := ws[|ws| - 1];
      if w.a == w.b then CloseWalls(ws[..|ws| - 1]) else CloseWalls(ws[..|ws| - 1])[w.b := w]
  }

  /**
   * Light.find_corners: every end point once, in first-occurrence order,
   * with the two wall indexes.
   */
  method FindCorners(walls: seq<Wall>) returns (corners: seq<Point>, open: map<Point, Wall>, close: map<Point, Wall>)
    ensures corners == Dedup(Endpoints(walls))
    ensures open == OpenWalls(walls)
    ensures close == CloseWalls(walls)
  {
    corners, open, close := [], map[], map[];
    for k := 0 to |walls|
      invariant corners == Dedup(Endpoints(walls[..k]))
      invariant open == OpenWalls(walls[..k])
      invariant close == CloseWalls(walls[..k])
    {
      FindCornersStep(walls, k);
      corners, open, close := VisitWall(walls[k], corners, open, close);
    }
    assert walls[..|walls|] == walls;
  }

  /** The body of find_corners' loop for one wall. */
  method VisitWall(wall: Wall, corners: seq<Point>, open: map<Point, Wall>, close: map<Point, Wall>)
    returns (corners': seq<Point>, open': map<Point, Wall>, close': map<Point, Wall>)
    ensures var c1 := if wall.a in corners then corners else corners + [wall.a];
      corners' == if wall.b in c1 then c1 else c1 + [wall.b]
    ensures open' == open[wall.a := wall]
    ensures close' == if wall.a == wall.b then close else close[wall.b := wall]
  {
    corners', open', close' := corners, open, close;
    // the first vertex: wall.index(vertex) == 0
    if wall.a !in corners' {
      corners' := corners' + [wall.a];
    }
    open' := open'[wall.a := wall];
    // the second vertex: at index 0 only when it equals the first
    if wall.b !in corners' {
      corners' := corners' + [wall.b];
    }
    if wall.b == wall.a {
      open' := open'[wall.b := wall];
    } else {
      close' := close'[wall.b := wall];
    }
  }

  /** What visiting wall k adds to the corner list and the two indexes. */
  lemma FindCornersStep(walls: seq<Wall>, k: nat)
    requires k < |walls|
    ensures var w := walls[k];
      var c0 := Dedup(Endpoints(walls[..k]));
      var c1 := if w.a in c0 then c0 else c0 + [w.a];
      Dedup(Endpoints(walls[..k + 1])) == if w.b in c1 then c1 else c1 + [w.b]
    ensures OpenWalls(walls[..k + 1]) == OpenWalls(walls[..k])[walls[k].a := walls[k]]
    ensures CloseWalls(walls[..k + 1])
         == if walls[k].a == walls[k].b then CloseWalls(walls[..k]) else CloseWalls(walls[..k])[walls[k].b := walls[k]]
  {
    assert walls[..k + 1] == walls[..k] + [walls[k]];
    CornersStep(walls[..k], walls[k]);
    IndexesStep(walls[..k], walls[k]);
  }

  /** The two indexes after one more wall. */
  lemma IndexesStep(ws: seq<Wall>, w: Wall)
    ensures OpenWalls(ws + [w]) == OpenWalls(ws)[w.a := w]
    ensures CloseWalls(ws + [w]) == if w.a == w.b then CloseWalls(ws) else CloseWalls(ws)[w.b := w]
  {
    assert (ws + [w])[..|ws|] == ws;
  }

  /** Dedup of the end points after one more wall. */
  lemma CornersStep(ws: seq<Wall>, w: Wall)
    ensures var c0 := Dedup(Endpoints(ws));
      var c1 := if w.a in c0 then c0 else c0 + [w.a];
      Dedup(Endpoints(ws + [w])) == if w.b in c1 then c1 else c1 + [w.b]
  {
    var before := Endpoints(ws);
    assert (ws + [w])[..|ws|] == ws;
    assert Endpoints(ws + [w]) == (before + [w.a]) + [w.b];
    DedupSnoc(before, w.a);
    DedupSnoc(before + [w.a], w.b);
  }

  /** The open-wall index holds v exactly when some wall starts at v, and the last such wall. */
  lemma OpenWallsSpec(ws: seq<Wall>, v: Point)
    ensures v in OpenWalls(ws) <==> exists i :: 0 <= i < |ws| && ws[i].a == v
    ensures v in OpenWalls(ws) ==>
      exists i :: (0 <= i < |ws| && OpenWalls(ws)[v] == ws[i] && ws[i].a == v
        && forall j :: i < j < |ws| ==> ws[j].a != v)
  {
    OpenWallsKeys(ws, v);
    if v in OpenWalls(ws) {
      OpenWallsValue(ws, v);
    }
  }

  lemma {:induction false} OpenWallsKeys(ws: seq<Wall>, v: Point)
    ensures v in OpenWalls(ws) <==> exists i :: 0 <= i < |ws| && ws[i].a == v
  {
    if ws != [] {
      var last := |ws| - 1;
      var init := ws[..last];
      OpenWallsKeys(init, v);
      if ws[last].a != v {
        if i :| 0 <= i < |ws| && ws[i].a == v {
          assert init[i] == ws[i];
        }
        if i :| 0 <= i < |init| && init[i].a == v {
          assert ws[i] == init[i];
        }
      }
    }
  }

  lemma {:induction false} OpenWallsValue(ws: seq<Wall>, v: Point)
    requires v in OpenWalls(ws)
    ensures exists i :: (0 <= i < |ws| && OpenWalls(ws)[v] == ws[i] && ws[i].a == v
      && forall j :: i < j < |ws| ==> ws[j].a != v)
  {
    var last := |ws| - 1;
    if ws[last].a == v {
      assert OpenWalls(ws)[v] == ws[last];
    } else {
      var init := ws[..last];
      OpenWallsValue(init, v);
      var i :| 0 <= i < |init| && OpenWalls(init)[v] == init[i] && init[i].a == v
        && forall j :: i < j < |init| ==> init[j].a != v;
      assert ws[i] == init[i];
      forall j | i < j < |ws|
        ensures ws[j].a != v
      {
        if j < last {
          assert ws[j] == init[j];
        }
      }
    }
  }

  /** The close-wall index holds v exactly when some non-degenerate wall ends at v, and the last such wall. */
  lemma CloseWallsSpec(ws: seq<Wall>, v: Point)
    ensures v in CloseWalls(ws) <==> exists i :: 0 <= i < |ws| && ws[i].b == v && ws[i].a != v
    ensures v in CloseWalls(ws) ==>
      exists i :: (0 <= i < |ws| && CloseWalls(ws)[v] == ws[i] && ws[i].b == v && ws[i].a != v
        && forall j :: i < j < |ws| ==> !(ws[j].b == v && ws[j].a != v))
  {
    CloseWallsKeys(ws, v);
    if v in CloseWalls(ws) {
      CloseWallsValue(ws, v);
    }
  }

  lemma {:induction false} CloseWallsKeys(ws: seq<Wall>, v: Point)
    ensures v in CloseWalls(ws) <==> exists i :: 0 <= i < |ws| && ws[i].b == v && ws[i].a != v
  {
    if ws != [] {
      var last := |ws| - 1;
      var init := ws[..last];
      CloseWallsKeys(init, v);
      if !(ws[last].b == v && ws[last].a != v) {
        if i :| 0 <= i < |ws| && ws[i].b == v && ws[i].a != v {
          assert init[i] == ws[i];
        }
        if i :| 0 <= i < |init| && init[i].b == v && init[i].a != v {
          assert ws[i] == init[i];
        }
      }
    }
  }

  lemma {:induction false} CloseWallsValue(ws: seq<Wall>, v: Point)
    requires v in CloseWalls(ws)
    ensures exists i :: (0 <= i < |ws| && CloseWalls(ws)[v] == ws[i] && ws[i].b == v && ws[i].a != v
      && forall j :: i < j < |ws| ==> !(ws[j].b == v && ws[j].a != v))
  {
    var last := |ws| - 1;
    if ws[last].b == v && ws[last].a != v {
      assert CloseWalls(ws)[v] == ws[last];
    } else {
      var init := ws[..last];
      CloseWallsValue(init, v);
      var i :| 0 <= i < |init| && CloseWalls(init)[v] == init[i] && init[i].b == v && init[i].a != v
        && forall j :: i < j < |init| ==> !(init[j].b == v && init[j].a != v);
      assert ws[i] == init[i];
      forall j | i < j < |ws|
        ensures !(ws[j].b == v && ws[j].a != v)
      {
        if j < last {
          assert ws[j] == init[j];
        }
      }
    }
  }

  function Starts(ws: seq<Wall>): set<Point> {
    set w | w in ws :: w.a
  }

  function Ends(ws: seq<Wall>): set<Point> {
    set w | w in ws :: w.b
  }

  /** The walls start at exactly the points where walls end. */
  predicate Linked(ws: seq<Wall>) {
    Starts(ws) == Ends(ws)
  }

  /** No wall starts and ends at the same point. */
  predicate NonDegenerate(ws: seq<Wall>) {
    forall w :: w in ws ==> w.a != w.b
  }

  lemma ClosedChainIsLinked(ws: seq<Wall>)
    requires ClosedChain(ws)
    ensures Linked(ws)
  {
    forall x | x in Starts(ws)
      ensures x in Ends(ws)
    {
      var w :| w in ws && w.a == x;
      var i :| 0 <= i < |ws| && ws[i] == w;
      var j := if i == 0 then |ws| - 1 else i - 1;
      assert Next(j, |ws|) == i;
      assert ws[j] in ws && ws[j].b == x;
    }
    forall x | x in Ends(ws)
      ensures x in Starts(ws)
    {
      var w :| w in ws && w.b == x;
      var i :| 0 <= i < |ws| && ws[i] == w;
      var k := Next(i, |ws|);
      assert ws[k] in ws && ws[k].a == x;
    }
  }

  lemma LinkedConcat(ws: seq<Wall>, vs: seq<Wall>)
    requires Linked(ws) && Linked(vs)
    ensures Linked(ws + vs)
  {
    assert Starts(ws + vs) == Starts(ws) + Starts(vs);
    assert Ends(ws + vs) == Ends(ws) + Ends(vs);
  }

  /** The walls of any obstacle list are linked. */
  lemma {:induction false} AllPolygonWallsLinked(obstacles: seq<seq<Point>>)
    ensures Linked(AllPolygonWalls(obstacles))
  {
    if obstacles != [] {
      AllPolygonWallsLinked(obstacles[..|obstacles| - 1]);
      PolygonWallsClosed(obstacles[|obstacles| - 1]);
      ClosedChainIsLinked(PolygonWalls(obstacles[|obstacles| - 1]));
      LinkedConcat(AllPolygonWalls(obstacles[..|obstacles| - 1]), PolygonWalls(obstacles[|obstacles| - 1]));
    }
  }

  /** No vertex of the obstacle repeats the next one (closing back to the first). */
  predicate ProperPolygon(v: seq<Point>) {
    forall i, j :: 0 <= i < |v| && j == Next(i, |v|) ==> v[i] != v[j]
  }

  /** Obstacles without repeated consecutive vertices give walls of positive length. */
  lemma {:induction false} AllPolygonWallsNonDegenerate(obstacles: seq<seq<Point>>)
    requires forall k :: 0 <= k < |obstacles| ==> ProperPolygon(obstacles[k])
    ensures NonDegenerate(AllPolygonWalls(obstacles))
  {
    if obstacles != [] {
      var last := obstacles[|obstacles| - 1];
      AllPolygonWallsNonDegenerate(obstacles[..|obstacles| - 1]);
      PolygonWallsClosed(last);
      forall w | w in PolygonWalls(last)
        ensures w.a != w.b
      {
        var i :| 0 <= i < |last| && PolygonWalls(last)[i] == w;
        assert w.b == last[Next(i, |last|)];
      }
    }
  }

  /** The screen border is linked and has no degenerate wall. */
  lemma BorderWallsProper()
    ensures Linked(ScreenBordersToWalls()) && NonDegenerate(ScreenBordersToWalls())
  {
    BorderWallsArePolygon();
    ClosedChainIsLinked(ScreenBordersToWalls());
  }

  /**
   * For linked, non-degenerate walls both indexes hold every corner, so the
   * lookups corners_open_walls[c] and corners_close_walls[c] never fail.
   */
  lemma IndexesCoverCorners(ws: seq<Wall>)
    requires Linked(ws) && NonDegenerate(ws)
    ensures forall c :: c in Dedup(Endpoints(ws)) ==> c in OpenWalls(ws) && c in CloseWalls(ws)
  {
    forall c | c in Dedup(Endpoints(ws))
      ensures c in OpenWalls(ws) && c in CloseWalls(ws)
    {
      DedupMembers(Endpoints(ws), c);
      var w := EndpointWall(ws, c);
      assert c in Starts(ws) || c in Ends(ws);
      assert c in Starts(ws) && c in Ends(ws);
      var opener :| opener in ws && opener.a == c;
      var closer :| closer in ws && closer.b == c;
      var i :| 0 <= i < |ws| && ws[i] == opener;
      var j :| 0 <= j < |ws| && ws[j] == closer;
      OpenWallsSpec(ws, c);
      CloseWallsSpec(ws, c);
    }
  }

  /** A wall having c as one of its two end points. */
  lemma EndpointWall(ws: seq<Wall>, c: Point) returns (w: Wall)
    requires c in Endpoints(ws)
    ensures w in ws && (w.a == c || w.b == c)
  {
    var e := Endpoints(ws);
    var k :| 0 <= k < |e| && e[k] == c;
    var i := k / 2;
    if k % 2 == 0 {
      assert k == 2 * i;
    } else {
      assert k == 2 * i + 1;
    }
    w := ws[i];
  }
}
