// The widget logic of options_screen.py: rectangular buttons, the
// ClampedValue switch with its plus and minus buttons, the polygon hit test
// built on ccw, and stepping the value. Drawing is not modelled.

module Options {
  import opened Common
  import opened Geometry

  /** create_points_list: the four corners of the box of half-width w and half-height h around (x, y). */
  function CreatePointsList(x: real, y: real, h: real, w: real): (r: seq<Point>)
    ensures |r| == 4
    ensures r[0] == Point(x - w, y - h) && r[1] == Point(x + w, y - h)
    ensures r[2] == Point(x + w, y + h) && r[3] == Point(x - w, y + h)
  {
    [Point(x - w, y - h), Point(x + w, y - h), Point(x + w, y + h), Point(x - w, y + h)]
  }

  function Abs(v: real): real {
    if v < 0.0 then -v else v
  }

  /** What calling a button's function does: there is none (None), or it returns or raises. */
  datatype Callback = NoFunction | Function(raises: Option<Error>)

  /** Button.on_click: calls the function and swallows a TypeError, such as calling None raises. */
  function OnClickOutcome(f: Callback): (raised: Option<Error>)
    ensures raised != Some(TypeError)
    ensures f.NoFunction? ==> raised == None
    ensures f.Function? && f.raises != Some(TypeError) ==> raised == f.raises
  {
    var called := if f.NoFunction? then Some(TypeError) else f.raises;
    if called == Some(TypeError) then None else called
  }

  /** A button of the options screen; nothing of it changes in the modelled operations. */
  datatype Button = Button(x: real, y: real, h: real, w: real, text: string, points: seq<Point>, callback: Callback)

  /** Button.__init__. */
  function NewButton(x: real, y: real, h: real, w: real, text: string, callback: Callback): (b: Button)
    ensures b.points == CreatePointsList(x, y, h, w)
    ensures b.x == x && b.y == y && b.h == h && b.w == w && b.callback == callback
  {
    Button(x, y, h, w, text, CreatePointsList(x, y, h, w), callback)
  }

  /** Button.mouse_over: within w across and h up or down of the center, borders included. */
  predicate MouseOver(b: Button, px: real, py: real) {
    Abs(b.x - px) <= b.w && Abs(b.y - py) <= b.h
  }

  // -----------------------------------------------------------------------
  // The polygon hit test of ClampedValue.mouse_over
  // -----------------------------------------------------------------------

  /** The far end of edge i of a polygon: the next point, or the first one after the last. */
  function EdgeEnd(polygon: seq<Point>, i: nat): Point
    requires i < |polygon|
  {
    if i == |polygon| - 1 then polygon[0] else polygon[i + 1]
  }

  /** No edge of the polygon turns counterclockwise towards `p`: the point is inside or on an edge. */
  predicate Inside(polygon: seq<Point>, p: Point) {
    forall i :: 0 <= i < |polygon| ==> !Ccw(polygon[i], EdgeEnd(polygon, i), p)
  }

  /** The index of the first polygon that holds `p`, from `j` on. */
  function FirstInside(polygons: seq<seq<Point>>, p: Point, j: nat): (r: Option<nat>)
    requires j <= |polygons|
    decreases |polygons| - j
  {
    if j == |polygons| then None
    else if Inside(polygons[j], p) then Some(j)
    else FirstInside(polygons, p, j + 1)
  }

  /** FirstInside finds the first polygon holding the point, and none when no polygon holds it. */
  lemma {:induction false} FirstInsideSpec(polygons: seq<seq<Point>>, p: Point, j: nat)
    requires j <= |polygons|
    ensures var r := FirstInside(polygons, p, j);
      && (r.Some? ==> j <= r.value < |polygons| && Inside(polygons[r.value], p)
                      && forall k :: j <= k < r.value ==> !Inside(polygons[k], p))
      && (r.None? <==> forall k :: j <= k < |polygons| ==> !Inside(polygons[k], p))
    decreases |polygons| - j
  {
    if j < |polygons| && !Inside(polygons[j], p) {
      FirstInsideSpec(polygons, p, j + 1);
    }
  }

  /**
   * For a box of positive size, the ccw hit test over the corners of
   * create_points_list agrees with Button.mouse_over's inclusive box test.
   */
  lemma BoxHitTestsAgree(b: Button, px: real, py: real)
    requires b.points == CreatePointsList(b.x, b.y, b.h, b.w)
    requires b.w > 0.0 && b.h > 0.0
    ensures Inside(b.points, Point(px, py)) <==> MouseOver(b, px, py)
  {
    var p, q := b.points, Point(px, py);
    assert EdgeEnd(p, 0) == p[1] && EdgeEnd(p, 1) == p[2] && EdgeEnd(p, 2) == p[3] && EdgeEnd(p, 3) == p[0];
    // Each edge turns counterclockwise towards q exactly when q lies beyond that side of the box.
    EdgeTurn(p[0], p[1], q, 2.0 * b.w, (b.y - b.h) - py);
    EdgeTurn(p[1], p[2], q, 2.0 * b.h, px - (b.x + b.w));
    EdgeTurn(p[2], p[3], q, 2.0 * b.w, py - (b.y + b.h));
    EdgeTurn(p[3], p[0], q, 2.0 * b.h, (b.x - b.w) - px);
    var within := b.y - b.h <= py <= b.y + b.h && b.x - b.w <= px <= b.x + b.w;
    assert MouseOver(b, px, py) <==> within;
    if within {
      forall i | 0 <= i < 4
        ensures !Ccw(p[i], EdgeEnd(p, i), q)
      {
        assert i == 0 || i == 1 || i == 2 || i == 3;
      }
    } else {
      assert Ccw(p[0], EdgeEnd(p, 0), q) || Ccw(p[1], EdgeEnd(p, 1), q)
          || Ccw(p[2], EdgeEnd(p, 2), q) || Ccw(p[3], EdgeEnd(p, 3), q);
    }
  }

  /** An edge whose cross product with c factors as side · offset, with a positive side, turns towards c exactly for a positive offset. */
  lemma EdgeTurn(a: Point, b: Point, c: Point, side: real, offset: real)
    requires side > 0.0
    requires Cross(a, b, c) == side * offset
    ensures Ccw(a, b, c) <==> offset > 0.0
  {
    if offset <= 0.0 {
      assert side * offset <= 0.0;
    }
  }

  // -----------------------------------------------------------------------
  // ClampedValue
  // -----------------------------------------------------------------------

  /**
   * create_points_lists: the switch box, then the plus button growing out
   * of its right edge, then the minus button growing out of its left edge.
   */
  function CreatePointsLists(x: real, y: real, h: real, w: real): (r: seq<seq<Point>>)
    ensures |r| == 3 && |r[0]| == 4 && |r[1]| == 5 && |r[2]| == 5
    ensures r[0] == CreatePointsList(x, y, h, w)
    ensures r[1][0] == r[0][1] && r[1][4] == r[0][2]
    ensures r[2][0] == r[0][0] && r[2][1] == r[0][3]
    ensures r[1][2] == Point(x + 3.0 * w, y) && r[2][3] == Point(x - 3.0 * w, y)
  {
    var ww, www := 2.0 * w, 3.0 * w;
    var switch := [Point(x - w, y - h), Point(x + w, y - h), Point(x + w, y + h), Point(x - w, y + h)];
    var plus := [Point(x + w, y - h), Point(x + ww, y - h), Point(x + www, y), Point(x + ww, y + h), Point(x + w, y + h)];
    var minus := [Point(x - w, y - h), Point(x - w, y + h), Point(x - ww, y + h), Point(x - www, y), Point(x - ww, y - h)];
    [switch, plus, minus]
  }

  /** The upper bound of a ClampedValue: a number, or math.inf by default. */
  datatype Bound = Finite(n: real) | Infinity

  predicate Below(v: real, max: Bound) {
    max.Infinity? || v < max.n
  }

  /** The value after ClampedValue.on_click: one step up on the plus button below max, one down on the minus button above min. */
  function Stepped(value: real, activeButton: Option<nat>, min: real, max: Bound, step: real): (r: real)
    ensures activeButton == Some(1) && Below(value, max) ==> r == value + step
    ensures activeButton == Some(2) && value > min ==> r == value - step
    ensures !(activeButton == Some(1) && Below(value, max)) && !(activeButton == Some(2) && value > min) ==> r == value
  {
    if activeButton == Some(1) && Below(value, max) then value + step
    else if activeButton == Some(2) && value > min then value - step
    else value
  }

  /**
   * The bound is checked before stepping, not clamped after: with a
   * positive step a click keeps the value strictly between min − step and
   * max + step, but not within [min, max].
   */
  lemma {:induction false} ClickKeepsBand(value: real, activeButton: Option<nat>, min: real, max: real, step: real)
    requires step > 0.0 && min - step < value < max + step
    ensures min - step < Stepped(value, activeButton, min, Finite(max), step) < max + step
  {
  }

  lemma StepOvershootsMax()
    ensures Stepped(9.0, Some(1), 0.0, Finite(10.0), 5.0) == 14.0
  {
  }

  class ClampedValue {
    const x: real
    const y: real
    const h: real
    const w: real
    var value: real
    const min: real
    const max: Bound
    const step: real
    /** The switch, plus and minus polygons. */
    const points: seq<seq<Point>>
    var activeButton: Option<nat>
    const callback: Callback

    constructor(x: real, y: real, h: real, w: real, value: real, min: real, max: Bound, step: real, callback: Callback)
      ensures this.x == x && this.y == y && this.h == h && this.w == w
      ensures this.value == value && this.min == min && this.max == max && this.step == step
      ensures points == CreatePointsLists(x, y, h, w) && activeButton == None && this.callback == callback
    {
      this.x := x;
      this.y := y;
      this.h := h;
      this.w := w;
      this.value := value;
      this.min := min;
      this.max := max;
      this.step := step;
      points := CreatePointsLists(x, y, h, w);
      activeButton := None;
      this.callback := callback;
    }

    /**
     * mouse_over: the first of the switch, plus and minus polygons that
     * holds the cursor becomes the active button; with none, no button is.
     */
    method MouseOver(px: real, py: real) returns (over: bool)
      modifies this`activeButton
      ensures activeButton == FirstInside(points, Point(px, py), 0)
      ensures over <==> activeButton.Some?
    {
      var p := Point(px, py);
      var j := 0;
      while j < |points|
        invariant 0 <= j <= |points|
        invariant FirstInside(points, p, 0) == FirstInside(points, p, j)
      {
        var element := points[j];
        var i := 0;
        var turned := false;
        while i < |element| && !turned
          invariant 0 <= i <= |element|
          invariant forall k :: 0 <= k < i ==> !Ccw(element[k], EdgeEnd(element, k), p)
          invariant turned ==> !Inside(element, p)
          decreases |element| - i, if turned then 0 else 1
        {
          if Ccw(element[i], EdgeEnd(element, i), p) {
            turned := true;
          } else {
            i := i + 1;
          }
        }
        if !turned {
          activeButton := Some(j);
          return true;
        }
        j := j + 1;
      }
      activeButton := None;
      return false;
    }

    /** on_click: steps the value as Stepped says, then calls the function as Button.on_click does. */
    method OnClick() returns (raised: Option<Error>)
      modifies this`value
      ensures value == Stepped(old(value), activeButton, min, max, step)
      ensures raised == OnClickOutcome(callback)
    {
      if activeButton == Some(1) && Below(value, max) {
        value := value + step;
      } else if activeButton == Some(2) && value > min {
        value := value - step;
      }
      raised := OnClickOutcome(callback);
    }
  }

  /** A cursor right of the switch's box never hits the switch, so the plus or the minus polygon decides. */
  lemma RightOfSwitch(x: real, y: real, h: real, w: real, px: real, py: real)
    requires w > 0.0 && h > 0.0 && px > x + w
    ensures var polys := CreatePointsLists(x, y, h, w);
      FirstInside(polys, Point(px, py), 0)
        == (if Inside(polys[1], Point(px, py)) then Some(1) else if Inside(polys[2], Point(px, py)) then Some(2) else None)
  {
    var polys := CreatePointsLists(x, y, h, w);
    BoxHitTestsAgree(Button(x, y, h, w, "", polys[0], NoFunction), px, py);
    assert !Inside(polys[0], Point(px, py));
    assert FirstInside(polys, Point(px, py), 0) == FirstInside(polys, Point(px, py), 1);
    assert FirstInside(polys, Point(px, py), 3) == None;
  }

  /** A cursor on the switch's box always selects the switch, which comes first. */
  lemma OnSwitch(x: real, y: real, h: real, w: real, px: real, py: real)
    requires w > 0.0 && h > 0.0 && Abs(x - px) <= w && Abs(y - py) <= h
    ensures FirstInside(CreatePointsLists(x, y, h, w), Point(px, py), 0) == Some(0)
  {
    var polys := CreatePointsLists(x, y, h, w);
    BoxHitTestsAgree(Button(x, y, h, w, "", polys[0], NoFunction), px, py);
  }
}
