# light_raycasting in Dafny

This project models the computational core of light_raycasting, a 2D
ray-casting "light" (or field of view) demo. The model covers:

- **geometry.py.** Obstacle polygons and the screen border become directed
  walls. Every wall end becomes a corner, indexed by the wall it opens and
  the wall it closes. Rays go from the light to every corner, plus "offset"
  rays that look past a corner. Corners hidden behind nearer ones are
  culled. Each ray is tested, nearest wall first, against the walls whose
  orientation filter lets it through. A blocked ray is dropped and, when it
  was not aimed at a corner, replaced by a ray clipped at the wall. The ends
  of the kept rays, sorted by angle, form the visible polygon.
- **lighting.py.** The second version of the same algorithm: numbered walls
  and endpoints, a ray caster that culls by range and by an "edge" test, and
  a collision loop over a list that grows while it is walked.
- **main.py.** `new_id`, the per-class id counter.
- **menu.py.** The widget logic that does not draw: clamping, shared
  variables and the attributes they drive, the submenu registry, buttons,
  sliders and check boxes.
- **options_screen.py.** The ClampedValue control: its convex-polygon hit
  test built on `ccw`, and its stepping.

Points are pairs of reals. The floating-point primitives are left
uninterpreted and passed in as values. `Geometry.Trig` holds `math.hypot`,
the `calculate_angle` of `math.atan2`, and the sin/cos vector of
`calculate_vector_2d`. `Lighting.Env` adds shapely's `LineString.crosses` and
the `quadrant` helper. Everything built on top of these primitives is exact:
the orientation test, the closed-form line intersection, bounding boxes,
wall chains, the corner and endpoint indexes, sorting, filtering, the
collision passes, and the widget state.

Python exceptions are values of `Common.Error`, returned in a `Result`. A
method that changes state in place returns the exception it raised, if any,
as an `Option<Error>`.

Files, one module each:

- `common.dfy`: points, Option/Result, and list filtering, first-occurrence
  de-duplication and stable key sorting.
- `geometry.dfy`: the geometric primitives of geometry.py.
- `walls.dfy`: walls and corners.
- `rays.dfy`: `create_rays_for_corners`.
- `occlusion.dfy`: `sort_walls`, `filter_rays` and `collide_rays_w_walls`.
- `visibility.dfy`: `update_visible_polygon` and the geometry.py `Light`
  class.
- `lighting.dfy`: lighting.py.
- `ids.dfy`: `new_id`.
- `menu.dfy`: menu.py.
- `options.dfy`: options_screen.py.

Every loop of the modelled operations is a Dafny method whose loop is
proved against a specification. Mostly that is a function of the inputs
whose properties are then proved as lemmas. For `calculate_walls_centers`
it is the contents of the dictionary the loop builds. The loops of the
drawing, update and hover code are left out with that code.

Where the documentation and the code disagree, the model follows the code.
The docstring of `calculate_angle` (geometry.py:46-55) promises an angle in
0-360. The code returns minus atan2 in degrees, which is not reduced to
that range. The model keeps the angle abstract and relies on no range.

## Model

| member | source | states |
|---|---|---|
| Geometry.MoveAlongVector | geometry.py:58-88 | Raises ValueError exactly when neither a target nor an angle is given |
| Geometry.TargetOverridesAngle | geometry.py:77-84 | A target, when given, decides the angle and any angle passed with it is ignored |
| Geometry.CcwIsNegativeArea | geometry.py:119-126 | ccw's value is minus the signed doubled triangle area, so ccw holds exactly for clockwise triples with y pointing up |
| Geometry.CcwRotation | geometry.py:119-126 | Rotating the triple cyclically changes neither ccw's value nor its answer |
| Geometry.CcwSwap | geometry.py:119-126 | Swapping the last two points negates the value, so a non-collinear triple flips its answer |
| Geometry.CollinearIsNotCcw | geometry.py:119-126 | The test is strict: any point on the line through a and b gives value 0 and ccw false |
| Geometry.Intersection | geometry.py:91-112 | Raises ZeroDivisionError exactly when the divisor is 0 (parallel lines); otherwise the result lies on both lines |
| Geometry.IntersectionOnBothLines | geometry.py:104-112 | p1 + s·(p2 − p1) with get_intersection's s lies on line p1p2 and on line p3p4 |
| Geometry.LinesMeetOnce | geometry.py:104-112 | Two lines with a non-zero divisor share at most one point |
| Geometry.IntersectionIsUnique | geometry.py:91-112 | Any point on both lines is the one get_intersection returns, when the lines are not parallel |
| Geometry.SegmentBox | geometry.py:149-161 | The segment's box holds both end points and each of its bounds is a coordinate of one of them |
| Geometry.PolygonBox | geometry.py:136-146 | ValueError exactly for an empty polygon; otherwise a box holding every vertex whose four bounds are each attained by a vertex |
| Geometry.BoxTestSound | geometry.py:164-172 | When do_boxes_intersect passes in one order, the two boxes really share a point |
| Geometry.BoxTestEitherOrder | geometry.py:164-172 | Trying do_boxes_intersect in both orders is exactly the overlap test for well-formed boxes |
| Geometry.BoxTestAsymmetric | geometry.py:164-172 | Two overlapping boxes that the test rejects in one order and accepts in the other, so the y-part is asymmetric |
| Geometry.CrossingPointOnFirstSegment | geometry.py:91-112 | For segments crossing at interior points the divisor is non-zero and get_intersection is a + s·(b − a) with 0 < s < 1 |
| Geometry.EitherOrderDetectsCrossing | geometry.py:175-201 | intersects(s, t) or intersects(t, s), as collide_rays_w_walls tries them, reports every pair of segments that properly cross |
| Walls.BorderCorners | geometry.py:287-288 | The four screen corners |
| Walls.PolygonWalls | geometry.py:250-270 | One wall per vertex; wall i starts at vertex i |
| Walls.PolygonWallsClosed | geometry.py:250-270 | A polygon's walls form a closed chain: wall i ends at vertex i + 1 and the last wall closes on vertex 0 |
| Walls.ScreenBordersToWalls | geometry.py:237-248 | Four border walls: north, east, south and west |
| Walls.BorderWallsArePolygon | geometry.py:237-248 | The border walls are the polygon walls of get_border_corners, so they form a closed chain starting at those corners |
| Walls.AllPolygonWallsLength | geometry.py:250-270 | Obstacles with N vertices in total yield exactly N walls |
| Walls.ObstaclesToWalls | geometry.py:250-270 | The loop yields every obstacle's closed chain of walls, obstacle after obstacle |
| Walls.AppendPolygonWalls | geometry.py:258-268 | The inner loop appends one wall per vertex, to the next vertex or back to the first |
| Walls.Endpoints | geometry.py:272-284 | The end points find_corners visits: each wall's start then end, wall after wall |
| Walls.FindCorners | geometry.py:272-284 | corners is every wall end point once, in first-occurrence order; the open index maps a point to the last wall starting there; the close index maps it to the last non-degenerate wall ending there |
| Walls.VisitWall | geometry.py:276-284 | One pass of find_corners: a new point is appended; the wall opens its first point; it closes its second point unless the wall is degenerate, where wall.index finds that point at 0 |
| Walls.OpenWallsSpec | geometry.py:276-284 | The open index holds v exactly when some wall starts at v, and then holds the last such wall |
| Walls.CloseWallsSpec | geometry.py:276-284 | The close index holds v exactly when some non-degenerate wall ends at v, and then holds the last such wall |
| Walls.ClosedChainIsLinked | geometry.py:250-270 | In a closed chain every wall start is some wall's end and vice versa |
| Walls.AllPolygonWallsLinked | geometry.py:250-270 | The walls of any obstacle list are linked in that sense |
| Walls.AllPolygonWallsNonDegenerate | geometry.py:250-270 | Obstacles with no vertex equal to the next one give walls of positive length |
| Walls.BorderWallsProper | geometry.py:237-248 | The border walls are linked and non-degenerate |
| Walls.IndexesCoverCorners | geometry.py:272-284 | For linked, non-degenerate walls every corner is in both indexes, so the lookups of create_rays_for_corners and collide_rays_w_walls cannot raise KeyError |
| Common.Dedup | geometry.py:276-279 | The `if vertex not in corners: append` list: no duplicates, and exactly the elements of the input |
| Common.DedupFirstOccurrenceOrder | geometry.py:276-279 | Dedup lists the elements in the order of their first occurrences |
| Common.Filter | geometry.py:377-389 | A list comprehension with a condition: it keeps exactly the elements that pass, drawn from the input and no more often |
| Common.FilterSorted | geometry.py:318-335 | Filtering keeps the relative order, so a sorted list stays sorted |
| Common.FilterPartition | geometry.py:318-335 | Filtering by a condition and by its negation splits the list's multiset in two |
| Common.SortByKey | geometry.py:331-334 | list.sort(key=...): sorted by the key and a permutation of the input |
| Common.InsertKeepsTies | geometry.py:331-334 | Inserting an element puts it before every element with the same key, the rest keeping their order |
| Common.SortByKeyStable | geometry.py:331-334 | list.sort is stable: for every key, the elements with that key keep their input order |
| Occlusion.CalculateWallsCenters | geometry.py:290-298 | calculate_walls_centers: the dictionary's keys are exactly the given walls, and each maps to its center |
| Occlusion.SortWallsPermutation | geometry.py:318-335 | sort_walls returns the same walls, reordered |
| Occlusion.SortWallsBorderLast | geometry.py:318-335 | No border wall comes before an obstacle wall |
| Occlusion.SortWallsGroupsSorted | geometry.py:318-335 | Within the obstacle walls and within the border walls, the order is nearest centre first |
| Occlusion.FilterRaysSpec | geometry.py:377-389 | filter_rays keeps exactly the rays ending ccw of origin→wall.b and not ccw of origin→wall.a; a ray to the wall's own end is never kept |
| Occlusion.CollideRays | geometry.py:337-374 | The nested loops compute CollideRaysWithWalls: the surviving rays in order, then the clipped replacements |
| Occlusion.VisitRay | geometry.py:355-373 | The inner loop body for one filtered ray: a ray already colliding is skipped; a hit marks it and, off a corner, appends its clipped replacement |
| Occlusion.FirstBlocker | geometry.py:355-373 | The first wall in loop order that blocks the ray: it is one of the walls and blocks the ray, and there is none exactly when no wall blocks it |
| Occlusion.FirstBlockerAt | geometry.py:355-373 | A wall that blocks the ray after none of the walls before it did is the ray's first blocker |
| Occlusion.VisitSpec | geometry.py:355-373 | A ray joins `colliding` exactly when the wall hits it; a ray clipped here is clipped at its first blocker, so the replacements stay one per clipped ray, each that ray cut at its first blocking wall (Clips); the count of replacements matches the clipped rays |
| Occlusion.VisitRaysSpec | geometry.py:355-373 | The inner loop adds to `colliding` exactly the filtered rays the wall hits; when the wall is the first blocker of every new hit, each replacement stays tied to its own ray cut at its first blocking wall |
| Occlusion.VisitWallsSpec | geometry.py:355-373 | From wall j on, the outer loop adds to `colliding` exactly the rays those walls block; since the rays the earlier walls block are already colliding, each new replacement is its ray cut at its first blocking wall |
| Occlusion.CollideRaysWithWallsSpec | geometry.py:337-374 | The result is the unblocked rays in input order, then the replacements: there is a list of the blocked rays not aimed at a corner, each once, such that the i-th replacement runs from the origin to where the i-th of them meets the first wall, in wall order, that blocks it |
| Occlusion.SurvivorsAreUnblocked | geometry.py:355-374 | A ray survives exactly when no wall passes it through the filter and hits it; a corner ray is never hit by its own open or close wall |
| Occlusion.CollideRaysWithWallsErrors | geometry.py:337-374 | The pass raises only KeyError (a corner missing from an index) or ZeroDivisionError (a clipped ray parallel to its wall), and only the latter when every corner is indexed |
| Rays.CreateRaysForCorners | geometry.py:391-455 | The loop computes CreateRays, the corner-by-corner ray list |
| Rays.VisitCorner | geometry.py:405-454 | One pass for a corner that is neither excluded nor a screen corner: its hidden corners are excluded and its rays appended |
| Rays.ExcludeHidden | geometry.py:431-438 | The inner loop adds exactly the corners farther than the current one whose angle falls in its sweep, wrap-around included |
| Rays.AppendPresent | geometry.py:446-449 | Appends the candidate rays that are not None, in order |
| Rays.CornerStepCases | geometry.py:405-454 | The excluded check comes first; a screen corner gives exactly one direct ray; a missing index raises KeyError; any other corner gives offset a (exactly when its opening wall turns ccw), the direct ray, then offset b (exactly when its closing wall does not) |
| Rays.CornerStepSpec | geometry.py:405-454 | One pass keeps the earlier rays, adds at most three rays from the origin, always includes the direct ray of a corner not excluded, and excludes only corners strictly farther than it |
| Rays.RaysFromSpec | geometry.py:405-455 | Over the rest of the loop: at most three rays per corner, every corner left unexcluded has its direct ray, and every newly excluded corner is farther than some visited corner |
| Rays.CreateRaysSpec | geometry.py:391-455 | At most three rays per corner, all from the origin to a corner or to an offset end beside one; the nearest corner always has its direct ray |
| Rays.CreateRaysErrors | geometry.py:405-430 | Only KeyError can be raised, and none when every non-screen corner is in both indexes |
| Visibility.RayEnds | geometry.py:313-316 | The end of every ray, in order |
| Visibility.VisiblePolygonSorted | geometry.py:300-316 | The light polygon runs around the light by increasing angle |
| Visibility.VisibleRaysReach | geometry.py:300-316 | Every ray kept ends at a point the light reaches: an unblocked corner or offset ray's end, or, for such a ray not aimed at a corner, where its line meets a wall that blocks it |
| Visibility.VisiblePolygonVertices | geometry.py:300-316 | The polygon has one vertex per kept ray, and each vertex is a point the light reaches |
| Visibility.VisiblePolygonErrors | geometry.py:300-316 | update_visible_polygon raises only KeyError or ZeroDivisionError |
| Visibility.IndexedCornersRaiseNoKeyError | geometry.py:300-316 | With every corner in both indexes, only ZeroDivisionError is possible |
| Visibility.ProperObstaclesRaiseNoKeyError | geometry.py:210-231 | For a light built over obstacles with no repeated consecutive vertex, update_visible_polygon can only raise ZeroDivisionError |
| Visibility.ComputeVisiblePolygon | geometry.py:300-316 | Sorting the corners, casting, sorting the walls, colliding and sorting the kept rays yields VisiblePolygon |
| Visibility.Light.constructor | geometry.py:210-231 | The walls, corners, indexes and border corners are derived from the obstacles (Valid), and the polygon starts empty |
| Visibility.Light.MoveTo | geometry.py:233-234 | Only the origin changes, and the derived fields stay valid |
| Visibility.Light.UpdateVisiblePolygon | geometry.py:300-316 | On success the polygon becomes VisiblePolygon; an exception leaves it as it was; nothing else changes |
| Lighting.WallSegments | lighting.py:134-164 | IndexError exactly when some obstacle has no points; otherwise the four screen border walls come first |
| Lighting.CollectSegments | lighting.py:143-158 | The segment loop of find_walls computes WallSegments |
| Lighting.OpenChain | lighting.py:151-156 | The n − 1 consecutive edges, which with the closing edge (last point, first point) are the polygon's walls |
| Lighting.NumberedSpec | lighting.py:60-74 | Numbered walls keep their segments and carry strictly increasing ids, all above the counter's old value |
| Lighting.NumberWalls | lighting.py:160 | One new_id(Wall) per segment, in order; the counter ends higher by the number of segments |
| Lighting.Endings | lighting.py:175-179 | The order find_endpoints visits wall ends: a then b, wall after wall |
| Lighting.MarkAllSpec | lighting.py:181-188 | After marking, each endpoint's begins and ends are the last matching wall's id, or what they were before |
| Lighting.BeginsAtSpec | lighting.py:181-188 | begins is set exactly when some wall starts at the position, to the id of the last such wall |
| Lighting.EndsAtSpec | lighting.py:181-188 | ends is set exactly when some wall ends at the position without starting there (the elif), to the id of the last such wall |
| Lighting.EndingsMembers | lighting.py:175-179 | A position is a wall ending exactly when some wall starts or ends there |
| Lighting.FindEndpointsSpec | lighting.py:167-190 | One endpoint per distinct wall end, numbered in first-occurrence order, each naming the last wall beginning and the last non-degenerate wall ending there |
| Lighting.VisitEnding | lighting.py:176-179 | A position not seen before gets a fresh endpoint with the next id |
| Lighting.MarkWall | lighting.py:182-188 | Every endpoint is checked against one wall: begins when a matches, else ends when b matches |
| Lighting.NewEndpoints | lighting.py:175-179 | The first pass gives fresh endpoints for the distinct positions, and the counter grows by their number |
| Lighting.FindEndpoints | lighting.py:167-190 | find_endpoints computes EndpointsOf: fresh endpoints, then marked against every wall |
| Lighting.WallById | lighting.py:161-164 | The dict lookup: a wall with that id, or KeyError exactly when no wall has it |
| Lighting.ChooseOffsets | lighting.py:322-344 | The quadrant branch computes OffsetEnds |
| Lighting.CastRays | lighting.py:263-353 | The loop computes CastRaysOf |
| Lighting.CastEndpoint | lighting.py:282-351 | The body of the loop for one endpoint computes CastStep |
| Lighting.CastStepSpec | lighting.py:282-351 | An endpoint out of range or failing the edge test adds nothing and changes nothing; otherwise the main ray, up to two offsets with the same wall ids, and the zero ray are appended |
| Lighting.CastRaysShape | lighting.py:263-353 | Every ray cast is the zero ray or starts at the origin with the wall ids of an endpoint within max_range |
| Lighting.TemporaryFixDuplicates | lighting.py:350-351 | The guard never matches, so two turns that emit rays append the zero ray twice |
| Lighting.ZeroRayAppended | lighting.py:350-351 | Every turn that emits rays appends the zero ray |
| Lighting.CastRaysErrors | lighting.py:263-353 | Only KeyError can be raised, and none when every endpoint names two walls the dict holds |
| Lighting.UpperLeftHasNoOffsetA | lighting.py:322-327 | In the upper-left quadrant both tests assign offset_ray_b, so offset_ray_a stays None |
| Lighting.FirstCrossing | lighting.py:233-243 | The first wall in order that crosses the ray and is not one of its own walls; None exactly when there is none |
| Lighting.FirstCrossingIsFirst | lighting.py:233-245 | No wall before the chosen one blocks the ray (the break) |
| Lighting.FindCollidingWall | lighting.py:233-245 | The inner loop finds FirstCrossing |
| Lighting.Clip | lighting.py:246-250 | The replacement starts at the origin with no wall ids and ends on both the ray's and the wall's line; parallel lines raise ZeroDivisionError |
| Lighting.CollideRays | lighting.py:229-252 | The loop over the growing list computes SweepFrom |
| Lighting.TestRay | lighting.py:229-252 | One pass tests the next ray and never shortens the list |
| Lighting.SweepStepKeeps | lighting.py:229-252 | One pass keeps the sweep invariant: cast rays first, each colliding ray blocked and its replacement at the matching place, and every tested blocked ray recorded |
| Lighting.CollideRaysSpec | lighting.py:229-252 | Only ZeroDivisionError can be raised; when the loop reaches the end of the list, a ray is colliding exactly when a wall other than its own crosses it, and the replacements follow the cast rays in order |
| Lighting.FinalRaysSpec | lighting.py:256-261 | The final polygon runs around the light by increasing angle, and no wall other than its own crosses any ray behind it |
| Lighting.RunSweep | lighting.py:224-252 | Casting from the sorted endpoints, then colliding with the walls sorted by centroid distance, computes LightSweep |
| Lighting.Light.constructor | lighting.py:88-132 | The position, power and obstacles are set, with no walls, endpoints, rays or polygon yet |
| Lighting.Light.FindWalls | lighting.py:134-164 | IndexError for an empty obstacle changes nothing; otherwise the walls get successive new ids and the endpoints are built from them, each counter growing by the number it handed out |
| Lighting.Light.Create | lighting.py:88-132 | Construction raises IndexError exactly when find_walls does, leaving both id counters as they were; otherwise it yields a fresh light with the given origin, power and obstacles, numbered walls, their endpoints, no rays or polygon, and both counters advanced by the ids drawn |
| Lighting.Light.UpdateLight | lighting.py:199-261 | The endpoints are sorted by angle in place; then rays and polygon are replaced, or an exception or exhausted fuel leaves them as they were |
| Lighting.Light.Relight | lighting.py:224-261 | The part of update_light after sorting the endpoints, as in UpdateLight |
| Ids.NewId | main.py:46-56 | AttributeError when the class has no count, which is then unchanged; otherwise the counter grows by one and its new value is the id |
| Ids.SuccessiveIds | main.py:46-56 | Two calls for one class give strictly increasing ids, and another class's counter is untouched |
| Menus.Normalize | menu.py:101-108 | minimum below the range, maximum above it, the value inside it; the result lies in [minimum, maximum] when that range is not empty |
| Menus.NormalizeIdempotent | menu.py:101-108 | Clamping twice equals clamping once |
| Menus.Written | menu.py:198-203 | The attribute store after update: every associated attribute holds the value and every other attribute is unchanged |
| Menus.SharedVariable.constructor | menu.py:151-162 | Holds the value, with no associates |
| Menus.SharedVariable.AddAssociate | menu.py:174-183 | The object's attribute is associated, replacing any earlier one of that object |
| Menus.SharedVariable.RemoveAssociate | menu.py:185-196 | Drops only that object, and changes nothing when it is not associated |
| Menus.SharedVariable.SetValue | menu.py:168-203 | Stores the value and writes it into every associated attribute and nothing else |
| Menus.SubmenuKey | menu.py:409-419 | The title when it is truthy, else the submenu's name |
| Menus.Menu.constructor | menu.py:386-394 | The main menu is registered under its name and is current |
| Menus.Menu.AddSubmenu | menu.py:409-419 | Registers the submenu under SubmenuKey, replacing any earlier one |
| Menus.Menu.ToggleSubmenu | menu.py:421-431 | Shows the named submenu's elements and background; an unknown name raises KeyError and shows the same as before |
| Menus.ButtonWidth | menu.py:596-605 | The given width, else one font size per character of the name |
| Menus.ButtonHeight | menu.py:596-605 | The given height, else three font sizes |
| Menus.Button.constructor | menu.py:549-605 | right − left is the width and top − bottom the height, around the center |
| Menus.Button.CursorAboveCentered | menu.py:607-610 | The hit test holds exactly within half the width and half the height of the center, borders excluded |
| Menus.Button.OnMouseOver | menu.py:515-521 | The hover flag flips |
| Menus.Trunc | menu.py:795 | int() of a float truncates toward zero |
| Menus.SliderValue | menu.py:788-795 | ZeroDivisionError exactly for a zero scale; otherwise a float for a float minimum and an int otherwise |
| Menus.SliderValueAtEnds | menu.py:788-795 | With scale = width/(max − min), the left end of the rail gives the minimum and the right end the maximum |
| Menus.IntMinimumAtLeft | menu.py:788-795 | An int minimum comes back unchanged at the left end |
| Menus.StartRoundTrip | menu.py:720-722 | The start position maps back to min + start, which is the start value for a float minimum exactly when that minimum is 0 |
| Menus.Slider.Create | menu.py:654-731 | Associates the attribute first and leaves a shared variable's value unchanged; raises TypeError for a str bound, ZeroDivisionError for equal bounds, and with numeric distinct bounds TypeError exactly when the value is a str and success otherwise; a slider made is valid, with its handle at left + value·scale |
| Menus.Slider.OnPress | menu.py:738-740 | Dragging starts |
| Menus.Slider.OnDrag | menu.py:742-747 | The handle moves by the drag but stays within [left, right], and the value it points at becomes current |
| Menus.Slider.OnRelease | menu.py:749-753 | Only a dragged slider stops and hands its current value to the variable and its attributes |
| Menus.Slider.OnMouseOver | menu.py:755-759 | The hover flag flips, and leaving hover releases the slider |
| Menus.CheckBox.constructor | menu.py:838-920 | Checked and unchecked values default to True and False, the attribute is associated with the variable, and the variable keeps its value (the shared one's, or `start` for a new one) |
| Menus.CheckBox.OnPress | menu.py:927-929 | The state flips and the variable takes the checked or unchecked value, written to its attributes |
| Menus.CheckBox.PressTwice | menu.py:927-929 | Two presses restore the state and leave the variable at that state's value |
| Menus.CheckBox.OnMouseOver | menu.py:515-521 | The hover flag flips |
| Options.CreatePointsList | options_screen.py:34-36 | The four corners (x−w, y−h), (x+w, y−h), (x+w, y+h), (x−w, y+h) |
| Options.NewButton | options_screen.py:21-31 | A button with its position, size, function and corner list |
| Options.OnClickOutcome | options_screen.py:48-52 | Calls the function and swallows a TypeError, which is what calling None raises; any other exception escapes |
| Options.FirstInsideSpec | options_screen.py:105-119 | The first polygon holding the point is chosen, and none exactly when no polygon holds it |
| Options.BoxHitTestsAgree | options_screen.py:105-119 | For a box of positive size, the ccw test over create_points_list agrees with mouse_over's inclusive test, edges counting as inside |
| Options.CreatePointsLists | options_screen.py:76-85 | The switch box, then the plus polygon growing from its right edge to x + 3w, then the minus polygon growing from its left edge to x − 3w |
| Options.Stepped | options_screen.py:121-125 | One step up on the plus button below max, one down on the minus button above min, otherwise no change |
| Options.ClickKeepsBand | options_screen.py:121-125 | The bound is checked before stepping: a click keeps the value strictly between min − step and max + step |
| Options.StepOvershootsMax | options_screen.py:121-125 | A click can leave the value above max, for example 9 + 5 with max 10 |
| Options.ClampedValue.constructor | options_screen.py:61-73 | The fields, the three polygons, and no active button |
| Options.ClampedValue.MouseOver | options_screen.py:105-119 | The active button becomes the first polygon holding the cursor, or None, and the result says whether there is one |
| Options.ClampedValue.OnClick | options_screen.py:121-126 | Steps the value as Stepped says, then calls the function as Button.on_click does |
| Options.RightOfSwitch | options_screen.py:105-119 | A cursor right of the switch never selects it, so the plus or minus polygon decides |
| Options.OnSwitch | options_screen.py:105-119 | A cursor on the switch's box always selects the switch, which comes first |

## Left out

- Floating point: coordinates are exact reals. Rounding, and any float edge case, is not modelled.
- Distances, angles and the sin/cos projection are uninterpreted (`Geometry.Trig`). This covers `distance`, `calculate_angle`, `calculate_vector_2d`, `distance_2d` and the lighting.py `calculate_angle`. Only their use as sort keys and cull inputs is modelled.
- `are_points_in_line` is modelled on the abstract distance with its EPSILON band. Nothing is proved about the square roots behind it.
- shapely's `LineString.crosses`, `.centroid` and `speedups` are not part of this model. `crosses` is an abstract predicate (`Lighting.Env`). A wall's centroid is taken as its midpoint, which is what shapely gives for a two-point line.
- The `quadrant` helper and `Quadrant` enum that lighting.py imports are not part of this model. `quadrant` is an abstract function. The offset branch built on it is modelled case by case.
- Drawing, textures, fonts, colours, `Cursor`, `Application`, `on_draw`/`on_update`, `on_mouse_motion`, `run_app` and the pygame initialisation: rendering and input only.
- The `datetime` timing and `print` calls in `update_light`: I/O only.
- `Lighting.Light.UpdateLight` and `Lighting.CollideRays`: the loop over a list that grows while it is walked is bounded by a `fuel` parameter. When the fuel runs out first, the update reports `OutOfFuel` and changes nothing. Termination of the original loop is not claimed.
- `Lighting.Light`: `self.walls`, a dict keyed by wall id, is modelled as the list of walls, with lookup by `WallById`; ids from `new_id` are distinct, so the two agree. The light's id, height, colour, arc angle and debug flag are left out; they only feed drawing.
- `Lighting.Light.UpdateLight`: update_light assigns the polygon as a generator over the sorted rays (lighting.py:258). The model stores the list of points that generator yields.
- `Visibility.Light`: the colour is left out; it only feeds drawing. `sort_walls` computes each wall's centre with `WallCenter` directly rather than looking it up in `walls_centers`; the two agree by `Occlusion.CalculateWallsCenters`.
- `Occlusion.SortWalls`: the in-place `list.sort` calls are modelled on values by `Common.SortByKey`, an insertion sort whose stability is `Common.SortByKeyStable`. The second sort, on the key "is a border wall", is modelled as the stable partition it produces (obstacle walls, then border walls, each in distance order).
- `Options.ClampedValue`: its text rendering and the unused `window` argument are left out.
- The `update` and `draw` methods of every widget and the slider and check box hit tests (`check_if_cursor_above` of Slider and CheckBox): drawing and hover feedback only.
- `Menus.SharedVariable.SetValue`: the `__dict__` reflection is modelled as a store (`Menus.Attributes`) keyed by (object, attribute name). Objects are identities.
- `Button.on_press` of menu.py and every widget callback are abstract. The options-screen callback is reduced to what it raises (`Options.Callback`).
- `Slider.set_variable`: the float formatting of the label is left out. `int()` is modelled as truncation toward zero.
- `TextLabel`, `TextField`, `UserInput` and `SubMenu` drawing: the first three are stubs, and the last draws only.
- `Application.spawn` and `add_to_level_geometry`: the latter is not part of this model.
- `Ids.NewId`: Python's unbounded int counter is modelled as `int`. There is no width to wrap.
