/** The demo page's road grid: avenues are verticals, streets are horizontals, and a pickup route
    drives along them. Coordinates are reals and `nearlyEqual` is equality. */
module RoadGraph {

  datatype Point = Point(left: real, top: real)

  /** Pixels per percent of the 760 by 510 map. */
  const SCALE_X := 7.6
  const SCALE_Y := 5.1

  /** Road coordinates, in percent of the map. */
  datatype Grid = Grid(avenues: seq<real>, streets: seq<real>)
  {
    predicate Valid() {
      avenues != [] && streets != []
    }

    predicate OnAvenue(p: Point) { p.left in avenues }

    predicate OnStreet(p: Point) { p.top in streets }

    predicate IsRoadPoint(p: Point) { OnAvenue(p) || OnStreet(p) }

    predicate IsLegalSegment(a: Point, b: Point) {
      (a.top == b.top && OnStreet(a)) || (a.left == b.left && OnAvenue(a))
    }
  }

  /** pointDistancePx for two points that share a coordinate. */
  function Distance(a: Point, b: Point): real {
    SCALE_X * Abs(b.left - a.left) + SCALE_Y * Abs(b.top - a.top)
  }

  /** pointDistancePx squared, for points that need not share a coordinate. */
  function SquaredDistance(a: Point, b: Point): real {
    var x, y := SCALE_X * (b.left - a.left), SCALE_Y * (b.top - a.top);
    x * x + y * y
  }

  function Abs(x: real): (y: real)
    ensures y >= 0.0 && (y == x || y == -x)
  {
    if x < 0.0 then -x else x
  }

  lemma DistanceTriangle(a: Point, b: Point, c: Point)
    ensures Distance(a, c) <= Distance(a, b) + Distance(b, c)
  {
  }

  // ---- paths ----

  /** `path` continues from `start`, each hop along one avenue or one street. */
  ghost predicate LegalPath(g: Grid, start: Point, path: seq<Point>)
    decreases |path|
  {
    path != [] ==> g.IsLegalSegment(start, path[0]) && LegalPath(g, path[0], path[1..])
  }

  function EndOf(start: Point, path: seq<Point>): Point {
    if path == [] then start else path[|path| - 1]
  }

  function Length(start: Point, path: seq<Point>): real
    decreases |path|
  {
    if path == [] then 0.0 else Distance(start, path[0]) + Length(path[0], path[1..])
  }

  lemma {:induction false} StraightIsShortest(start: Point, path: seq<Point>)
    ensures Length(start, path) >= Distance(start, EndOf(start, path))
    decreases |path|
  {
    if path != [] {
      StraightIsShortest(path[0], path[1..]);
      assert EndOf(start, path) == EndOf(path[0], path[1..]);
      DistanceTriangle(start, path[0], EndOf(start, path));
    }
  }

  /** How far it is from one parallel road to another by way of the given connector. */
  function Detour(from: real, to: real, connector: real): real {
    Abs(connector - from) + Abs(to - connector)
  }

  lemma DetourStep(from: real, via: real, to: real, connector: real)
    ensures Detour(from, to, connector) <= Abs(via - from) + Detour(via, to, connector)
  {
  }

  /** A legal path that changes its `left` runs along some street on the way. */
  lemma {:induction false} CrossingStreets(g: Grid, start: Point, path: seq<Point>) returns (street: real)
    requires LegalPath(g, start, path) && EndOf(start, path).left != start.left
    ensures street in g.streets
    ensures Length(start, path)
         >= SCALE_X * Abs(EndOf(start, path).left - start.left)
            + SCALE_Y * Detour(start.top, EndOf(start, path).top, street)
    decreases |path|
  {
    var end := EndOf(start, path);
    assert end == EndOf(path[0], path[1..]);
    if path[0].left != start.left {
      street := start.top;
      StraightIsShortest(start, path);
      assert Detour(start.top, end.top, street) == Abs(end.top - start.top);
    } else {
      street := CrossingStreets(g, path[0], path[1..]);
      DetourStep(start.top, path[0].top, end.top, street);
    }
  }

  lemma {:induction false} CrossingAvenues(g: Grid, start: Point, path: seq<Point>) returns (avenue: real)
    requires LegalPath(g, start, path) && EndOf(start, path).top != start.top
    ensures avenue in g.avenues
    ensures Length(start, path)
         >= SCALE_X * Detour(start.left, EndOf(start, path).left, avenue)
            + SCALE_Y * Abs(EndOf(start, path).top - start.top)
    decreases |path|
  {
    var end := EndOf(start, path);
    assert end == EndOf(path[0], path[1..]);
    if path[0].top != start.top {
      avenue := start.left;
      StraightIsShortest(start, path);
      assert Detour(start.left, end.left, avenue) == Abs(end.left - start.left);
    } else {
      avenue := CrossingAvenues(g, path[0], path[1..]);
      DetourStep(start.left, path[0].left, end.left, avenue);
    }
  }

  // ---- choosing coordinates ----

  /** closestRoadCoordinate: the first of the nearest values. */
  method ClosestRoadCoordinate(values: seq<real>, target: real) returns (closest: real)
    requires values != []
    ensures closest in values
    ensures forall v :: v in values ==> Abs(closest - target) <= Abs(v - target)
  {
    closest := values[0];
    for i := 1 to |values|
      invariant closest in values
      invariant forall v :: v in values[..i] ==> Abs(closest - target) <= Abs(v - target)
    {
      assert values[..i + 1] == values[..i] + [values[i]];
      if Abs(values[i] - target) < Abs(closest - target) {
        closest := values[i];
      }
    }
    assert values[..|values|] == values;
  }

  /** The reduce over streets: the connector with the least detour between two avenues. */
  method BestStreet(g: Grid, start: Point, pickup: Point) returns (best: real)
    requires g.Valid()
    ensures best in g.streets
    ensures forall v :: v in g.streets ==> Detour(start.top, pickup.top, best) <= Detour(start.top, pickup.top, v)
  {
    best := g.streets[0];
    for i := 1 to |g.streets|
      invariant best in g.streets
      invariant forall v :: v in g.streets[..i] ==>
                              Detour(start.top, pickup.top, best) <= Detour(start.top, pickup.top, v)
    {
      var street := g.streets[i];
      assert g.streets[..i + 1] == g.streets[..i] + [street];
      var bestDistance := Distance(start, Point(start.left, best)) + Distance(Point(pickup.left, best), pickup);
      var candidateDistance :=
        Distance(start, Point(start.left, street)) + Distance(Point(pickup.left, street), pickup);
      if candidateDistance < bestDistance {
        best := street;
      }
    }
    assert g.streets[..|g.streets|] == g.streets;
  }

  method BestAvenue(g: Grid, start: Point, pickup: Point) returns (best: real)
    requires g.Valid()
    ensures best in g.avenues
    ensures forall v :: v in g.avenues ==> Detour(start.left, pickup.left, best) <= Detour(start.left, pickup.left, v)
  {
    best := g.avenues[0];
    for i := 1 to |g.avenues|
      invariant best in g.avenues
      invariant forall v :: v in g.avenues[..i] ==>
                              Detour(start.left, pickup.left, best) <= Detour(start.left, pickup.left, v)
    {
      var avenue := g.avenues[i];
      assert g.avenues[..i + 1] == g.avenues[..i] + [avenue];
      var bestDistance := Distance(start, Point(best, start.top)) + Distance(Point(best, pickup.top), pickup);
      var candidateDistance := Distance(start, Point(avenue, start.top)) + Distance(Point(avenue, pickup.top), pickup);
      if candidateDistance < bestDistance {
        best := avenue;
      }
    }
    assert g.avenues[..|g.avenues|] == g.avenues;
  }

  lemma SquareGrows(a: real, b: real)
    requires 0.0 <= a <= b
    ensures a * a <= b * b
  {
    assert a * a <= a * b <= b * b;
  }

  /** No point is nearer than its offset along either axis. */
  lemma OffsetsBelowDistance(a: Point, b: Point, x: real, y: real)
    requires 0.0 <= x <= Abs(b.left - a.left) && 0.0 <= y <= Abs(b.top - a.top)
    ensures (SCALE_X * x) * (SCALE_X * x) <= SquaredDistance(a, b)
    ensures (SCALE_Y * y) * (SCALE_Y * y) <= SquaredDistance(a, b)
  {
    SquareGrows(SCALE_X * x, SCALE_X * Abs(b.left - a.left));
    SquareGrows(SCALE_Y * y, SCALE_Y * Abs(b.top - a.top));
    Squares(SCALE_X * (b.left - a.left));
    Squares(SCALE_Y * (b.top - a.top));
  }

  lemma Squares(x: real)
    ensures x * x >= 0.0 && Abs(x) * Abs(x) == x * x
  {
  }

  /** Between points that share a coordinate the two distances agree. */
  lemma SharedCoordinate(a: Point, b: Point)
    requires a.left == b.left || a.top == b.top
    ensures SquaredDistance(a, b) == Distance(a, b) * Distance(a, b)
  {
    Squares(b.left - a.left);
    Squares(b.top - a.top);
  }

  /** A point on the axes through `a`, no further than both offsets, is no further than any point
      that has one of the offsets. */
  lemma NoNearer(a: Point, near: Point, b: Point, x: real, y: real)
    requires a.left == near.left || a.top == near.top
    requires x >= 0.0 && y >= 0.0 && Distance(a, near) <= SCALE_X * x && Distance(a, near) <= SCALE_Y * y
    requires x <= Abs(b.left - a.left) || y <= Abs(b.top - a.top)
    ensures SquaredDistance(a, near) <= SquaredDistance(a, b)
  {
    SharedCoordinate(a, near);
    SquareGrows(Distance(a, near), SCALE_X * x);
    SquareGrows(Distance(a, near), SCALE_Y * y);
    if x <= Abs(b.left - a.left) {
      OffsetsBelowDistance(a, b, x, 0.0);
    } else {
      OffsetsBelowDistance(a, b, 0.0, y);
    }
  }

  /** nearestRoadPickup: a road point nearest to `point` among all road points. */
  method NearestRoadPickup(g: Grid, point: Point) returns (pickup: Point)
    requires g.Valid()
    ensures g.IsRoadPoint(pickup)
    ensures forall p: Point :: g.IsRoadPoint(p) ==> SquaredDistance(point, pickup) <= SquaredDistance(point, p)
    ensures UsesCoordinates(g, point, point, pickup)
  {
    var avenue := ClosestRoadCoordinate(g.avenues, point.left);
    var street := ClosestRoadCoordinate(g.streets, point.top);
    var avenueCandidate := Point(avenue, point.top);
    var streetCandidate := Point(point.left, street);
    pickup := if Distance(point, avenueCandidate) <= Distance(point, streetCandidate) then avenueCandidate
    else streetCandidate;
    var x, y := Abs(avenue - point.left), Abs(street - point.top);
    assert Distance(point, pickup) <= SCALE_X * x && Distance(point, pickup) <= SCALE_Y * y;
    forall p: Point | g.IsRoadPoint(p) ensures SquaredDistance(point, pickup) <= SquaredDistance(point, p) {
      NoNearer(point, pickup, p, x, y);
    }
  }

  // ---- waypoints ----

  function Append(waypoints: seq<Point>, point: Point): seq<Point> {
    if waypoints != [] && waypoints[|waypoints| - 1] == point then waypoints else waypoints + [point]
  }

  function Without(waypoints: seq<Point>, start: Point): seq<Point> {
    if waypoints == [] then []
    else (if waypoints[0] == start then [] else [waypoints[0]]) + Without(waypoints[1..], start)
  }

  /** What buildPickupWaypoints does: a route, or one of its two throws. */
  datatype Route = Route(waypoints: seq<Point>) | NotOnRoad | LeftRoad

  /** The final check of buildPickupWaypoints: does every hop stay on the roads? */
  method StaysOnRoads(g: Grid, start: Point, waypoints: seq<Point>) returns (ok: bool)
    ensures ok <==> LegalPath(g, start, waypoints) && forall p :: p in waypoints ==> g.IsRoadPoint(p)
  {
    var previous := start;
    for i := 0 to |waypoints|
      invariant previous == EndOf(start, waypoints[..i])
      invariant LegalPath(g, previous, waypoints[i..]) && (forall p :: p in waypoints[i..] ==> g.IsRoadPoint(p))
           <==> LegalPath(g, start, waypoints) && (forall p :: p in waypoints ==> g.IsRoadPoint(p))
    {
      assert waypoints[i..][1..] == waypoints[i + 1..];
      assert waypoints[i..] == [waypoints[i]] + waypoints[i + 1..];
      if !g.IsRoadPoint(waypoints[i]) || !g.IsLegalSegment(previous, waypoints[i]) {
        assert waypoints[i] in waypoints[i..];
        return false;
      }
      previous := waypoints[i];
    }
    return true;
  }

  /** A route is right when it is legal, ends at the pickup and no legal path is shorter. */
  ghost predicate ShortestRoute(g: Grid, start: Point, pickup: Point, waypoints: seq<Point>) {
    && LegalPath(g, start, waypoints)
    && (forall p :: p in waypoints ==> g.IsRoadPoint(p))
    && EndOf(start, waypoints) == pickup
    && forall path :: LegalPath(g, start, path) && EndOf(start, path) == pickup ==>
                        Length(start, waypoints) <= Length(start, path)
  }

  /** A legal route no longer than the straight distance is shortest. */
  lemma StraightRouteIsShortest(g: Grid, start: Point, pickup: Point, waypoints: seq<Point>)
    requires LegalPath(g, start, waypoints) && EndOf(start, waypoints) == pickup
    requires forall p :: p in waypoints ==> g.IsRoadPoint(p)
    requires Length(start, waypoints) <= Distance(start, pickup)
    ensures ShortestRoute(g, start, pickup, waypoints)
  {
    forall path | LegalPath(g, start, path) && EndOf(start, path) == pickup
      ensures Length(start, waypoints) <= Length(start, path)
    {
      StraightIsShortest(start, path);
    }
  }

  /** Between two different avenues the best street gives a shortest route. */
  lemma ByStreetIsShortest(g: Grid, start: Point, pickup: Point, street: real, waypoints: seq<Point>)
    requires LegalPath(g, start, waypoints) && EndOf(start, waypoints) == pickup
    requires forall p :: p in waypoints ==> g.IsRoadPoint(p)
    requires start.left != pickup.left
    requires forall v :: v in g.streets ==> Detour(start.top, pickup.top, street) <= Detour(start.top, pickup.top, v)
    requires Length(start, waypoints)
          <= SCALE_X * Abs(pickup.left - start.left) + SCALE_Y * Detour(start.top, pickup.top, street)
    ensures ShortestRoute(g, start, pickup, waypoints)
  {
    forall path | LegalPath(g, start, path) && EndOf(start, path) == pickup
      ensures Length(start, waypoints) <= Length(start, path)
    {
      var crossed := CrossingStreets(g, start, path);
    }
  }

  lemma ByAvenueIsShortest(g: Grid, start: Point, pickup: Point, avenue: real, waypoints: seq<Point>)
    requires LegalPath(g, start, waypoints) && EndOf(start, waypoints) == pickup
    requires forall p :: p in waypoints ==> g.IsRoadPoint(p)
    requires start.top != pickup.top
    requires forall v :: v in g.avenues ==>
                           Detour(start.left, pickup.left, avenue) <= Detour(start.left, pickup.left, v)
    requires Length(start, waypoints)
          <= SCALE_X * Detour(start.left, pickup.left, avenue) + SCALE_Y * Abs(pickup.top - start.top)
    ensures ShortestRoute(g, start, pickup, waypoints)
  {
    forall path | LegalPath(g, start, path) && EndOf(start, path) == pickup
      ensures Length(start, waypoints) <= Length(start, path)
    {
      var crossed := CrossingAvenues(g, start, path);
    }
  }

  // ---- a route through given corners ----

  predicate Hop(g: Grid, a: Point, b: Point) {
    a == b || g.IsLegalSegment(a, b)
  }

  /** Each corner is reached from the one before by a legal hop, or is the same point. */
  ghost predicate Hops(g: Grid, start: Point, corners: seq<Point>)
    decreases |corners|
  {
    corners != [] ==> Hop(g, start, corners[0]) && Hops(g, corners[0], corners[1..])
  }

  /** Once the corners have left `start` they do not come back to it. */
  ghost predicate NoReturn(start: Point, corners: seq<Point>) {
    corners != [] ==> start !in corners || (corners[0] == start && NoReturn(start, corners[1..]))
  }

  function AppendAll(waypoints: seq<Point>, corners: seq<Point>): seq<Point>
    decreases |corners|
  {
    if corners == [] then waypoints else AppendAll(Append(waypoints, corners[0]), corners[1..])
  }

  /** The waypoints of a route: corners appended without repeats, then without the start. */
  function Through(start: Point, corners: seq<Point>): seq<Point> {
    Without(AppendAll([], corners), start)
  }

  function Compress(previous: Point, corners: seq<Point>): seq<Point>
    decreases |corners|
  {
    if corners == [] then []
    else (if corners[0] == previous then [] else [corners[0]]) + Compress(corners[0], corners[1..])
  }

  lemma {:induction false} AppendAllCompresses(waypoints: seq<Point>, corners: seq<Point>)
    requires waypoints != []
    ensures AppendAll(waypoints, corners) == waypoints + Compress(waypoints[|waypoints| - 1], corners)
    decreases |corners|
  {
    if corners != [] {
      AppendAllCompresses(Append(waypoints, corners[0]), corners[1..]);
    }
  }

  lemma {:induction false} WithoutAbsent(waypoints: seq<Point>, start: Point)
    requires start !in waypoints
    ensures Without(waypoints, start) == waypoints
  {
    if waypoints != [] {
      WithoutAbsent(waypoints[1..], start);
    }
  }

  lemma {:induction false} CompressUses(previous: Point, corners: seq<Point>)
    ensures forall p :: p in Compress(previous, corners) ==> p in corners
    ensures |Compress(previous, corners)| <= |corners|
    decreases |corners|
  {
    if corners != [] {
      CompressUses(corners[0], corners[1..]);
    }
  }

  lemma {:induction false} WithoutCompress(start: Point, corners: seq<Point>)
    requires NoReturn(start, corners)
    ensures Without(Compress(start, corners), start) == Compress(start, corners)
    decreases |corners|
  {
    if corners != [] && corners[0] == start {
      WithoutCompress(start, corners[1..]);
      assert Compress(start, corners) == Compress(start, corners[1..]);
    } else {
      CompressUses(start, corners);
      WithoutAbsent(Compress(start, corners), start);
    }
  }

  lemma {:induction false} ThroughCompresses(start: Point, corners: seq<Point>)
    requires NoReturn(start, corners)
    ensures Through(start, corners) == Compress(start, corners)
  {
    if corners != [] {
      AppendAllCompresses([corners[0]], corners[1..]);
      var all := [corners[0]] + Compress(corners[0], corners[1..]);
      assert Append([], corners[0]) == [corners[0]];
      assert AppendAll([], corners) == all && all[1..] == Compress(corners[0], corners[1..]);
      if corners[0] == start {
        WithoutCompress(start, corners[1..]);
      } else {
        WithoutCompress(start, corners);
      }
    }
  }

  lemma {:induction false} CompressIsLegal(g: Grid, start: Point, corners: seq<Point>)
    requires Hops(g, start, corners)
    ensures LegalPath(g, start, Compress(start, corners))
    ensures EndOf(start, Compress(start, corners)) == EndOf(start, corners)
    ensures Length(start, Compress(start, corners)) == Length(start, corners)
    decreases |corners|
  {
    if corners != [] {
      CompressIsLegal(g, corners[0], corners[1..]);
      var rest := Compress(corners[0], corners[1..]);
      assert EndOf(start, corners) == EndOf(corners[0], corners[1..]);
      if corners[0] != start {
        assert Compress(start, corners) == [corners[0]] + rest && Compress(start, corners)[1..] == rest;
      } else {
        assert Compress(start, corners) == rest;
      }
    }
  }

  /** A route through legal corners is legal, ends at the last corner and is as long as they say. */
  lemma RouteThrough(g: Grid, start: Point, corners: seq<Point>)
    requires Hops(g, start, corners) && NoReturn(start, corners)
    ensures var route := Through(start, corners);
            && LegalPath(g, start, route) && EndOf(start, route) == EndOf(start, corners)
            && Length(start, route) == Length(start, corners)
  {
    ThroughCompresses(start, corners);
    CompressIsLegal(g, start, corners);
  }

  // ---- buildPickupWaypoints ----

  lemma HopsOfTwo(g: Grid, start: Point, a: Point, b: Point)
    requires start != b && Hop(g, start, a) && Hop(g, a, b)
    ensures Hops(g, start, [a, b]) && NoReturn(start, [a, b])
    ensures Length(start, [a, b]) == Distance(start, a) + Distance(a, b)
  {
    assert [a, b][1..] == [b] && [b][1..] == [];
    assert Hops(g, b, []) && Hops(g, a, [b]);
    assert Length(a, [b]) == Distance(a, b) + Length(b, []);
    assert NoReturn(start, [b]);
  }

  lemma HopsOfThree(g: Grid, start: Point, a: Point, b: Point, c: Point)
    requires start != c && (a == start || b != start) && Hop(g, start, a) && Hop(g, a, b) && Hop(g, b, c)
    ensures Hops(g, start, [a, b, c]) && NoReturn(start, [a, b, c])
    ensures Length(start, [a, b, c]) == Distance(start, a) + Distance(a, b) + Distance(b, c)
  {
    assert [a, b, c][1..] == [b, c] && [b, c][1..] == [c] && [c][1..] == [];
    assert Hops(g, c, []) && Hops(g, b, [c]) && Hops(g, a, [b, c]);
    assert Length(b, [c]) == Distance(b, c) + Length(c, []);
    assert Length(a, [b, c]) == Distance(a, b) + Length(b, [c]);
    assert NoReturn(start, [c]) && NoReturn(start, [b, c]);
  }

  lemma DirectRoute(g: Grid, start: Point, pickup: Point)
    requires g.IsRoadPoint(pickup) && g.IsLegalSegment(start, pickup)
    ensures ShortestRoute(g, start, pickup, Without([pickup], start))
    ensures Without([pickup], start) == if start == pickup then [] else [pickup]
  {
    assert [pickup][1..] == [] && Without([], start) == [];
    assert Length(start, [pickup]) == Distance(start, pickup) + Length(pickup, []);
    StraightRouteIsShortest(g, start, pickup, Without([pickup], start));
  }

  lemma CornerRoute(g: Grid, start: Point, pickup: Point, corner: Point)
    requires g.IsRoadPoint(start) && g.IsRoadPoint(pickup) && start != pickup
    requires (corner == Point(start.left, pickup.top) && g.OnAvenue(start) && g.OnStreet(pickup))
             || (corner == Point(pickup.left, start.top) && g.OnStreet(start) && g.OnAvenue(pickup))
    ensures ShortestRoute(g, start, pickup, Through(start, [corner, pickup]))
  {
    HopsOfTwo(g, start, corner, pickup);
    RouteThrough(g, start, [corner, pickup]);
    ThroughUses(start, [corner, pickup]);
    StraightRouteIsShortest(g, start, pickup, Through(start, [corner, pickup]));
  }

  lemma StreetRoute(g: Grid, start: Point, pickup: Point, street: real)
    requires g.OnAvenue(start) && g.OnAvenue(pickup) && start.left != pickup.left && street in g.streets
    requires forall v :: v in g.streets ==> Detour(start.top, pickup.top, street) <= Detour(start.top, pickup.top, v)
    ensures var a, b := Point(start.left, street), Point(pickup.left, street);
            ShortestRoute(g, start, pickup, Through(start, [a, b, pickup]))
  {
    var a, b := Point(start.left, street), Point(pickup.left, street);
    HopsOfThree(g, start, a, b, pickup);
    RouteThrough(g, start, [a, b, pickup]);
    ThroughUses(start, [a, b, pickup]);
    ByStreetIsShortest(g, start, pickup, street, Through(start, [a, b, pickup]));
  }

  lemma AvenueRoute(g: Grid, start: Point, pickup: Point, avenue: real)
    requires g.OnStreet(start) && g.OnStreet(pickup) && start.top != pickup.top && avenue in g.avenues
    requires forall v :: v in g.avenues ==>
                           Detour(start.left, pickup.left, avenue) <= Detour(start.left, pickup.left, v)
    ensures var a, b := Point(avenue, start.top), Point(avenue, pickup.top);
            ShortestRoute(g, start, pickup, Through(start, [a, b, pickup]))
  {
    var a, b := Point(avenue, start.top), Point(avenue, pickup.top);
    HopsOfThree(g, start, a, b, pickup);
    RouteThrough(g, start, [a, b, pickup]);
    ThroughUses(start, [a, b, pickup]);
    ByAvenueIsShortest(g, start, pickup, avenue, Through(start, [a, b, pickup]));
  }

  lemma ThroughUses(start: Point, corners: seq<Point>)
    ensures forall p :: p in Through(start, corners) ==> p in corners
    ensures |Through(start, corners)| <= |corners|
  {
    AppendAllUses([], corners);
    WithoutUses(AppendAll([], corners), start);
  }

  lemma {:induction false} AppendAllUses(waypoints: seq<Point>, corners: seq<Point>)
    ensures forall p :: p in AppendAll(waypoints, corners) ==> p in waypoints || p in corners
    ensures |AppendAll(waypoints, corners)| <= |waypoints| + |corners|
    decreases |corners|
  {
    if corners != [] {
      AppendAllUses(Append(waypoints, corners[0]), corners[1..]);
    }
  }

  lemma {:induction false} WithoutUses(waypoints: seq<Point>, start: Point)
    ensures forall p :: p in Without(waypoints, start) ==> p in waypoints
    ensures |Without(waypoints, start)| <= |waypoints|
  {
    if waypoints != [] {
      WithoutUses(waypoints[1..], start);
    }
  }

  /** Every waypoint takes each coordinate from the start, the pickup or a road. */
  predicate UsesCoordinates(g: Grid, start: Point, pickup: Point, p: Point) {
    && (p.left == start.left || p.left == pickup.left || p.left in g.avenues)
    && (p.top == start.top || p.top == pickup.top || p.top in g.streets)
  }

  /** buildPickupWaypoints: between any two road points the route is legal, ends at the pickup, is
      as short as any legal path, and the "left the road graph" throw is unreachable. */
  method BuildPickupWaypoints(g: Grid, start: Point, pickup: Point) returns (route: Route)
    requires g.Valid()
    ensures route == NotOnRoad <==> !g.IsRoadPoint(start) || !g.IsRoadPoint(pickup)
    ensures route != LeftRoad
    ensures route.Route? ==> ShortestRoute(g, start, pickup, route.waypoints)
    ensures route.Route? ==> |route.waypoints| <= 3 && (route.waypoints == [] <==> start == pickup)
    ensures route.Route? ==> forall p :: p in route.waypoints ==> UsesCoordinates(g, start, pickup, p)
  {
    if !g.IsRoadPoint(start) || !g.IsRoadPoint(pickup) {
      return NotOnRoad;
    }
    if g.IsLegalSegment(start, pickup) {
      DirectRoute(g, start, pickup);
      return Route(Without([pickup], start));
    }
    var corners;
    if g.OnAvenue(start) != g.OnAvenue(pickup) {
      corners := [if g.OnAvenue(start) then Point(start.left, pickup.top) else Point(pickup.left, start.top), pickup];
      CornerRoute(g, start, pickup, corners[0]);
    } else if g.OnAvenue(start) {
      var street := BestStreet(g, start, pickup);
      corners := [Point(start.left, street), Point(pickup.left, street), pickup];
      StreetRoute(g, start, pickup, street);
    } else {
      var avenue := BestAvenue(g, start, pickup);
      corners := [Point(avenue, start.top), Point(avenue, pickup.top), pickup];
      AvenueRoute(g, start, pickup, avenue);
    }
    var waypoints := [];
    for i := 0 to |corners|
      invariant AppendAll(waypoints, corners[i..]) == AppendAll([], corners)
    {
      assert corners[i..][1..] == corners[i + 1..];
      waypoints := Append(waypoints, corners[i]);
    }
    var filtered := Without(waypoints, start);
    ThroughUses(start, corners);
    var ok := StaysOnRoads(g, start, filtered);
    return if ok then Route(filtered) else LeftRoad;
  }
}
