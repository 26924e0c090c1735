/** Movement on the demo page's map: its viewport, steps along a route of waypoints, and the ten
    ticks of a drive to a pickup. Every step stays on the roads. */
module Simulator {
  import opened RoadGraph

  datatype LonLat = LonLat(longitude: real, latitude: real)

  const MIN_LONGITUDE := -74.0005
  const MAX_LONGITUDE := -73.9735
  const MIN_LATITUDE := 40.738
  const MAX_LATITUDE := 40.758
  const ROAD_STEP_PX := 22.0
  const PICKUP_TRAVEL_TICKS := 10

  // ---- the map viewport ----

  function ViewLeft(g: Grid): real requires g.Valid() { g.avenues[0] }
  function ViewRight(g: Grid): real requires g.Valid() { g.avenues[|g.avenues| - 1] }
  function ViewTop(g: Grid): real requires g.Valid() { g.streets[0] }
  function ViewBottom(g: Grid): real requires g.Valid() { g.streets[|g.streets| - 1] }

  /** The outermost roads frame the map. */
  ghost predicate Framed(g: Grid) {
    && g.Valid()
    && ViewLeft(g) < ViewRight(g) && ViewTop(g) < ViewBottom(g)
    && (forall a :: a in g.avenues ==> ViewLeft(g) <= a <= ViewRight(g))
    && (forall s :: s in g.streets ==> ViewTop(g) <= s <= ViewBottom(g))
  }

  predicate InView(g: Grid, p: Point)
    requires g.Valid()
  {
    ViewLeft(g) <= p.left <= ViewRight(g) && ViewTop(g) <= p.top <= ViewBottom(g)
  }

  function Clamp(x: real): (y: real)
    ensures 0.0 <= y <= 1.0
  {
    if x < 0.0 then 0.0 else if x > 1.0 then 1.0 else x
  }

  /** A fraction of a stretch lies within it, whichever way the stretch points. */
  function Share(ratio: real, width: real): (m: real)
    requires 0.0 <= ratio <= 1.0
    ensures width >= 0.0 ==> 0.0 <= m <= width
    ensures width <= 0.0 ==> width <= m <= 0.0
  {
    ratio * width
  }

  /** The value a fraction of the way from `a` to `b`. */
  function Blend(a: real, b: real, ratio: real): (m: real)
    requires 0.0 <= ratio <= 1.0
    ensures a <= m <= b || b <= m <= a
  {
    a + Share(ratio, b - a)
  }

  function Project(g: Grid, p: LonLat): Point
    requires g.Valid()
  {
    var longitudeRatio := (p.longitude - MIN_LONGITUDE) / (MAX_LONGITUDE - MIN_LONGITUDE);
    var latitudeRatio := (MAX_LATITUDE - p.latitude) / (MAX_LATITUDE - MIN_LATITUDE);
    Point(Blend(ViewLeft(g), ViewRight(g), Clamp(longitudeRatio)),
          Blend(ViewTop(g), ViewBottom(g), Clamp(latitudeRatio)))
  }

  function Unproject(g: Grid, p: Point): LonLat
    requires Framed(g)
  {
    var longitudeRatio := (p.left - ViewLeft(g)) / (ViewRight(g) - ViewLeft(g));
    var latitudeRatio := (p.top - ViewTop(g)) / (ViewBottom(g) - ViewTop(g));
    LonLat(MIN_LONGITUDE + longitudeRatio * (MAX_LONGITUDE - MIN_LONGITUDE),
           MAX_LATITUDE - latitudeRatio * (MAX_LATITUDE - MIN_LATITUDE))
  }

  lemma Ratio(x: real, y: real)
    requires 0.0 <= x <= y && y > 0.0
    ensures 0.0 <= x / y <= 1.0 && (x / y) * y == x
  {
  }

  /** Inside the viewport projecting back an unprojected point changes nothing. */
  lemma RoundTrip(g: Grid, p: Point)
    requires Framed(g) && InView(g, p)
    ensures Project(g, Unproject(g, p)) == p
  {
    var x, width := p.left - ViewLeft(g), ViewRight(g) - ViewLeft(g);
    var y, height := p.top - ViewTop(g), ViewBottom(g) - ViewTop(g);
    Ratio(x, width);
    Ratio(y, height);
    var u := Unproject(g, p);
    assert (u.longitude - MIN_LONGITUDE) / (MAX_LONGITUDE - MIN_LONGITUDE) == x / width;
    assert (MAX_LATITUDE - u.latitude) / (MAX_LATITUDE - MIN_LATITUDE) == y / height;
  }

  /** The map's corners are the corners of its bounds. */
  lemma CornersMatch(g: Grid)
    requires Framed(g)
    ensures Unproject(g, Point(ViewLeft(g), ViewTop(g))) == LonLat(-74.0005, 40.758)
    ensures Unproject(g, Point(ViewRight(g), ViewBottom(g))) == LonLat(-73.9735, 40.738)
  {
    var width, height := ViewRight(g) - ViewLeft(g), ViewBottom(g) - ViewTop(g);
    Ratio(width, width);
    Ratio(height, height);
    assert width / width == 1.0 && height / height == 1.0 && 0.0 / width == 0.0 && 0.0 / height == 0.0;
  }

  lemma ProjectsIntoView(g: Grid, p: LonLat)
    requires Framed(g)
    ensures InView(g, Project(g, p))
  {
  }

  // ---- staying on the roads ----

  /** From `here` the rest of the way is legal and on the map. */
  ghost predicate OnTrack(g: Grid, here: Point, rest: seq<Point>) {
    && Framed(g) && g.IsRoadPoint(here) && InView(g, here)
    && LegalPath(g, here, rest)
    && forall p :: p in rest ==> InView(g, p)
  }

  predicate Between(a: Point, b: Point, m: Point) {
    && (a.left <= m.left <= b.left || b.left <= m.left <= a.left)
    && (a.top <= m.top <= b.top || b.top <= m.top <= a.top)
  }

  /** Anywhere between here and the next waypoint is still on track. */
  lemma StillOnTrack(g: Grid, here: Point, rest: seq<Point>, moved: Point)
    requires OnTrack(g, here, rest) && rest != [] && Between(here, rest[0], moved)
    ensures OnTrack(g, moved, rest)
  {
    assert InView(g, rest[0]);
  }

  lemma ReachesWaypoint(g: Grid, here: Point, rest: seq<Point>)
    requires OnTrack(g, here, rest) && rest != []
    ensures OnTrack(g, rest[0], rest[1..])
  {
  }

  function Towards(here: Point, target: Point, ratio: real): Point
    requires 0.0 <= ratio <= 1.0
  {
    Point(Blend(here.left, target.left, ratio), Blend(here.top, target.top, ratio))
  }

  lemma TowardsIsBetween(here: Point, target: Point, ratio: real)
    requires 0.0 <= ratio <= 1.0
    ensures Between(here, target, Towards(here, target, ratio))
    ensures ratio == 1.0 ==> Towards(here, target, ratio) == target
  {
  }

  function Min(x: real, y: real): real {
    if x <= y then x else y
  }

  /** The fraction of a hop covered in one step; a zero hop is covered at once. */
  function StepRatio(step: real, distance: real): (ratio: real)
    requires step > 0.0 && distance >= 0.0
    ensures 0.0 < ratio <= 1.0 && ratio * distance == Min(step, distance)
    ensures ratio == 1.0 <==> distance <= step
  {
    if distance <= step then 1.0
    else
      Ratio(step, distance);
      step / distance
  }

  /** Going a fraction of the way covers that fraction of the distance and leaves the rest. */
  lemma TowardsCovers(here: Point, target: Point, ratio: real)
    requires 0.0 <= ratio <= 1.0
    ensures Distance(here, Towards(here, target, ratio)) == ratio * Distance(here, target)
    ensures Distance(Towards(here, target, ratio), target) == Distance(here, target) - ratio * Distance(here, target)
  {
    AxisCovers(here.left, target.left, ratio);
    AxisCovers(here.top, target.top, ratio);
    var x, y := SCALE_X * Abs(target.left - here.left), SCALE_Y * Abs(target.top - here.top);
    assert ratio * (x + y) == ratio * x + ratio * y;
    ScaleCovers(SCALE_X, Abs(target.left - here.left), ratio);
    ScaleCovers(SCALE_Y, Abs(target.top - here.top), ratio);
  }

  lemma AxisCovers(a: real, b: real, ratio: real)
    requires 0.0 <= ratio <= 1.0
    ensures Abs(Blend(a, b, ratio) - a) == ratio * Abs(b - a)
    ensures Abs(b - Blend(a, b, ratio)) == Abs(b - a) - ratio * Abs(b - a)
  {
    AbsShare(ratio, b - a);
  }

  lemma ScaleCovers(scale: real, width: real, ratio: real)
    ensures ratio * (scale * width) == scale * (ratio * width)
  {
  }

  lemma HopStaysOnTrack(g: Grid, here: Point, rest: seq<Point>, ratio: real)
    requires 0.0 <= ratio <= 1.0 && rest != [] && OnTrack(g, here, rest)
    ensures OnTrack(g, Towards(here, rest[0], ratio), rest)
    ensures ratio == 1.0 ==> Towards(here, rest[0], ratio) == rest[0] && OnTrack(g, rest[0], rest[1..])
  {
    TowardsIsBetween(here, rest[0], ratio);
    StillOnTrack(g, here, rest, Towards(here, rest[0], ratio));
    ReachesWaypoint(g, here, rest);
  }

  lemma HopLength(here: Point, rest: seq<Point>, ratio: real)
    requires 0.0 <= ratio <= 1.0 && rest != []
    ensures Distance(here, Towards(here, rest[0], ratio)) == ratio * Distance(here, rest[0])
    ensures Length(Towards(here, rest[0], ratio), rest) == Length(here, rest) - ratio * Distance(here, rest[0])
    ensures ratio == 1.0 ==> Length(rest[0], rest[1..]) == Length(here, rest) - Distance(here, rest[0])
  {
    TowardsCovers(here, rest[0], ratio);
  }

  /** A hop that covers `hop` of the way to the next waypoint. */
  lemma HopCovers(g: Grid, here: Point, rest: seq<Point>, ratio: real, hop: real)
    requires OnTrack(g, here, rest) && rest != [] && 0.0 <= ratio <= 1.0 && ratio * Distance(here, rest[0]) == hop
    ensures var moved := Towards(here, rest[0], ratio);
            && OnTrack(g, moved, rest) && Distance(here, moved) == hop
            && Length(moved, rest) == Length(here, rest) - hop
            && (ratio == 1.0 ==>
                  && moved == rest[0] && OnTrack(g, moved, rest[1..])
                  && Length(moved, rest[1..]) == Length(here, rest) - Distance(here, rest[0]))
  {
    HopStaysOnTrack(g, here, rest, ratio);
    HopLength(here, rest, ratio);
  }

  lemma AbsShare(ratio: real, width: real)
    requires 0.0 <= ratio <= 1.0
    ensures Abs(Share(ratio, width)) == ratio * Abs(width)
  {
  }

  class WaypointRoute {
    const grid: Grid
    const waypoints: seq<Point>
    var left: real
    var top: real
    var waypointIndex: nat

    constructor (grid: Grid, start: Point, waypoints: seq<Point>)
      requires OnTrack(grid, start, waypoints)
      ensures Valid() && this.grid == grid && this.waypoints == waypoints && Here() == start && waypointIndex == 0
    {
      this.grid, this.waypoints := grid, waypoints;
      left, top, waypointIndex := start.left, start.top, 0;
      new;
      assert waypoints[0..] == waypoints;
    }

    function Here(): Point
      reads this
    {
      Point(left, top)
    }

    ghost predicate Valid()
      reads this
    {
      waypointIndex <= |waypoints| && OnTrack(grid, Here(), waypoints[waypointIndex..])
    }

    /** Where the route ends. */
    function End(): Point
      reads this
      requires waypointIndex <= |waypoints|
    {
      EndOf(Here(), waypoints[waypointIndex..])
    }

    /** The way still to go, in pixels. */
    function Remaining(): real
      reads this
      requires waypointIndex <= |waypoints|
    {
      Length(Here(), waypoints[waypointIndex..])
    }

    /** A bound on the steps still to take, in pixels: one more for each waypoint. */
    function Effort(stepPx: real): real
      reads this
      requires waypointIndex <= |waypoints|
    {
      Remaining() + Steps(stepPx, |waypoints| - waypointIndex)
    }

    /** advanceAlongWaypoints: at most one hop per call, after skipping waypoints already reached.
        Each call covers a full step of the route, or as much as is left to the next waypoint. */
    method AdvanceAlongWaypoints(stepPx: real) returns (finished: bool)
      requires Valid() && stepPx > 0.0
      modifies this
      ensures Valid()
      ensures finished <==> waypointIndex == |waypoints|
      ensures waypointIndex >= old(waypointIndex)
      ensures finished && old(waypointIndex) < |waypoints| ==> Here() == waypoints[|waypoints| - 1]
      ensures old(waypointIndex) == |waypoints| ==> Here() == old(Here())
      ensures old(waypointIndex) < |waypoints| && Distance(old(Here()), waypoints[old(waypointIndex)]) >= 0.01 ==>
                var hop := Min(stepPx, Distance(old(Here()), waypoints[old(waypointIndex)]));
                Distance(old(Here()), Here()) == hop && Remaining() == old(Remaining()) - hop
      ensures old(waypointIndex) < |waypoints| ==> Effort(stepPx) <= old(Effort(stepPx)) - stepPx
    {
      while waypointIndex < |waypoints|
        invariant Valid()
        invariant waypointIndex >= old(waypointIndex)
        invariant waypointIndex == old(waypointIndex) ==> Here() == old(Here())
        invariant waypointIndex > old(waypointIndex) ==>
                    && Here() == waypoints[waypointIndex - 1]
                    && Distance(old(Here()), waypoints[old(waypointIndex)]) < 0.01
        invariant Effort(stepPx) <= old(Effort(stepPx)) - if waypointIndex > old(waypointIndex) then stepPx else 0.0
      {
        var target := waypoints[waypointIndex];
        var distancePx := Distance(Here(), target);
        if distancePx < 0.01 {
          Reach(stepPx);
          continue;
        }
        StepsNext(stepPx, |waypoints| - waypointIndex - 1);
        Hop(stepPx);
        break;
      }
      finished := waypointIndex >= |waypoints|;
    }

    /** A waypoint already reached is made exact and left behind. */
    method Reach(stepPx: real)
      requires Valid() && stepPx > 0.0 && waypointIndex < |waypoints|
      modifies this
      ensures Valid() && waypointIndex == old(waypointIndex) + 1 && Here() == waypoints[old(waypointIndex)]
      ensures Effort(stepPx) <= old(Effort(stepPx)) - stepPx
    {
      var target := waypoints[waypointIndex];
      ghost var rest := waypoints[waypointIndex..];
      assert rest[0] == target && rest[1..] == waypoints[waypointIndex + 1..];
      ReachesWaypoint(grid, Here(), rest);
      left, top := target.left, target.top;
      waypointIndex := waypointIndex + 1;
    }

    /** One hop towards the next waypoint. */
    method Hop(stepPx: real)
      requires Valid() && stepPx > 0.0 && waypointIndex < |waypoints|
      modifies this
      ensures Valid()
      ensures var distance := Distance(old(Here()), waypoints[old(waypointIndex)]);
              && Here() == Towards(old(Here()), waypoints[old(waypointIndex)], StepRatio(stepPx, distance))
              && waypointIndex == (if distance <= stepPx then old(waypointIndex) + 1 else old(waypointIndex))
              && (distance <= stepPx ==> Here() == waypoints[old(waypointIndex)])
              && Distance(old(Here()), Here()) == Min(stepPx, distance)
              && Remaining() == old(Remaining()) - Min(stepPx, distance)
    {
      var target := waypoints[waypointIndex];
      ghost var rest := waypoints[waypointIndex..];
      assert rest[0] == target && rest[1..] == waypoints[waypointIndex + 1..];
      var ratio := StepRatio(stepPx, Distance(Here(), target));
      var moved := Towards(Here(), target, ratio);
      HopCovers(grid, Here(), rest, ratio, Min(stepPx, Distance(Here(), target)));
      left, top := moved.left, moved.top;
      if ratio == 1.0 {
        waypointIndex := waypointIndex + 1;
      }
    }
  }

  function Steps(stepPx: real, count: nat): real {
    stepPx * (count as real)
  }

  lemma StepsNext(stepPx: real, count: nat)
    ensures Steps(stepPx, count + 1) == Steps(stepPx, count) + stepPx
  {
  }

  /** Any number of calls in a row: the route is finished by the time the steps taken cover it,
      with one to spare for each waypoint. */
  method Follow(route: WaypointRoute, stepPx: real, calls: nat) returns (finished: bool)
    requires route.Valid() && stepPx > 0.0
    modifies route
    ensures route.Valid()
    ensures finished <==> route.waypointIndex == |route.waypoints|
    ensures Steps(stepPx, calls) >= old(route.Effort(stepPx)) ==> finished
  {
    for i := 0 to calls
      invariant route.Valid()
      invariant route.waypointIndex < |route.waypoints| ==>
          route.Effort(stepPx) <= old(route.Effort(stepPx)) - Steps(stepPx, i)
    {
      StepsNext(stepPx, i);
      var _ := route.AdvanceAlongWaypoints(stepPx);
    }
    finished := route.waypointIndex >= |route.waypoints|;
    if !finished {
      EffortIsPositive(route, stepPx);
    }
  }

  lemma EffortIsPositive(route: WaypointRoute, stepPx: real)
    requires route.waypointIndex < |route.waypoints| && stepPx > 0.0
    ensures route.Effort(stepPx) > 0.0
  {
    StraightIsShortest(route.Here(), route.waypoints[route.waypointIndex..]);
  }

  // ---- ten ticks to the pickup ----

  function Sum(ticks: seq<nat>): nat {
    if ticks == [] then 0 else ticks[0] + Sum(ticks[1..])
  }

  /** The ticks each of `count` segments gets. */
  function SegmentTicks(count: nat): seq<nat>
    requires count > 0
  {
    seq(count, index => PICKUP_TRAVEL_TICKS / count + if index < PICKUP_TRAVEL_TICKS % count then 1 else 0)
  }

  lemma {:induction false} SumTail(ticks: seq<nat>, base: nat, extra: nat, from: nat)
    requires from <= |ticks| && extra <= |ticks|
    requires forall i :: 0 <= i < |ticks| ==> ticks[i] == base + if i < extra then 1 else 0
    ensures Sum(ticks[from..]) == (|ticks| - from) * base + if from < extra then extra - from else 0
    decreases |ticks| - from
  {
    if from < |ticks| {
      SumTail(ticks, base, extra, from + 1);
      assert ticks[from..][1..] == ticks[from + 1..];
    }
  }

  lemma BaseAndExtra(count: nat)
    requires 1 <= count <= PICKUP_TRAVEL_TICKS
    ensures count * (PICKUP_TRAVEL_TICKS / count) + PICKUP_TRAVEL_TICKS % count == PICKUP_TRAVEL_TICKS
    ensures PICKUP_TRAVEL_TICKS / count >= 1 && 0 <= PICKUP_TRAVEL_TICKS % count < count
  {
  }

  /** With at most ten segments every share is positive and the shares sum to ten. */
  lemma SharesSumToTen(count: nat)
    requires 1 <= count <= PICKUP_TRAVEL_TICKS
    ensures Sum(SegmentTicks(count)) == PICKUP_TRAVEL_TICKS
    ensures forall i :: 0 <= i < count ==> SegmentTicks(count)[i] >= 1
  {
    var ticks, base, extra := SegmentTicks(count), PICKUP_TRAVEL_TICKS / count, PICKUP_TRAVEL_TICKS % count;
    BaseAndExtra(count);
    SumTail(ticks, base, extra, 0);
    assert ticks[0..] == ticks;
  }

  lemma DivideIsShare(x: real, ticks: real)
    requires ticks > 0.0
    ensures x / ticks == x * (1.0 / ticks)
  {
  }

  /** An even share of the way to the target. */
  function OneTick(here: Point, target: Point, ticks: nat): Point
    requires ticks >= 1
  {
    Point(here.left + (target.left - here.left) / (ticks as real), here.top + (target.top - here.top) / (ticks as real))
  }

  lemma TickStaysOnTrack(g: Grid, here: Point, rest: seq<Point>, ticks: nat)
    requires OnTrack(g, here, rest) && rest != [] && ticks >= 1
    ensures OnTrack(g, OneTick(here, rest[0], ticks), rest)
  {
    var n := ticks as real;
    Ratio(1.0, n);
    DivideIsShare(rest[0].left - here.left, n);
    DivideIsShare(rest[0].top - here.top, n);
    assert OneTick(here, rest[0], ticks) == Towards(here, rest[0], 1.0 / n);
    TowardsIsBetween(here, rest[0], 1.0 / n);
    StillOnTrack(g, here, rest, OneTick(here, rest[0], ticks));
  }

  /** A tick leaves the share of the way that the ticks still to come will cover, evenly. */
  lemma TickCovers(here: Point, target: Point, ticks: nat)
    requires ticks >= 1
    ensures Distance(OneTick(here, target, ticks), target) * (ticks as real)
         == Distance(here, target) * ((ticks - 1) as real)
    ensures ticks == 1 ==> OneTick(here, target, ticks) == target
  {
    var n := ticks as real;
    TickLeaves(target.left - here.left, n);
    TickLeaves(target.top - here.top, n);
    var moved := OneTick(here, target, ticks);
    assert target.left - moved.left == (target.left - here.left) - (target.left - here.left) / n;
    assert target.top - moved.top == (target.top - here.top) - (target.top - here.top) / n;
  }

  lemma TickLeaves(width: real, n: real)
    requires n >= 1.0
    ensures Abs(width - width / n) * n == Abs(width) * (n - 1.0)
  {
    var left := width - width / n;
    assert left * n == width * (n - 1.0) by { assert width / n * n == width; }
    if width >= 0.0 {
      assert width / n <= width;
    } else {
      assert width / n >= width;
    }
  }

  class PickupRoute {
    const grid: Grid
    const pickup: Point
    const waypoints: seq<Point>
    const segmentTicks: seq<nat>
    var left: real
    var top: real
    var waypointIndex: nat
    var segmentTicksRemaining: nat
    var ticksRemaining: nat
    var reachedPickup: bool

    /** startPickupRoute, for waypoints built between the driver's position and the pickup. */
    constructor (grid: Grid, start: Point, pickup: Point, waypoints: seq<Point>)
      requires OnTrack(grid, start, waypoints) && EndOf(start, waypoints) == pickup
      requires |waypoints| <= PICKUP_TRAVEL_TICKS
      ensures Valid() && this.grid == grid && this.pickup == pickup && this.waypoints == waypoints
      ensures Here() == start
      ensures ticksRemaining == if waypoints == [] then 0 else PICKUP_TRAVEL_TICKS
    {
      this.grid, this.pickup, this.waypoints := grid, pickup, waypoints;
      var shares := if waypoints == [] then [] else SegmentTicks(|waypoints|);
      segmentTicks := shares;
      left, top, waypointIndex := start.left, start.top, 0;
      segmentTicksRemaining := if shares == [] then 0 else shares[0];
      ticksRemaining := Sum(shares);
      reachedPickup := waypoints == [];
      new;
      if waypoints != [] {
        SharesSumToTen(|waypoints|);
      }
      assert waypoints[0..] == waypoints;
    }

    function Here(): Point
      reads this
    {
      Point(left, top)
    }

    ghost predicate Valid()
      reads this
    {
      && |segmentTicks| == |waypoints|
      && (forall i :: 0 <= i < |segmentTicks| ==> segmentTicks[i] >= 1)
      && waypointIndex <= |waypoints|
      && OnTrack(grid, Here(), waypoints[waypointIndex..])
      && EndOf(Here(), waypoints[waypointIndex..]) == pickup
      && (reachedPickup <==> waypointIndex == |waypoints|)
      && (if reachedPickup then segmentTicksRemaining == 0 && ticksRemaining == 0
          else && 1 <= segmentTicksRemaining <= segmentTicks[waypointIndex]
               && ticksRemaining == segmentTicksRemaining + Sum(segmentTicks[waypointIndex + 1..]))
    }

    /** advancePickupRoute: one tick nearer; at the pickup exactly when no tick remains. */
    method AdvancePickupRoute()
      requires Valid()
      modifies this
      ensures Valid()
      ensures ticksRemaining == if old(ticksRemaining) == 0 then 0 else old(ticksRemaining) - 1
      ensures reachedPickup <==> ticksRemaining == 0
      ensures reachedPickup ==> Here() == pickup
      ensures old(reachedPickup) ==> Here() == old(Here())
      ensures !old(reachedPickup) ==>
                var target, ticks := waypoints[old(waypointIndex)], old(segmentTicksRemaining);
                && Here() == OneTick(old(Here()), target, ticks)
                && waypointIndex == if ticks == 1 then old(waypointIndex) + 1 else old(waypointIndex)
    {
      if waypointIndex < |waypoints| {
        var target := waypoints[waypointIndex];
        ghost var rest := waypoints[waypointIndex..];
        assert rest[0] == target && rest[1..] == waypoints[waypointIndex + 1..];
        ReachesWaypoint(grid, Here(), rest);
        var moved := OneTick(Here(), target, segmentTicksRemaining);
        TickStaysOnTrack(grid, Here(), rest, segmentTicksRemaining);
        TickCovers(Here(), target, segmentTicksRemaining);
        left, top := moved.left, moved.top;
        segmentTicksRemaining := segmentTicksRemaining - 1;
        ticksRemaining := ticksRemaining - 1;
        if segmentTicksRemaining == 0 {
          left, top := target.left, target.top;
          waypointIndex := waypointIndex + 1;
          segmentTicksRemaining := if waypointIndex < |segmentTicks| then segmentTicks[waypointIndex] else 0;
          assert waypointIndex < |segmentTicks| ==>
              segmentTicks[waypointIndex..][1..] == segmentTicks[waypointIndex + 1..];
        }
      }
      reachedPickup := waypointIndex >= |waypoints|;
    }
  }

  /** Any number of ticks in a row: the pickup is reached at the tenth, not before, for every
      route that has a way to go. */
  method Drive(route: PickupRoute, ticks: nat)
    requires route.Valid() && route.ticksRemaining == 10
    modifies route
    ensures route.Valid()
    ensures route.reachedPickup <==> ticks >= 10
    ensures route.reachedPickup ==> route.Here() == route.pickup
    ensures route.ticksRemaining == if ticks >= 10 then 0 else 10 - ticks
  {
    for i := 0 to ticks
      invariant route.Valid()
      invariant route.ticksRemaining == if i >= PICKUP_TRAVEL_TICKS then 0 else PICKUP_TRAVEL_TICKS - i
      invariant route.reachedPickup <==> i >= PICKUP_TRAVEL_TICKS
      invariant route.reachedPickup ==> route.Here() == route.pickup
    {
      route.AdvancePickupRoute();
    }
  }
}
