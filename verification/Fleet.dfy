/** One simulated driver through every mode of the demo page. Its published position may be
    overwritten at any time by a stale echo of an earlier one. */
module Fleet {
  import opened RoadGraph
  import opened Simulator

  // ---- the loops drivers roam ----

  /** routeRectangle: four intersections, rotated to start at `startIndex`. */
  function RouteRectangle(g: Grid, left: nat, right: nat, top: nat, bottom: nat, startIndex: nat): seq<Point>
    requires left < |g.avenues| && right < |g.avenues| && top < |g.streets| && bottom < |g.streets|
    requires startIndex <= 4
  {
    var corners := [
                     Point(g.avenues[left], g.streets[top]), Point(g.avenues[right], g.streets[top]),
                     Point(g.avenues[right], g.streets[bottom]), Point(g.avenues[left], g.streets[bottom])];
    corners[startIndex..] + corners[..startIndex]
  }

  function Next(loop: seq<Point>, i: nat): nat
    requires |loop| > 0
  {
    (i + 1) % |loop|
  }

  /** Intersections joined in a ring by legal segments. */
  ghost predicate IsLoop(g: Grid, loop: seq<Point>) {
    && |loop| >= 2
    && (forall i :: 0 <= i < |loop| ==> g.OnAvenue(loop[i]) && g.OnStreet(loop[i]))
    && (forall i :: 0 <= i < |loop| ==> g.IsLegalSegment(loop[i], loop[Next(loop, i)]))
  }

  lemma RectangleIsLoop(g: Grid, left: nat, right: nat, top: nat, bottom: nat, startIndex: nat)
    requires left < |g.avenues| && right < |g.avenues| && top < |g.streets| && bottom < |g.streets|
    requires startIndex <= 4
    ensures IsLoop(g, RouteRectangle(g, left, right, top, bottom, startIndex))
  {
    var a, b := Point(g.avenues[left], g.streets[top]), Point(g.avenues[right], g.streets[top]);
    var c, d := Point(g.avenues[right], g.streets[bottom]), Point(g.avenues[left], g.streets[bottom]);
    var loop := [a, b, c, d];
    assert RouteRectangle(g, left, right, top, bottom, startIndex) == loop[startIndex..] + loop[..startIndex];
    if startIndex == 1 {
      assert loop[1..] + loop[..1] == [b, c, d, a];
      FourIsLoop(g, b, c, d, a);
    } else if startIndex == 2 {
      assert loop[2..] + loop[..2] == [c, d, a, b];
      FourIsLoop(g, c, d, a, b);
    } else if startIndex == 3 {
      assert loop[3..] + loop[..3] == [d, a, b, c];
      FourIsLoop(g, d, a, b, c);
    } else {
      assert loop[startIndex..] + loop[..startIndex] == loop;
      FourIsLoop(g, a, b, c, d);
    }
  }

  /** Clockwise from the top left corner, beginning with the corner asked for. */
  lemma RectangleCorners(g: Grid, left: nat, right: nat, top: nat, bottom: nat, startIndex: nat, k: nat)
    requires left < |g.avenues| && right < |g.avenues| && top < |g.streets| && bottom < |g.streets|
    requires startIndex <= 4 && k < 4
    ensures |RouteRectangle(g, left, right, top, bottom, startIndex)| == 4
    ensures var corner := (startIndex + k) % 4;
            RouteRectangle(g, left, right, top, bottom, startIndex)[k]
            == Point(g.avenues[if corner == 0 || corner == 3 then left else right],
                     g.streets[if corner == 0 || corner == 1 then top else bottom])
  {
  }

  lemma FourIsLoop(g: Grid, a: Point, b: Point, c: Point, d: Point)
    requires forall p :: p in [a, b, c, d] ==> g.OnAvenue(p) && g.OnStreet(p)
    requires g.IsLegalSegment(a, b) && g.IsLegalSegment(b, c) && g.IsLegalSegment(c, d) && g.IsLegalSegment(d, a)
    ensures IsLoop(g, [a, b, c, d])
  {
    var loop := [a, b, c, d];
    forall i | 0 <= i < 4 ensures g.IsLegalSegment(loop[i], loop[Next(loop, i)]) {
      assert Next(loop, i) == if i == 3 then 0 else i + 1;
    }
  }

  /** The demo's own map, in percent of 760 by 510 pixels. */
  const MANHATTAN := Grid(
                       Percent([50.0, 169.0, 285.0, 400.0, 518.0, 635.0, 722.0], 760.0),
                       Percent([36.0, 105.0, 186.0, 267.0, 347.0, 428.0, 474.0], 510.0))

  function Percent(pixels: seq<real>, size: real): seq<real>
    requires size > 0.0
  {
    seq(|pixels|, i requires 0 <= i < |pixels| => pixels[i] / size * 100.0)
  }

  /** The demo's numbers: its roads in pixels, the corners of its map, its step and its ticks. */
  lemma DemoNumbers()
    ensures |MANHATTAN.avenues| == 7 && |MANHATTAN.streets| == 7
    ensures forall i :: 0 <= i < 7 ==>
                          && MANHATTAN.avenues[i] * SCALE_X == [50.0, 169.0, 285.0, 400.0, 518.0, 635.0, 722.0][i]
                          && MANHATTAN.streets[i] * SCALE_Y == [36.0, 105.0, 186.0, 267.0, 347.0, 428.0, 474.0][i]
    ensures Distance(Point(0.0, 0.0), Point(100.0, 0.0)) == 760.0
    ensures Distance(Point(0.0, 0.0), Point(0.0, 100.0)) == 510.0
    ensures ROAD_STEP_PX == 22.0 && PICKUP_TRAVEL_TICKS == 10
  {
  }

  lemma ManhattanIsFramed()
    ensures Framed(MANHATTAN)
  {
  }

  // ---- back to the loop after a cancel ----

  /** Sideways to the nearest avenue, along it to the nearest street, then by street and avenue to
      the loop: legal from any road point to any intersection. */
  lemma RejoinIsLegal(g: Grid, start: Point, avenue: real, street: real, target: Point)
    requires Framed(g) && g.IsRoadPoint(start) && InView(g, start)
    requires avenue in g.avenues && street in g.streets && g.OnAvenue(target) && g.OnStreet(target)
    requires g.OnAvenue(start) ==> avenue == start.left
    requires g.OnStreet(start) ==> street == start.top
    ensures var a, b, c := Point(avenue, start.top), Point(avenue, street), Point(target.left, street);
            var route := Through(start, [a, b, c, target]);
            OnTrack(g, start, route) && EndOf(start, route) == target
  {
    var a, b, c := Point(avenue, start.top), Point(avenue, street), Point(target.left, street);
    assert [c, target][1..] == [target] && [target][1..] == [];
    assert [b, c, target][1..] == [c, target];
    assert [a, b, c, target][1..] == [b, c, target];
    assert Hops(g, target, []) && Hops(g, c, [target]) && Hops(g, b, [c, target]) && Hops(g, a, [b, c, target]);
    assert (target == start ==> c == start) && (c == start ==> b == start) && (b == start ==> a == start);
    assert NoReturn(start, [target]);
    assert NoReturn(start, [c, target]);
    assert NoReturn(start, [b, c, target]);
    RouteThrough(g, start, [a, b, c, target]);
    ThroughUses(start, [a, b, c, target]);
  }

  predicate IsNearest(start: Point, loop: seq<Point>, index: nat) {
    && index < |loop|
    && forall i :: 0 <= i < |loop| ==> SquaredDistance(start, loop[index]) <= SquaredDistance(start, loop[i])
  }

  /** The index of the loop point nearest to `start`; the first one if several are. */
  method NearestIndex(start: Point, loop: seq<Point>) returns (targetIndex: nat)
    requires loop != []
    ensures IsNearest(start, loop, targetIndex)
  {
    targetIndex := 0;
    for i := 0 to |loop|
      invariant targetIndex < |loop|
      invariant i == 0 ==> targetIndex == 0
      invariant forall j :: 0 <= j < i ==> SquaredDistance(start, loop[targetIndex]) <= SquaredDistance(start, loop[j])
    {
      if SquaredDistance(start, loop[i]) < SquaredDistance(start, loop[targetIndex]) {
        targetIndex := i;
      }
    }
  }

  // ---- a driver ----

  class Driver {
    const grid: Grid
    const loop: seq<Point>
    var position: LonLat
    var left: real
    var top: real
    var targetIndex: nat
    var rejoinRoute: WaypointRoute?
    var pickupRoute: PickupRoute?
    /** Every position ever shown: what a stale echo may bring back. */
    ghost var shown: set<LonLat>

    ghost predicate OnRoad(p: LonLat) {
      Framed(grid) && grid.IsRoadPoint(Project(grid, p))
    }

    function Here(): Point
      reads this
    {
      Point(left, top)
    }

    ghost predicate Valid()
      reads this, rejoinRoute, pickupRoute
    {
      && Framed(grid) && IsLoop(grid, loop) && targetIndex < |loop|
      && position in shown
      && (forall p :: p in shown ==> OnRoad(p))
      && (pickupRoute != null ==> pickupRoute.Valid() && pickupRoute.grid == grid && rejoinRoute == null)
      && (rejoinRoute != null ==>
            && rejoinRoute.Valid() && rejoinRoute.grid == grid
            && grid.IsLegalSegment(rejoinRoute.End(), loop[targetIndex]))
      && (pickupRoute == null && rejoinRoute == null ==>
            grid.IsRoadPoint(Here()) && InView(grid, Here()) && grid.IsLegalSegment(Here(), loop[targetIndex]))
    }

    /** Every position shown so far, the current one included, is on an avenue or a street. */
    lemma ShownOnRoad(p: LonLat)
      requires Valid() && p in shown
      ensures grid.IsRoadPoint(Project(grid, p)) && InView(grid, Project(grid, p))
    {
      assert OnRoad(p);
      ProjectsIntoView(grid, p);
    }

    constructor (grid: Grid, loop: seq<Point>)
      requires Framed(grid) && IsLoop(grid, loop)
      ensures Valid() && this.grid == grid && this.loop == loop && pickupRoute == null && rejoinRoute == null
      ensures Here() == loop[0] && targetIndex == 1 && position == Unproject(grid, loop[0])
    {
      this.grid, this.loop := grid, loop;
      position := Unproject(grid, loop[0]);
      left, top, targetIndex := loop[0].left, loop[0].top, 1;
      rejoinRoute, pickupRoute := null, null;
      shown := {Unproject(grid, loop[0])};
      new;
      RoundTrip(grid, loop[0]);
      assert Next(loop, 0) == 1;
    }

    /** resetDispatchResult and resetDriverRouteStates, run together by every demo reset. */
    method Reset()
      requires Valid()
      modifies this
      ensures Valid() && position == old(position) && shown == old(shown)
      ensures pickupRoute == null && rejoinRoute == null && Here() == loop[0] && targetIndex == 1
    {
      pickupRoute, rejoinRoute := null, null;
      left, top, targetIndex := loop[0].left, loop[0].top, 1;
      assert Next(loop, 0) == 1;
    }

    /** Seeding shows the driver at the start of its loop. */
    method Seed()
      requires Valid()
      modifies this`position, this`shown
      ensures Valid() && position == Unproject(grid, loop[0]) && shown == old(shown) + {position}
    {
      RoundTrip(grid, loop[0]);
      position := Unproject(grid, loop[0]);
      shown := shown + {position};
    }

    /** A rider's socket delivers an earlier position of this driver. */
    method Echo(earlier: LonLat)
      requires Valid() && earlier in shown
      modifies this`position
      ensures Valid() && position == earlier && shown == old(shown)
    {
      position := earlier;
    }

    method Show()
      requires Framed(grid) && grid.IsRoadPoint(Here()) && InView(grid, Here())
      modifies this`position, this`shown
      ensures position == Unproject(grid, Here()) && shown == old(shown) + {position}
      ensures OnRoad(position)
    {
      RoundTrip(grid, Here());
      position := Unproject(grid, Here());
      shown := shown + {position};
    }

    /** advanceDriverRoute: one step along the rejoin route or the loop. */
    method AdvanceDriverRoute()
      requires Valid() && pickupRoute == null
      modifies this, rejoinRoute
      ensures Valid() && pickupRoute == null
      ensures position == Unproject(grid, Here()) && shown == old(shown) + {position}
      ensures old(rejoinRoute) == null ==> rejoinRoute == null
      ensures rejoinRoute != null ==>
                rejoinRoute == old(rejoinRoute) && rejoinRoute.waypointIndex < |rejoinRoute.waypoints|
      ensures old(rejoinRoute) != null ==> targetIndex == old(targetIndex) && Here() == old(rejoinRoute).Here()
      ensures old(rejoinRoute) != null ==>
                var route, here := old(rejoinRoute), old(rejoinRoute.Here());
                && (rejoinRoute == null <==> route.waypointIndex == |route.waypoints|)
                && (old(route.waypointIndex) < |route.waypoints|
                    && Distance(here, route.waypoints[old(route.waypointIndex)]) >= 0.01 ==>
                      Distance(here, Here()) == Min(22.0, Distance(here, route.waypoints[old(route.waypointIndex)])))
      ensures old(rejoinRoute) != null && rejoinRoute != null ==>
                rejoinRoute.Effort(ROAD_STEP_PX) <= old(rejoinRoute.Effort(ROAD_STEP_PX)) - ROAD_STEP_PX
      ensures old(rejoinRoute) == null ==>
                var target := loop[old(targetIndex)];
                var distance := Distance(old(Here()), target);
                && Here() == Towards(old(Here()), target, StepRatio(22.0, distance))
                && targetIndex == if distance <= 22.0 then (old(targetIndex) + 1) % |loop| else old(targetIndex)
    {
      if rejoinRoute != null {
        var route := rejoinRoute;
        ghost var goal := route.End();
        var finished := route.AdvanceAlongWaypoints(ROAD_STEP_PX);
        left, top := route.left, route.top;
        assert route.End() == goal;
        if finished {
          rejoinRoute := null;
        }
      } else {
        Roam();
      }
      Show();
    }

    /** One step towards the loop's next corner. */
    method Roam()
      requires Valid() && pickupRoute == null && rejoinRoute == null
      modifies this`left, this`top, this`targetIndex
      ensures Valid()
      ensures var target := loop[old(targetIndex)];
              var distance := Distance(old(Here()), target);
              && Here() == Towards(old(Here()), target, StepRatio(ROAD_STEP_PX, distance))
              && targetIndex == if distance <= ROAD_STEP_PX then Next(loop, old(targetIndex)) else old(targetIndex)
    {
      var target := loop[targetIndex];
      var ratio := StepRatio(ROAD_STEP_PX, Distance(Here(), target));
      var moved := Towards(Here(), target, ratio);
      assert [target][1..] == [] && LegalPath(grid, target, []);
      assert OnTrack(grid, Here(), [target]);
      TowardsIsBetween(Here(), target, ratio);
      StillOnTrack(grid, Here(), [target], moved);
      if ratio == 1.0 {
        left, top := target.left, target.top;
        targetIndex := Next(loop, targetIndex);
      } else {
        left, top := moved.left, moved.top;
      }
    }

    /** startPickupRoute: from the shown position, however stale, to a pickup on the roads. */
    method StartPickupRoute(pickup: Point)
      requires Valid() && grid.IsRoadPoint(pickup) && InView(grid, pickup)
      modifies this
      ensures Valid() && position == old(position) && shown == old(shown)
      ensures pickupRoute != null && fresh(pickupRoute) && pickupRoute.pickup == pickup
      ensures pickupRoute.Here() == Project(grid, position)
      ensures pickupRoute.ticksRemaining == if Project(grid, position) == pickup then 0 else 10
      ensures rejoinRoute == null
      ensures ShortestRoute(grid, Project(grid, position), pickup, pickupRoute.waypoints)
    {
      ShownOnRoad(position);
      var start := Project(grid, position);
      rejoinRoute := null;
      var route := BuildPickupWaypoints(grid, start, pickup);
      pickupRoute := new PickupRoute(grid, start, pickup, route.waypoints);
    }

    /** A tick of an en-route driver. */
    method AdvancePickup()
      requires Valid() && pickupRoute != null
      modifies this, pickupRoute
      ensures Valid() && pickupRoute == old(pickupRoute)
      ensures pickupRoute.ticksRemaining
           == if old(pickupRoute.ticksRemaining) == 0 then 0 else old(pickupRoute.ticksRemaining) - 1
      ensures position == Unproject(grid, pickupRoute.Here()) && shown == old(shown) + {position}
      ensures !old(pickupRoute.reachedPickup) ==>
                var target := pickupRoute.waypoints[old(pickupRoute.waypointIndex)];
                pickupRoute.Here() == OneTick(old(pickupRoute.Here()), target, old(pickupRoute.segmentTicksRemaining))
      ensures old(pickupRoute.reachedPickup) ==> pickupRoute.Here() == old(pickupRoute.Here())
    {
      pickupRoute.AdvancePickupRoute();
      RoundTrip(grid, pickupRoute.Here());
      position := Unproject(grid, pickupRoute.Here());
      shown := shown + {position};
    }

    /** releaseDriverToRoaming, after a cancel: from the shown position back to the nearest corner
        of the loop, by roads only. */
    method ReleaseDriverToRoaming()
      requires Valid()
      modifies this
      ensures Valid() && position == old(position) && shown == old(shown)
      ensures pickupRoute == null && rejoinRoute != null && fresh(rejoinRoute)
      ensures rejoinRoute.Here() == Project(grid, position)
      ensures exists nearest: nat :: && IsNearest(Project(grid, position), loop, nearest)
                                     && targetIndex == Next(loop, nearest)
                                     && EndOf(Project(grid, position), rejoinRoute.waypoints) == loop[nearest]
    {
      ShownOnRoad(position);
      pickupRoute := null;
      var start := Project(grid, position);
      var nearest := NearestIndex(start, loop);
      var target := loop[nearest];
      var avenue := ClosestRoadCoordinate(grid.avenues, start.left);
      var street := ClosestRoadCoordinate(grid.streets, start.top);
      var a, b, c := Point(avenue, start.top), Point(avenue, street), Point(target.left, street);
      var waypoints := Through(start, [a, b, c, target]);
      RejoinIsLegal(grid, start, avenue, street, target);
      left, top := start.left, start.top;
      targetIndex := Next(loop, nearest);
      rejoinRoute := new WaypointRoute(grid, start, waypoints);
      assert waypoints[0..] == waypoints;
      assert IsNearest(start, loop, nearest);
    }
  }

  // ---- any sequence of events ----

  /** What can happen to a driver. An echo brings back the position shown `k` events ago. */
  datatype Event =
    | Tick(arrived: bool)
    | Assign(rider: LonLat)
    | Cancel
    | Seed
    | Reset
    | Echo(k: nat)

  /** The driver's own state is sound, and it shows the last of the positions so far. */
  ghost predicate Following(driver: Driver, positions: seq<LonLat>)
    reads driver, driver.rejoinRoute, driver.pickupRoute
  {
    && driver.Valid()
    && positions != [] && driver.position == positions[|positions| - 1]
    && forall p :: p in positions ==> p in driver.shown
  }

  /** The roadside pickup of a rider anywhere. */
  method RoadsidePickup(g: Grid, rider: LonLat) returns (pickup: Point)
    requires Framed(g)
    ensures g.IsRoadPoint(pickup) && InView(g, pickup)
    ensures forall p: Point :: g.IsRoadPoint(p) ==>
                                 SquaredDistance(Project(g, rider), pickup) <= SquaredDistance(Project(g, rider), p)
  {
    ProjectsIntoView(g, rider);
    pickup := NearestRoadPickup(g, Project(g, rider));
  }

  /** sendDriverLocations: a driver holds at its pickup, drives there, or roams. */
  method Move(driver: Driver, arrived: bool)
    requires driver.Valid()
    modifies driver, driver.rejoinRoute, driver.pickupRoute
    ensures driver.Valid()
    ensures old(driver.shown) <= driver.shown
    ensures driver.rejoinRoute == null || driver.rejoinRoute == old(driver.rejoinRoute)
    ensures driver.pickupRoute == old(driver.pickupRoute)
    ensures driver.pickupRoute != null && arrived ==>
              driver.position == old(driver.position) && driver.pickupRoute.Here() == old(driver.pickupRoute.Here())
    ensures driver.pickupRoute != null && !arrived ==>
              && driver.position == Unproject(driver.grid, driver.pickupRoute.Here())
              && (var before := old(driver.pickupRoute.ticksRemaining);
                  driver.pickupRoute.ticksRemaining == if before == 0 then 0 else before - 1)
    ensures driver.pickupRoute == null ==> driver.position == Unproject(driver.grid, driver.Here())
    ensures driver.pickupRoute == null && old(driver.rejoinRoute) == null ==>
              var target := driver.loop[old(driver.targetIndex)];
              var ratio := StepRatio(22.0, Distance(old(driver.Here()), target));
              driver.Here() == Towards(old(driver.Here()), target, ratio)
    ensures driver.pickupRoute == null && old(driver.rejoinRoute) != null ==>
              driver.Here() == old(driver.rejoinRoute).Here()
              && (driver.rejoinRoute != null ==>
                    driver.rejoinRoute.Effort(22.0) <= old(driver.rejoinRoute.Effort(22.0)) - 22.0)
  {
    if driver.pickupRoute == null {
      driver.AdvanceDriverRoute();
    } else if !arrived {
      driver.AdvancePickup();
    }
  }

  /** The dispatcher gave the driver a ride. */
  method AssignRide(driver: Driver, rider: LonLat)
    requires driver.Valid()
    modifies driver
    ensures driver.Valid() && driver.position == old(driver.position) && driver.shown == old(driver.shown)
    ensures driver.rejoinRoute == null && driver.pickupRoute != null && fresh(driver.pickupRoute)
    ensures driver.grid.IsRoadPoint(driver.pickupRoute.pickup)
    ensures forall p: Point :: driver.grid.IsRoadPoint(p) ==>
                                 SquaredDistance(Project(driver.grid, rider), driver.pickupRoute.pickup)
                                 <= SquaredDistance(Project(driver.grid, rider), p)
    ensures driver.pickupRoute.Here() == Project(driver.grid, driver.position)
    ensures var route := driver.pickupRoute;
            ShortestRoute(driver.grid, route.Here(), route.pickup, route.waypoints)
    ensures driver.pickupRoute.ticksRemaining
         == if driver.pickupRoute.Here() == driver.pickupRoute.pickup then 0 else 10
  {
    var pickup := RoadsidePickup(driver.grid, rider);
    driver.StartPickupRoute(pickup);
  }

  method Happen(driver: Driver, positions: seq<LonLat>, event: Event)
    requires Following(driver, positions)
    modifies driver, driver.rejoinRoute, driver.pickupRoute
    ensures driver.rejoinRoute == null || driver.rejoinRoute == old(driver.rejoinRoute) || fresh(driver.rejoinRoute)
    ensures driver.pickupRoute == null || driver.pickupRoute == old(driver.pickupRoute) || fresh(driver.pickupRoute)
    ensures Following(driver, positions + [driver.position])
    ensures event.Tick? ==> driver.pickupRoute == old(driver.pickupRoute)
    ensures event.Tick? && driver.pickupRoute == null ==> driver.position == Unproject(driver.grid, driver.Here())
    ensures event.Tick? && driver.pickupRoute != null ==>
              driver.position
              == if event.arrived then old(driver.position) else Unproject(driver.grid, driver.pickupRoute.Here())
    ensures event.Tick? && driver.pickupRoute != null && !event.arrived ==>
              driver.pickupRoute.ticksRemaining
              == if old(driver.pickupRoute.ticksRemaining) == 0 then 0 else old(driver.pickupRoute.ticksRemaining) - 1
    ensures event.Tick? && driver.pickupRoute == null && old(driver.rejoinRoute) == null ==>
              var target := driver.loop[old(driver.targetIndex)];
              var ratio := StepRatio(22.0, Distance(old(driver.Here()), target));
              driver.Here() == Towards(old(driver.Here()), target, ratio)
    ensures event.Assign? ==>
              && driver.pickupRoute != null && driver.position == old(driver.position)
              && driver.pickupRoute.Here() == Project(driver.grid, driver.position)
              && (var route := driver.pickupRoute;
                  ShortestRoute(driver.grid, route.Here(), route.pickup, route.waypoints))
              && driver.pickupRoute.ticksRemaining
                 == if driver.pickupRoute.Here() == driver.pickupRoute.pickup then 0 else 10
    ensures event.Cancel? ==>
              && driver.pickupRoute == null && driver.rejoinRoute != null && driver.position == old(driver.position)
              && driver.rejoinRoute.Here() == Project(driver.grid, driver.position)
    ensures event.Seed? ==> driver.position == Unproject(driver.grid, driver.loop[0])
    ensures event.Reset? ==>
              && driver.pickupRoute == null && driver.rejoinRoute == null && driver.Here() == driver.loop[0]
              && driver.position == old(driver.position)
    ensures event.Echo? ==> driver.position == positions[|positions| - 1 - event.k % |positions|]
    ensures event.Seed? || event.Echo? ==>
              && driver.pickupRoute == old(driver.pickupRoute) && driver.rejoinRoute == old(driver.rejoinRoute)
              && driver.Here() == old(driver.Here()) && driver.targetIndex == old(driver.targetIndex)
  {
    match event
    case Tick(arrived) => Move(driver, arrived);
    case Assign(rider) => AssignRide(driver, rider);
    case Cancel => driver.ReleaseDriverToRoaming();
    case Seed => driver.Seed();
    case Reset => driver.Reset();
    case Echo(k) => driver.Echo(positions[|positions| - 1 - k % |positions|]);
  }

  /** Whatever happens to a driver, and in whatever order, every position it ever shows is on an
      avenue or a street, inside the viewport. */
  method Live(grid: Grid, loop: seq<Point>, events: seq<Event>) returns (positions: seq<LonLat>)
    requires Framed(grid) && IsLoop(grid, loop)
    ensures |positions| == |events| + 1
    ensures forall p :: p in positions ==> grid.IsRoadPoint(Project(grid, p)) && InView(grid, Project(grid, p))
  {
    var driver := new Driver(grid, loop);
    positions := [driver.position];
    for i := 0 to |events|
      invariant fresh(driver) && driver.grid == grid
      invariant driver.rejoinRoute == null || fresh(driver.rejoinRoute)
      invariant driver.pickupRoute == null || fresh(driver.pickupRoute)
      invariant |positions| == i + 1 && Following(driver, positions)
    {
      Happen(driver, positions, events[i]);
      positions := positions + [driver.position];
    }
    forall p | p in positions ensures grid.IsRoadPoint(Project(grid, p)) && InView(grid, Project(grid, p)) {
      driver.ShownOnRoad(p);
    }
  }
}
