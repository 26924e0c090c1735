/** The dispatcher with nobody else at work: the Go methods in their own steps over the server,
    proved against what a caller is promised. */
module Dispatcher {
  import K = Keyspace
  import opened Keyspace
  import opened Clients
  import opened Ownership
  import opened RedisServer

  // ---- what dispatch should do ----

  function LiveEntry<T>(table: map<Id, Entry<T>>, now: int, key: Id): Option<Entry<T>> {
    if key in table && now < table[key].deadline then Some(table[key]) else None
  }

  /** Equal stores, except that dead lock entries may have been swept. */
  ghost predicate SameLive(s: Store, t: Store) {
    && t == s.(locks := t.locks)
    && forall d :: LiveEntry(t.locks, t.now, d) == LiveEntry(s.locks, s.now, d)
  }

  predicate Eligible(s: Store, driver: Id) {
    s.StatusOf(driver) == Some(Available) && s.LockOf(driver).None? && s.OwnerOf(driver).None?
  }

  function FirstEligible(s: Store, nearby: seq<Id>): (k: nat)
    ensures k <= |nearby|
    ensures k < |nearby| ==> Eligible(s, nearby[k])
    ensures forall j :: 0 <= j < k ==> !Eligible(s, nearby[j])
  {
    if nearby == [] || Eligible(s, nearby[0]) then 0 else 1 + FirstEligible(s, nearby[1..])
  }

  function Claimed(config: Config, s: Store, request: Request, driver: Id): Store {
    s.(locks := s.locks[driver := Entry(request.id, s.now + config.lockTTL)],
    statuses := s.statuses[driver := Entry(Busy, s.now + config.statusTTL)])
  }

  function RolledBack(config: Config, s: Store, driver: Id): Store {
    s.(locks := s.locks - {driver},
    statuses := s.statuses[driver := Entry(Available, s.now + config.statusTTL)])
  }

  /** What becomes of a request that wins `driver`. */
  function Won(config: Config, s: Store, request: Request, driver: Id): (Store, Outcome) {
    if request.rider.None? then (Claimed(config, s, request, driver), Assigned(driver))
    else if !ValidCoordinates(request.PickupPoint()) then (RolledBack(config, s, driver), InvalidPickup)
    else if Engaged(s, request.rider.value) then (RolledBack(config, s, driver), ActiveRide)
    else if s.RideOf(request.id).Some? then (RolledBack(config, s, driver), RequestExists)
    else (K.CreateRide(config, Claimed(config, s, request, driver), request.RideWith(driver)).0, Assigned(driver))
  }

  function Dispatched(config: Config, s: Store, request: Request, nearby: seq<Id>): (Store, Outcome) {
    var k := FirstEligible(s, nearby);
    if request.rider.Some? && Engaged(s, request.rider.value) then (s, ActiveRide)
    else if k == |nearby| then (s, NoDrivers)
    else Won(config, s, request, nearby[k])
  }

  lemma SameLiveLooksSame(s: Store, t: Store)
    requires SameLive(s, t)
    ensures forall d :: t.LockOf(d) == s.LockOf(d)
    ensures forall d :: Eligible(t, d) == Eligible(s, d)
  {
    forall d ensures t.LockOf(d) == s.LockOf(d) {
      assert LiveEntry(t.locks, t.now, d) == LiveEntry(s.locks, s.now, d);
    }
  }

  lemma ClaimFromSameLive(config: Config, s: Store, t: Store, request: Request, driver: Id)
    requires SameLive(s, t)
    ensures SameLive(Claimed(config, s, request, driver), Claimed(config, t, request, driver))
    ensures SameLive(RolledBack(config, s, driver), RolledBack(config, t, driver))
  {
    var u, v := Claimed(config, s, request, driver), Claimed(config, t, request, driver);
    var x, y := RolledBack(config, s, driver), RolledBack(config, t, driver);
    forall d
      ensures LiveEntry(v.locks, v.now, d) == LiveEntry(u.locks, u.now, d)
      ensures LiveEntry(y.locks, y.now, d) == LiveEntry(x.locks, x.now, d)
    {
      assert LiveEntry(t.locks, t.now, d) == LiveEntry(s.locks, s.now, d);
    }
  }

  lemma CreateFromSameLive(config: Config, s: Store, t: Store, ride: Assignment)
    requires SameLive(s, t)
    ensures SameLive(K.CreateRide(config, s, ride).0, K.CreateRide(config, t, ride).0)
  {
    var u, v := K.CreateRide(config, s, ride).0, K.CreateRide(config, t, ride).0;
    assert u.locks == s.locks && v.locks == t.locks && u.now == s.now && v.now == t.now;
    assert v == u.(locks := v.locks);
  }

  lemma WonFromSameLive(config: Config, s: Store, t: Store, request: Request, driver: Id)
    requires SameLive(s, t)
    ensures SameLive(Won(config, s, request, driver).0, Won(config, t, request, driver).0)
    ensures Won(config, s, request, driver).1 == Won(config, t, request, driver).1
  {
    ClaimFromSameLive(config, s, t, request, driver);
    if request.rider.Some? {
      assert t.RideOf(request.id) == s.RideOf(request.id);
      assert Engaged(t, request.rider.value) == Engaged(s, request.rider.value);
      var u, v := Claimed(config, s, request, driver), Claimed(config, t, request, driver);
      CreateFromSameLive(config, u, v, request.RideWith(driver));
    }
  }

  // ---- what the lock and claim steps come to, taken together ----

  lemma LockThenUnlock(config: Config, s: Store, driver: Id, request: Id)
    requires config.Valid() && s.LockOf(driver).None?
    ensures K.Unlock(K.SetLockIfAbsent(config, s, driver, request).0, driver, request).0
         == s.(locks := s.locks - {driver})
    ensures SameLive(s, s.(locks := s.locks - {driver}))
  {
    var u := K.SetLockIfAbsent(config, s, driver, request).0;
    assert u.LockOf(driver) == Some(request);
    assert u.locks - {driver} == s.locks - {driver};
  }

  lemma ClaimThenRelease(config: Config, s: Store, request: Request, driver: Id)
    requires config.Valid()
    ensures Claimed(config, s, request, driver).LockOf(driver) == Some(request.id)
    ensures var unlocked := K.Unlock(Claimed(config, s, request, driver), driver, request.id).0;
            K.SetStatus(config, unlocked, driver, Some(Available)) == RolledBack(config, s, driver)
  {
  }

  /** On a claimed driver without an owner the create script answers exactly as `Won` says. */
  lemma CreateAfterClaim(config: Config, s: Store, request: Request, driver: Id)
    requires s.OwnerOf(driver).None? && request.rider.Some?
    ensures var (t, code) := K.CreateRide(config, Claimed(config, s, request, driver), request.RideWith(driver));
            && code == (if Engaged(s, request.rider.value) then 0 else if s.RideOf(request.id).Some? then -1 else 1)
            && (code != 1 ==> t == Claimed(config, s, request, driver))
  {
  }

  // ---- what that means ----

  /** The driver given is the first eligible one of the distance-sorted list, and dispatch finds
      nobody exactly when nobody is eligible. */
  lemma DispatchPicksNearest(config: Config, s: Store, request: Request, nearby: seq<Id>, driver: Id)
    requires !(request.rider.Some? && Engaged(s, request.rider.value))
    ensures Dispatched(config, s, request, nearby).1 == Assigned(driver) ==>
              exists k :: && 0 <= k < |nearby| && nearby[k] == driver && Eligible(s, driver)
                          && forall j :: 0 <= j < k ==> !Eligible(s, nearby[j])
    ensures Dispatched(config, s, request, nearby).1 == NoDrivers <==> forall d :: d in nearby ==> !Eligible(s, d)
  {
    var k := FirstEligible(s, nearby);
    if k == |nearby| {
      assert forall d :: d in nearby ==> exists j :: 0 <= j < k && nearby[j] == d;
    } else {
      assert nearby[k] in nearby;
    }
  }

  predicate SameValues(s: Store, t: Store, key: Id) {
    && t.LockOf(key) == s.LockOf(key) && t.StatusOf(key) == s.StatusOf(key) && t.OwnerOf(key) == s.OwnerOf(key)
    && t.RequestOf(key) == s.RequestOf(key) && t.RideOf(key) == s.RideOf(key)
  }

  /** A dispatch that assigns nobody leaves every lock, status, owner, rider and record as it was. */
  lemma FailedDispatchLeavesAll(config: Config, s: Store, request: Request, nearby: seq<Id>, key: Id)
    requires config.Valid()
    requires !Dispatched(config, s, request, nearby).1.Assigned?
    ensures SameValues(s, Dispatched(config, s, request, nearby).0, key)
  {
    var k := FirstEligible(s, nearby);
    if k < |nearby| {
      RollbackLeavesAll(config, s, nearby[k], key);
    }
  }

  lemma FailedDispatchKeeps(config: Config, s: Store, request: Request, nearby: seq<Id>)
    requires config.Valid() && !Dispatched(config, s, request, nearby).1.Assigned?
    ensures var t := Dispatched(config, s, request, nearby).0;
            SameRides(s, t) && forall d :: t.LockOf(d) == s.LockOf(d) && t.StatusOf(d) == s.StatusOf(d)
  {
    forall d ensures var t := Dispatched(config, s, request, nearby).0;
                     t.LockOf(d) == s.LockOf(d) && t.StatusOf(d) == s.StatusOf(d)
    {
      FailedDispatchLeavesAll(config, s, request, nearby, d);
    }
  }

  lemma RollbackLeavesAll(config: Config, s: Store, driver: Id, key: Id)
    requires config.Valid() && Eligible(s, driver)
    ensures SameValues(s, RolledBack(config, s, driver), key)
  {
  }

  /** A dispatch that assigns `driver` sets exactly that driver's lock and status and, with a
      rider, the record and its two pointers. */
  lemma DispatchRecords(config: Config, s: Store, request: Request, nearby: seq<Id>, driver: Id)
    requires config.Valid()
    requires Dispatched(config, s, request, nearby).1 == Assigned(driver)
    ensures var t := Dispatched(config, s, request, nearby).0;
            && t.LockOf(driver) == Some(request.id) && t.StatusOf(driver) == Some(Busy)
            && (forall d :: d != driver ==>
                              && t.LockOf(d) == s.LockOf(d) && t.StatusOf(d) == s.StatusOf(d)
                              && t.OwnerOf(d) == s.OwnerOf(d))
            && (request.rider.None? ==> SameRides(s, t))
            && (request.rider.Some? ==>
                  && t.RideOf(request.id)
                     == Some(Assignment(
                               request.id, request.rider.value, driver,
                               if request.pickup.Some? then request.pickup.value else request.location, EnRoute))
                  && t.OwnerOf(driver) == Some(request.id)
                  && t.RequestOf(request.rider.value) == Some(request.id)
                  && (forall r :: r != request.id ==> t.RideOf(r) == s.RideOf(r))
                  && (forall p :: p != request.rider.value ==> t.RequestOf(p) == s.RequestOf(p)))
  {
    ClaimRecords(config, s, request, driver);
    if request.rider.Some? {
      CreateRecords(config, Claimed(config, s, request, driver), request.RideWith(driver));
    }
  }

  /** The same to the last key and deadline. */
  lemma DispatchWrites(config: Config, s: Store, request: Request, nearby: seq<Id>, driver: Id)
    requires Dispatched(config, s, request, nearby).1 == Assigned(driver)
    ensures var t := Dispatched(config, s, request, nearby).0;
            && t.now == s.now && t.positions == s.positions
            && t.locks == s.locks[driver := Entry(request.id, s.now + config.lockTTL)]
            && t.statuses == s.statuses[driver := Entry(Busy, s.now + config.statusTTL)]
    ensures request.rider.None? ==> SameRides(s, Dispatched(config, s, request, nearby).0)
    ensures request.rider.Some? ==>
              var t, id, rider := Dispatched(config, s, request, nearby).0, request.id, request.rider.value;
              var pickup := if request.pickup.Some? then request.pickup.value else request.location;
              && t.rides == s.rides[id := Entry(Assignment(id, rider, driver, pickup, EnRoute), s.now + config.rideTTL)]
              && t.riderActive == s.riderActive[rider := Entry(id, s.now + config.rideTTL)]
              && t.driverActive == s.driverActive[driver := Entry(id, s.now + config.rideTTL)]
  {
    var k := FirstEligible(s, nearby);
    assert nearby[k] == driver;
    if request.rider.Some? {
      CreateAfterClaim(config, s, request, driver);
    }
  }

  /** Which of its outcomes a dispatch has. */
  lemma DispatchDecides(config: Config, s: Store, request: Request, nearby: seq<Id>)
    ensures var outcome := Dispatched(config, s, request, nearby).1;
            var engaged := && request.rider.Some? && s.RequestOf(request.rider.value).Some?
                           && s.RideOf(s.RequestOf(request.rider.value).value).Some?
                           && s.RideOf(s.RequestOf(request.rider.value).value).value.status != Cancelled;
            var pickup := if request.pickup.Some? then request.pickup.value else request.location;
            var outside := || pickup.longitude < -180.0 || pickup.longitude > 180.0
                           || pickup.latitude < -90.0 || pickup.latitude > 90.0;
            var nobody := forall d :: d in nearby ==>
                                        !(s.StatusOf(d) == Some(Available) && s.LockOf(d).None? && s.OwnerOf(d).None?);
            && (outcome == ActiveRide <==> engaged)
            && (outcome == NoDrivers <==> !engaged && nobody)
            && (outcome == InvalidPickup <==> !engaged && !nobody && request.rider.Some? && outside)
            && (outcome == RequestExists <==>
                !engaged && !nobody && request.rider.Some? && !outside && s.RideOf(request.id).Some?)
            && (outcome.Assigned? <==>
                !engaged && !nobody && (request.rider.None? || (!outside && s.RideOf(request.id).None?)))
  {
    var k := FirstEligible(s, nearby);
    if k == |nearby| {
      assert forall d :: d in nearby ==> exists j :: 0 <= j < k && nearby[j] == d && !Eligible(s, nearby[j]);
    } else {
      assert nearby[k] in nearby && Eligible(s, nearby[k]);
    }
  }

  lemma ClaimRecords(config: Config, s: Store, request: Request, driver: Id)
    requires config.Valid()
    ensures var t := Claimed(config, s, request, driver);
            && t.LockOf(driver) == Some(request.id) && t.StatusOf(driver) == Some(Busy) && SameRides(s, t)
            && (forall d :: d != driver ==> t.LockOf(d) == s.LockOf(d) && t.StatusOf(d) == s.StatusOf(d))
            && (forall d :: t.OwnerOf(d) == s.OwnerOf(d)) && (forall r :: t.RideOf(r) == s.RideOf(r))
            && (forall p :: t.RequestOf(p) == s.RequestOf(p))
  {
  }

  lemma CreateRecords(config: Config, s: Store, ride: Assignment)
    requires config.Valid() && ride.status == EnRoute
    requires K.CreateRide(config, s, ride).1 == 1
    ensures var t := K.CreateRide(config, s, ride).0;
            && t.now == s.now && t.locks == s.locks && t.statuses == s.statuses
            && t.RideOf(ride.request) == Some(ride)
            && t.OwnerOf(ride.driver) == Some(ride.request) && t.RequestOf(ride.rider) == Some(ride.request)
            && (forall d :: d != ride.driver ==> t.OwnerOf(d) == s.OwnerOf(d))
            && (forall r :: r != ride.request ==> t.RideOf(r) == s.RideOf(r))
            && (forall p :: p != ride.rider ==> t.RequestOf(p) == s.RequestOf(p))
  {
  }

  /** Dispatch keeps ownership backed and exclusive. */
  lemma DispatchKeepsOwnership(config: Config, s: Store, request: Request, nearby: seq<Id>)
    requires Backed(s) && Exclusive(s)
    ensures Backed(Dispatched(config, s, request, nearby).0) && Exclusive(Dispatched(config, s, request, nearby).0)
  {
    var k := FirstEligible(s, nearby);
    var t := Dispatched(config, s, request, nearby).0;
    if SameRides(s, t) {
      SameRidesKeep(s, t);
    } else {
      var u := Claimed(config, s, request, nearby[k]);
      SameRidesKeep(s, u);
      CreateKeepsBacked(config, u, request.RideWith(nearby[k]));
      CreateKeepsExclusive(config, u, request.RideWith(nearby[k]));
    }
  }

  // ---- what the other requests should do ----

  function Cancelling(config: Config, s: Store, id: Id): (Store, Outcome) {
    match s.RideOf(id)
    case None => (s, RideNotFound)
    case Some(ride) =>
      if ride.status != EnRoute then (s, StateConflict)
      else
        var (t, code) := K.CancelRide(config, s, id, ride.driver, ride.rider);
        (t, CancelResult(code, ride))
  }

  function Arriving(config: Config, s: Store, id: Id): (Store, Outcome) {
    match s.RideOf(id)
    case None => (s, RideNotFound)
    case Some(ride) =>
      if ride.status != EnRoute then (s, StateConflict)
      else if ride.driver !in s.positions then (s, NoPosition)
      else if !config.Near(s.positions[ride.driver], ride.pickup) then (s, TooFar)
      else
        var (t, code) := K.ArriveRide(config, s, id, ride.rider, ride.driver);
        (t, ArriveResult(code, ride))
  }

  function Resetting(config: Config, s: Store, rider: Id): (Store, Outcome) {
    match s.RequestOf(rider)
    case None => (s, Done)
    case Some(id) =>
      match s.RideOf(id)
      case None => (K.ClearRider(s, rider, id), Done)
      case Some(ride) =>
        if ride.status != EnRoute then (K.ClearReset(s, rider, ride.driver, id), Done)
        else
          var (t, outcome) := Cancelling(config, s, id);
          (t, if outcome.CancelledRide? then Done else outcome)
  }

  function Locating(config: Config, s: Store, driver: Id, position: Position): Store {
    var t := s.(positions := s.positions[driver := position]);
    var (u, owned) := K.RefreshDriver(config, t, driver);
    if owned == 1 then u
    else
      var (v, alive) := K.Heartbeat(config, u, driver);
      if alive == 1 then v else K.SetStatus(config, v, driver, Some(Available))
  }

  /** A cancel tells missing, settled and protected rides apart, and otherwise frees driver, lock
      and rider and keeps the record as cancelled. */
  lemma CancellingMeans(config: Config, s: Store, id: Id)
    ensures var (t, outcome) := Cancelling(config, s, id);
            && (outcome == RideNotFound <==> s.RideOf(id).None?)
            && (outcome == StateConflict <==> s.RideOf(id).Some? && s.RideOf(id).value.status != EnRoute)
            && (!outcome.CancelledRide? ==> t == s)
    ensures s.EnRouteNow(id) ==>
              var (t, outcome) := Cancelling(config, s, id);
              var ride := s.RideOf(id).value;
              var protected := || s.OwnerOf(ride.driver) != Some(id)
                               || (s.LockOf(ride.driver).Some? && s.LockOf(ride.driver).value != id);
              && (outcome == OwnershipConflict <==> protected)
              && (outcome == CancelledRide(ride.(status := Cancelled)) <==> !protected)
    ensures Cancelling(config, s, id).1.CancelledRide? ==>
              var t, ride := Cancelling(config, s, id).0, s.RideOf(id).value;
              && t.now == s.now && t.positions == s.positions
              && t.rides == s.rides[id := Entry(ride.(status := Cancelled), s.now + config.rideTTL)]
              && t.driverActive == s.driverActive - {ride.driver}
              && t.riderActive
                 == (if s.RequestOf(ride.rider) == Some(id) then s.riderActive - {ride.rider} else s.riderActive)
              && t.locks == (if s.LockOf(ride.driver).Some? then s.locks - {ride.driver} else s.locks)
              && t.statuses == if s.StatusOf(ride.driver) == Some(Busy)
                               then s.statuses[ride.driver := Entry(Available, s.now + config.statusTTL)]
                               else s.statuses
  {
  }

  /** An arrival is refused for one reason at a time, and otherwise record, pointers and busy driver
      all start a new lifetime. */
  lemma ArrivingMeans(config: Config, s: Store, id: Id)
    ensures var (t, outcome) := Arriving(config, s, id);
            && (outcome == RideNotFound <==> s.RideOf(id).None?)
            && (s.RideOf(id).Some? && s.RideOf(id).value.status != EnRoute ==> outcome == StateConflict)
            && (!outcome.ArrivedRide? ==> t == s)
    ensures s.EnRouteNow(id) ==>
              var outcome, ride := Arriving(config, s, id).1, s.RideOf(id).value;
              var placed := ride.driver in s.positions;
              var far := placed && config.distance(s.positions[ride.driver], ride.pickup) > config.threshold;
              var held := && s.RequestOf(ride.rider) == Some(id) && s.OwnerOf(ride.driver) == Some(id)
                          && s.StatusOf(ride.driver) == Some(Busy);
              && (outcome == NoPosition <==> !placed)
              && (outcome == TooFar <==> far)
              && (outcome == StateConflict <==> placed && !far && !held)
              && (outcome == ArrivedRide(ride.(status := Arrived)) <==> placed && !far && held)
    ensures Arriving(config, s, id).1.ArrivedRide? ==>
              var t, ride, deadline := Arriving(config, s, id).0, s.RideOf(id).value, s.now + config.rideTTL;
              t == s.(rides := s.rides[id := Entry(ride.(status := Arrived), deadline)],
              riderActive := s.riderActive[ride.rider := Entry(id, deadline)],
              driverActive := s.driverActive[ride.driver := Entry(id, deadline)],
              statuses := s.statuses[ride.driver := Entry(Busy, s.now + config.statusTTL)])
  {
  }

  /** A reset is refused exactly for an en-route ride that is protected; otherwise it frees the rider
      of the request, and the driver of its ride. */
  lemma ResettingMeans(config: Config, s: Store, rider: Id)
    ensures var (t, outcome) := Resetting(config, s, rider);
            && (outcome == Done || outcome == OwnershipConflict)
            && (outcome == OwnershipConflict <==>
                && s.RequestOf(rider).Some? && s.EnRouteNow(s.RequestOf(rider).value)
                && var id := s.RequestOf(rider).value;
                var driver := s.RideOf(id).value.driver;
                || s.OwnerOf(driver) != Some(id)
                || (s.LockOf(driver).Some? && s.LockOf(driver).value != id))
            && (outcome == OwnershipConflict || s.RequestOf(rider).None? ==> t == s)
    ensures Resetting(config, s, rider).1 == Done && s.RequestOf(rider).Some? ==>
              var t, id := Resetting(config, s, rider).0, s.RequestOf(rider).value;
              && (s.RideOf(id).None? ==> t == s.(riderActive := s.riderActive - {rider}))
              && (s.EnRouteNow(id) ==>
                    var ride := s.RideOf(id).value;
                    && t.now == s.now && t.positions == s.positions
                    && t.rides == s.rides[id := Entry(ride.(status := Cancelled), s.now + config.rideTTL)]
                    && t.driverActive == s.driverActive - {ride.driver}
                    && (s.RequestOf(ride.rider) == Some(id) ==> t.riderActive == s.riderActive - {ride.rider})
                    && (s.RequestOf(ride.rider) != Some(id) ==> t.riderActive == s.riderActive)
                    && t.locks == (if s.LockOf(ride.driver).Some? then s.locks - {ride.driver} else s.locks)
                    && t.statuses == if s.StatusOf(ride.driver) == Some(Busy)
                                     then s.statuses[ride.driver := Entry(Available, s.now + config.statusTTL)]
                                     else s.statuses)
              && (s.RideOf(id).Some? && s.RideOf(id).value.status != EnRoute ==>
                    var driver := s.RideOf(id).value.driver;
                    var owners := if s.OwnerOf(driver) == Some(id) then s.driverActive - {driver} else s.driverActive;
                    t == s.(riderActive := s.riderActive - {rider}, driverActive := owners))
  {
    if s.RequestOf(rider).Some? {
      CancellingMeans(config, s, s.RequestOf(rider).value);
    }
  }

  /** On stores with sound ownership a reset leaves the rider without a ride, and ownership sound. */
  lemma ResettingKeeps(config: Config, s: Store, rider: Id)
    ensures var (t, outcome) := Resetting(config, s, rider);
            && (Backed(s) && outcome == Done ==> t.RequestOf(rider).None?)
            && (Exclusive(s) ==>
                  (outcome == OwnershipConflict <==>
                   && s.RequestOf(rider).Some? && s.EnRouteNow(s.RequestOf(rider).value)
                   && var id := s.RequestOf(rider).value;
                   var lock := s.LockOf(s.RideOf(id).value.driver);
                   lock.Some? && lock.value != id))
            && (Backed(s) && Exclusive(s) ==> Backed(t) && Exclusive(t))
  {
    ResettingMeans(config, s, rider);
    if s.RequestOf(rider).Some? {
      var id := s.RequestOf(rider).value;
      assert Backed(s) ==> RiderBacked(s, rider);
      assert Exclusive(s) ==> Held(s, id);
      if Backed(s) && Exclusive(s) {
        ResettingKeepsOwnership(config, s, rider);
      }
    }
  }

  lemma ResettingKeepsOwnership(config: Config, s: Store, rider: Id)
    requires Backed(s) && Exclusive(s) && s.RequestOf(rider).Some?
    ensures Backed(Resetting(config, s, rider).0) && Exclusive(Resetting(config, s, rider).0)
  {
    var id := s.RequestOf(rider).value;
    assert RiderBacked(s, rider);
    var ride := s.RideOf(id).value;
    if ride.status == EnRoute {
      CancelKeepsBacked(config, s, id, ride.driver, ride.rider);
      CancelKeepsExclusive(config, s, id, ride.driver, ride.rider);
    } else {
      ClearResetKeepsBacked(s, rider, ride.driver, id);
      ClearKeepsExclusive(s, rider, ride.driver, id);
    }
  }

  /** A location makes an owned driver busy and never offers it; without an owner it brings an expired
      driver back and lets any other status last. */
  lemma LocatingMeans(config: Config, s: Store, driver: Id, position: Position)
    requires Backed(s)
    ensures var status := if s.OwnerOf(driver).Some? then Busy
                          else if s.StatusOf(driver).None? then Available
                          else s.StatusOf(driver).value;
            Locating(config, s, driver, position)
            == s.(positions := s.positions[driver := position],
            statuses := s.statuses[driver := Entry(status, s.now + config.statusTTL)])
  {
    var t := s.(positions := s.positions[driver := position]);
    assert OwnerBacked(s, driver);
    assert t.OwnerOf(driver) == s.OwnerOf(driver) && t.StatusOf(driver) == s.StatusOf(driver);
    assert forall r :: t.RideOf(r) == s.RideOf(r);
  }

  class Dispatcher {
    const redis: Redis

    constructor (redis: Redis)
      ensures this.redis == redis
    {
      this.redis := redis;
    }

    /** lifecycle.active: the rider's ride, if it is still en route or arrived. */
    method Active(rider: Id) returns (ride: Option<Assignment>)
      ensures ride.Some? <==> Engaged(redis.State(), rider)
      ensures ride.Some? <==>
              && redis.State().RequestOf(rider).Some?
              && redis.State().RideOf(redis.State().RequestOf(rider).value).Some?
              && redis.State().RideOf(redis.State().RequestOf(rider).value).value.status != Cancelled
      ensures ride.Some? ==>
                var request := redis.State().RequestOf(rider);
                request.Some? && ride == redis.State().RideOf(request.value)
    {
      var request := Lookup(redis.riderActive, redis.now, rider);
      if request.None? {
        return None;
      }
      ride := Lookup(redis.rides, redis.now, request.value);
      if ride.Some? && ride.value.status != EnRoute && ride.value.status != Arrived {
        return None;
      }
    }

    /** ReleaseDriver: unlock first; a lock that expired is no obstacle, a foreign one is. */
    method ReleaseDriver(driver: Id, request: Id) returns (released: bool)
      modifies redis
      ensures released <==>
              old(redis.State()).LockOf(driver).None? || old(redis.State()).LockOf(driver) == Some(request)
      ensures released ==>
                var unlocked := K.Unlock(old(redis.State()), driver, request).0;
                redis.State() == K.SetStatus(redis.config, unlocked, driver, Some(Available))
      ensures released ==>
                var s, locks := old(redis.State()), redis.locks;
                && locks == (if s.LockOf(driver).Some? then s.locks - {driver} else s.locks)
                && redis.State() == s.(locks := locks,
                                    statuses := s.statuses[driver := Entry(Available, s.now + redis.config.statusTTL)])
      ensures !released ==> redis.State() == old(redis.State())
    {
      var code := redis.Unlock(driver, request);
      if code != 1 && code != -1 {
        return false;
      }
      redis.SetStatus(driver, Some(Available));
      return true;
    }

    /** tryAssignDriver: `None` means try the next candidate. */
    method TryAssignDriver(request: Request, driver: Id) returns (outcome: Option<Outcome>)
      requires redis.config.Valid()
      modifies redis
      ensures outcome.None? <==> !Eligible(old(redis.State()), driver)
      ensures outcome.None? ==> SameLive(old(redis.State()), redis.State())
      ensures outcome.Some? ==> (redis.State(), outcome.value) == Won(redis.config, old(redis.State()), request, driver)
    {
      ghost var start := redis.State();
      var locked := redis.SetLockIfAbsent(driver, request.id);
      if locked != 1 {
        return None;
      }
      LockThenUnlock(redis.config, start, driver, request.id);
      var owner := Lookup(redis.driverActive, redis.now, driver);
      if owner.Some? {
        var _ := redis.Unlock(driver, request.id);
        return None;
      }
      var busy := redis.SetBusy(driver);
      if busy != 1 {
        var _ := redis.Unlock(driver, request.id);
        return None;
      }
      assert redis.State() == Claimed(redis.config, start, request, driver);
      ClaimThenRelease(redis.config, start, request, driver);
      if request.rider.Some? {
        if !ValidCoordinates(request.PickupPoint()) {
          var _ := ReleaseDriver(driver, request.id);
          return Some(InvalidPickup);
        }
        CreateAfterClaim(redis.config, start, request, driver);
        // The owner was read as absent and nobody interferes, so the script cannot answer -2.
        var code := redis.CreateRide(request.RideWith(driver));
        if code != 1 {
          var _ := ReleaseDriver(driver, request.id);
          return Some(if code == 0 then ActiveRide else RequestExists);
        }
      }
      return Some(Assigned(driver));
    }

    /** FindAndAssign refines the one-look specification. */
    method FindAndAssign(request: Request, nearby: seq<Id>) returns (outcome: Outcome)
      requires redis.config.Valid()
      modifies redis
      ensures outcome == Dispatched(redis.config, old(redis.State()), request, nearby).1
      ensures SameLive(Dispatched(redis.config, old(redis.State()), request, nearby).0, redis.State())
      ensures var s := old(redis.State());
              var engaged := && request.rider.Some? && s.RequestOf(request.rider.value).Some?
                             && s.RideOf(s.RequestOf(request.rider.value).value).Some?
                             && s.RideOf(s.RequestOf(request.rider.value).value).value.status != Cancelled;
              var nobody := forall d :: d in nearby ==>
                                          s.StatusOf(d) != Some(Available) || s.LockOf(d).Some? || s.OwnerOf(d).Some?;
              var pickup := if request.pickup.Some? then request.pickup.value else request.location;
              var outside := || pickup.longitude < -180.0 || pickup.longitude > 180.0
                             || pickup.latitude < -90.0 || pickup.latitude > 90.0;
              && (outcome == ActiveRide <==> engaged)
              && (outcome == NoDrivers <==> !engaged && nobody)
              && (outcome == InvalidPickup <==> !engaged && !nobody && request.rider.Some? && outside)
              && (outcome == RequestExists <==>
                  !engaged && !nobody && request.rider.Some? && !outside && s.RideOf(request.id).Some?)
              && (outcome.Assigned? <==>
                  !engaged && !nobody && (request.rider.None? || (!outside && s.RideOf(request.id).None?)))
      ensures !outcome.Assigned? ==>
                && SameRides(old(redis.State()), redis.State())
                && forall d :: && redis.State().LockOf(d) == old(redis.State()).LockOf(d)
                               && redis.State().StatusOf(d) == old(redis.State()).StatusOf(d)
      ensures outcome.Assigned? ==>
                var s, d := old(redis.State()), outcome.driver;
                && (exists k :: && 0 <= k < |nearby| && nearby[k] == d
                                && s.StatusOf(d) == Some(Available) && s.LockOf(d).None? && s.OwnerOf(d).None?
                                && forall j :: 0 <= j < k ==>
                                                 || s.StatusOf(nearby[j]) != Some(Available)
                                                 || s.LockOf(nearby[j]).Some? || s.OwnerOf(nearby[j]).Some?)
                && redis.now == s.now && redis.positions == s.positions
                && redis.State().LockOf(d) == Some(request.id)
                && redis.locks[d].deadline == s.now + redis.config.lockTTL
                && (forall e :: e != d ==> redis.State().LockOf(e) == s.LockOf(e))
                && redis.statuses == s.statuses[d := Entry(Busy, s.now + redis.config.statusTTL)]
                && (request.rider.None? ==> SameRides(s, redis.State()))
      ensures outcome.Assigned? && request.rider.Some? ==>
                var s, id, rider := old(redis.State()), request.id, request.rider.value;
                var pickup := if request.pickup.Some? then request.pickup.value else request.location;
                var ride := Assignment(id, rider, outcome.driver, pickup, EnRoute);
                && redis.rides == s.rides[id := Entry(ride, s.now + redis.config.rideTTL)]
                && redis.riderActive == s.riderActive[rider := Entry(id, s.now + redis.config.rideTTL)]
                && redis.driverActive == s.driverActive[outcome.driver := Entry(id, s.now + redis.config.rideTTL)]
    {
      outcome := SearchNearby(request, nearby);
      DispatchDecides(redis.config, old(redis.State()), request, nearby);
      ghost var s, u := old(redis.State()), redis.State();
      ghost var t := Dispatched(redis.config, s, request, nearby).0;
      SameLiveLooksSame(t, u);
      if outcome.Assigned? {
        DispatchWrites(redis.config, s, request, nearby, outcome.driver);
        assert LiveEntry(u.locks, u.now, outcome.driver) == LiveEntry(t.locks, t.now, outcome.driver);
      } else {
        FailedDispatchKeeps(redis.config, s, request, nearby);
      }
    }

    /** The checks and the loop over candidates. */
    method SearchNearby(request: Request, nearby: seq<Id>) returns (outcome: Outcome)
      requires redis.config.Valid()
      modifies redis
      ensures outcome == Dispatched(redis.config, old(redis.State()), request, nearby).1
      ensures SameLive(Dispatched(redis.config, old(redis.State()), request, nearby).0, redis.State())
    {
      ghost var start := redis.State();
      if request.rider.Some? {
        var active := Active(request.rider.value);
        if active.Some? {
          return ActiveRide;
        }
      }
      if nearby == [] {
        return NoDrivers;
      }
      var statuses := redis.GetStatuses(nearby);
      for i := 0 to |nearby|
        invariant SameLive(start, redis.State())
        invariant forall j :: 0 <= j < i ==> !Eligible(start, nearby[j])
      {
        SameLiveLooksSame(start, redis.State());
        if statuses[nearby[i]] == Some(Available) {
          ghost var before := redis.State();
          var result := TryAssignDriver(request, nearby[i]);
          if result.Some? {
            assert FirstEligible(start, nearby) == i;
            WonFromSameLive(redis.config, start, before, request, nearby[i]);
            return result.value;
          }
          SameLiveLooksSame(before, redis.State());
        }
      }
      assert FirstEligible(start, nearby) == |nearby|;
      return NoDrivers;
    }

    /** CancelAssignment: refused for a missing, a settled or a protected ride. */
    method CancelAssignment(id: Id) returns (outcome: Outcome)
      modifies redis
      ensures (redis.State(), outcome) == Cancelling(redis.config, old(redis.State()), id)
      ensures outcome == RideNotFound <==> old(redis.State()).RideOf(id).None?
      ensures outcome == StateConflict <==> old(redis.State()).RideOf(id).Some? && !old(redis.State()).EnRouteNow(id)
      ensures old(redis.State()).EnRouteNow(id) ==>
                var s, ride := old(redis.State()), old(redis.State()).RideOf(id).value;
                var protected := || s.OwnerOf(ride.driver) != Some(id)
                                 || (s.LockOf(ride.driver).Some? && s.LockOf(ride.driver).value != id);
                outcome == if protected then OwnershipConflict else CancelledRide(ride.(status := Cancelled))
      ensures outcome.CancelledRide? ==>
                var s, ride := old(redis.State()), old(redis.State()).RideOf(id).value;
                && redis.now == s.now && redis.positions == s.positions
                && redis.rides == s.rides[id := Entry(ride.(status := Cancelled), s.now + redis.config.rideTTL)]
                && redis.driverActive == s.driverActive - {ride.driver}
                && redis.riderActive
                   == (if s.RequestOf(ride.rider) == Some(id) then s.riderActive - {ride.rider} else s.riderActive)
                && redis.locks == (if s.LockOf(ride.driver).Some? then s.locks - {ride.driver} else s.locks)
                && redis.statuses == if s.StatusOf(ride.driver) == Some(Busy)
                                     then s.statuses[ride.driver := Entry(Available, s.now + redis.config.statusTTL)]
                                     else s.statuses
      ensures !outcome.CancelledRide? ==> redis.State() == old(redis.State())
    {
      CancellingMeans(redis.config, redis.State(), id);
      var record := Lookup(redis.rides, redis.now, id);
      if record.None? {
        return RideNotFound;
      }
      if record.value.status != EnRoute {
        return StateConflict;
      }
      var code := redis.CancelRide(id, record.value.driver, record.value.rider);
      return CancelResult(code, record.value);
    }

    /** ArriveAssignment: refused for a ride that is not en route, a driver without a position or too
        far from the pickup, or one that is not busy with this ride. */
    method ArriveAssignment(id: Id) returns (outcome: Outcome)
      modifies redis
      ensures (redis.State(), outcome) == Arriving(redis.config, old(redis.State()), id)
      ensures outcome == RideNotFound <==> old(redis.State()).RideOf(id).None?
      ensures old(redis.State()).RideOf(id).Some? && !old(redis.State()).EnRouteNow(id) ==> outcome == StateConflict
      ensures old(redis.State()).EnRouteNow(id) ==>
                var s, ride := old(redis.State()), old(redis.State()).RideOf(id).value;
                var placed := ride.driver in s.positions;
                var far := && placed
                           && redis.config.distance(s.positions[ride.driver], ride.pickup) > redis.config.threshold;
                var held := && s.RequestOf(ride.rider) == Some(id) && s.OwnerOf(ride.driver) == Some(id)
                            && s.StatusOf(ride.driver) == Some(Busy);
                outcome == if !placed then NoPosition
                else if far then TooFar
                else if !held then StateConflict
                else ArrivedRide(ride.(status := Arrived))
      ensures outcome.ArrivedRide? ==>
                var s, ride := old(redis.State()), old(redis.State()).RideOf(id).value;
                var deadline := s.now + redis.config.rideTTL;
                redis.State()
                == s.(rides := s.rides[id := Entry(ride.(status := Arrived), deadline)],
                riderActive := s.riderActive[ride.rider := Entry(id, deadline)],
                driverActive := s.driverActive[ride.driver := Entry(id, deadline)],
                statuses := s.statuses[ride.driver := Entry(Busy, s.now + redis.config.statusTTL)])
      ensures !outcome.ArrivedRide? ==> redis.State() == old(redis.State())
    {
      ArrivingMeans(redis.config, redis.State(), id);
      var record := Lookup(redis.rides, redis.now, id);
      if record.None? {
        return RideNotFound;
      }
      var ride := record.value;
      if ride.status != EnRoute {
        return StateConflict;
      }
      if ride.driver !in redis.positions {
        return NoPosition;
      }
      if redis.config.distance(redis.positions[ride.driver], ride.pickup) > redis.config.threshold {
        return TooFar;
      }
      var code := redis.ArriveRide(id, ride.rider, ride.driver);
      return ArriveResult(code, ride);
    }

    /** ResetRiderAssignment frees the rider, and the driver of the rider's ride, unless an en-route
        ride is protected, in which case nothing changes. */
    method ResetRider(rider: Id) returns (outcome: Outcome)
      modifies redis
      ensures (redis.State(), outcome) == Resetting(redis.config, old(redis.State()), rider)
      ensures outcome == Done || outcome == OwnershipConflict
      ensures outcome == OwnershipConflict <==>
              var s := old(redis.State());
              && s.RequestOf(rider).Some? && s.EnRouteNow(s.RequestOf(rider).value)
              && var id := s.RequestOf(rider).value;
              var driver := s.RideOf(id).value.driver;
              || s.OwnerOf(driver) != Some(id)
              || (s.LockOf(driver).Some? && s.LockOf(driver).value != id)
      ensures Exclusive(old(redis.State())) ==>
                (outcome == OwnershipConflict <==>
                 var s := old(redis.State());
                 && s.RequestOf(rider).Some? && s.EnRouteNow(s.RequestOf(rider).value)
                 && var id := s.RequestOf(rider).value;
                 var lock := s.LockOf(s.RideOf(id).value.driver);
                 lock.Some? && lock.value != id)
      ensures outcome == OwnershipConflict ==> redis.State() == old(redis.State())
      ensures outcome == Done && Backed(old(redis.State())) ==> redis.State().RequestOf(rider).None?
      ensures outcome == Done && old(redis.State()).RequestOf(rider).Some? ==>
                var s, id := old(redis.State()), old(redis.State()).RequestOf(rider).value;
                var ride := s.RideOf(id);
                && (ride.Some? ==> redis.State().OwnerOf(ride.value.driver) != Some(id))
                && (s.EnRouteNow(id) && redis.config.Valid() ==>
                      redis.State().RideOf(id) == Some(ride.value.(status := Cancelled)))
                && (!s.EnRouteNow(id) ==> redis.State().RideOf(id) == ride)
      ensures Backed(old(redis.State())) && Exclusive(old(redis.State())) ==>
                Backed(redis.State()) && Exclusive(redis.State())
    {
      ResettingMeans(redis.config, redis.State(), rider);
      ResettingKeeps(redis.config, redis.State(), rider);
      var request := Lookup(redis.riderActive, redis.now, rider);
      if request.None? {
        return Done;
      }
      var id := request.value;
      var record := Lookup(redis.rides, redis.now, id);
      if record.None? {
        redis.ClearRider(rider, id);
        return Done;
      }
      if record.value.status == EnRoute {
        var cancelled := CancelAssignment(id);
        // Nobody interferes, so the ride cannot have been settled meanwhile.
        return if cancelled.CancelledRide? then Done else cancelled;
      }
      redis.ClearReset(rider, record.value.driver, id);
      return Done;
    }

    /** UpdateDriverLocation: an owned driver ends busy and is never offered; an offline driver
        without an owner comes back available; any other keeps its status value. */
    method UpdateDriverLocation(driver: Id, position: Position)
      requires Backed(redis.State())
      modifies redis
      ensures redis.State() == Locating(redis.config, old(redis.State()), driver, position)
      ensures var s := old(redis.State());
              var status := if s.OwnerOf(driver).Some? then Busy
                            else if s.StatusOf(driver).None? then Available
                            else s.StatusOf(driver).value;
              redis.State() == s.(positions := s.positions[driver := position],
              statuses := s.statuses[driver := Entry(status, s.now + redis.config.statusTTL)])
    {
      LocatingMeans(redis.config, redis.State(), driver, position);
      redis.StorePosition(driver, position);
      var active := redis.RefreshDriver(driver);
      if active == 1 {
        return;
      }
      var refreshed := redis.Heartbeat(driver);
      if refreshed != 1 {
        redis.SetStatus(driver, Some(Available));
      }
    }
  }
}
