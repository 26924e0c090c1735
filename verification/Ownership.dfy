/** Durable ownership: what every script keeps true of the ride records and of the two
    pointers (rider to request, driver to request), whatever the locks and statuses do. */
module Ownership {
  import opened Keyspace

  ghost predicate Keyed(s: Store) {
    forall r :: s.RideOf(r).Some? ==> s.RideOf(r).value.request == r
  }

  /** No dangling driver pointer: it names a live, active record of that driver that lasts
      at least as long as the pointer. */
  ghost predicate OwnerBacked(s: Store, driver: Id) {
    s.OwnerOf(driver).Some? ==>
      var r := s.OwnerOf(driver).value;
      && s.RideOf(r).Some?
      && s.RideOf(r).value.driver == driver
      && s.RideOf(r).value.Active()
      && s.driverActive[driver].deadline <= s.rides[r].deadline
  }

  ghost predicate RiderBacked(s: Store, rider: Id) {
    s.RequestOf(rider).Some? ==>
      var r := s.RequestOf(rider).value;
      && s.RideOf(r).Some?
      && s.RideOf(r).value.rider == rider
      && s.RideOf(r).value.Active()
      && s.riderActive[rider].deadline <= s.rides[r].deadline
  }

  ghost predicate Backed(s: Store) {
    && (forall d :: OwnerBacked(s, d))
    && (forall p :: RiderBacked(s, p))
  }

  /** An en-route record holds both of its pointers, with its own deadline. */
  ghost predicate Held(s: Store, request: Id) {
    s.EnRouteNow(request) ==>
      var ride := s.RideOf(request).value;
      && s.OwnerOf(ride.driver) == Some(request)
      && s.RequestOf(ride.rider) == Some(request)
      && s.driverActive[ride.driver].deadline == s.rides[request].deadline
      && s.riderActive[ride.rider].deadline == s.rides[request].deadline
  }

  ghost predicate Exclusive(s: Store) {
    forall r :: Held(s, r)
  }

  /** Commands that can strip a pointer without settling its ride. */
  predicate Clears(command: Command) {
    command.ClearRiderCmd? || command.ClearResetCmd?
  }

  ghost predicate ClearsOnlySettled(s: Store, command: Command) {
    Clears(command) ==> !s.EnRouteNow(command.request)
  }

  /** A clearing command for an en-route ride that still finds one of the pointers it names. */
  predicate Strips(s: Store, command: Command) {
    match command
    case ClearRiderCmd(p, r) => s.EnRouteNow(r) && s.RequestOf(p) == Some(r)
    case ClearResetCmd(p, d, r) => s.EnRouteNow(r) && (s.RequestOf(p) == Some(r) || s.OwnerOf(d) == Some(r))
    case _ => false
  }

  predicate SameRides(s: Store, t: Store) {
    t.now == s.now && t.rides == s.rides && t.riderActive == s.riderActive && t.driverActive == s.driverActive
  }

  predicate TouchesRides(command: Command) {
    command.CreateCmd? || command.CancelCmd? || command.ArriveCmd? || Clears(command)
  }

  lemma OthersLeaveRides(config: Config, s: Store, command: Command)
    requires !TouchesRides(command)
    ensures SameRides(s, Execute(config, s, command).0)
  {
    if command.LockCmd? || command.UnlockCmd? || command.ExtendCmd? || command.DeleteLocksCmd? {
      LocksLeaveRides(config, s, command);
    } else if command.BusyCmd? || command.StatusCmd? || command.HeartbeatCmd? {
      StatusesLeaveRides(config, s, command);
    } else if command.RefreshCmd? {
      RefreshLeavesRides(config, s, command.driver);
    }
  }

  lemma LocksLeaveRides(config: Config, s: Store, command: Command)
    requires command.LockCmd? || command.UnlockCmd? || command.ExtendCmd? || command.DeleteLocksCmd?
    ensures SameRides(s, Execute(config, s, command).0)
  {
  }

  lemma StatusesLeaveRides(config: Config, s: Store, command: Command)
    requires command.BusyCmd? || command.StatusCmd? || command.HeartbeatCmd?
    ensures SameRides(s, Execute(config, s, command).0)
  {
  }

  lemma RefreshLeavesRides(config: Config, s: Store, driver: Id)
    ensures SameRides(s, RefreshDriver(config, s, driver).0)
  {
  }

  lemma SameRidesKeep(s: Store, t: Store)
    requires SameRides(s, t)
    ensures Keyed(s) ==> Keyed(t)
    ensures Backed(s) ==> Backed(t)
    ensures Exclusive(s) ==> Exclusive(t)
  {
    assert forall r :: t.RideOf(r) == s.RideOf(r);
    assert forall d :: t.OwnerOf(d) == s.OwnerOf(d);
    assert forall p :: t.RequestOf(p) == s.RequestOf(p);
    if Backed(s) {
      forall d ensures OwnerBacked(t, d) { assert OwnerBacked(s, d); }
      forall p ensures RiderBacked(t, p) { assert RiderBacked(s, p); }
    }
    if Exclusive(s) {
      forall r ensures Held(t, r) { assert Held(s, r); }
    }
  }

  lemma ExecuteKeepsKeyed(config: Config, s: Store, command: Command)
    requires Keyed(s)
    ensures Keyed(Execute(config, s, command).0)
  {
    match command
    case CreateCmd(ride) => CreateKeepsKeyed(config, s, ride);
    case CancelCmd(r, d, p) => SettleKeepsKeyed(config, s, r, d, p);
    case ArriveCmd(r, p, d) => SettleKeepsKeyed(config, s, r, d, p);
    case ClearRiderCmd(p, r) => ClearKeepsKeyed(s, p, "", r);
    case ClearResetCmd(p, d, r) => ClearKeepsKeyed(s, p, d, r);
    case _ =>
      OthersLeaveRides(config, s, command);
      SameRidesKeep(s, Execute(config, s, command).0);
  }

  lemma ClearKeepsKeyed(s: Store, rider: Id, driver: Id, request: Id)
    requires Keyed(s)
    ensures Keyed(ClearRider(s, rider, request)) && Keyed(ClearReset(s, rider, driver, request))
  {
    assert forall r :: ClearRider(s, rider, request).RideOf(r) == s.RideOf(r);
    assert forall r :: ClearReset(s, rider, driver, request).RideOf(r) == s.RideOf(r);
  }

  lemma CreateKeepsKeyed(config: Config, s: Store, ride: Assignment)
    requires Keyed(s)
    ensures Keyed(CreateRide(config, s, ride).0)
  {
    var t := CreateRide(config, s, ride).0;
    forall r | t.RideOf(r).Some? ensures t.RideOf(r).value.request == r {
      assert r == ride.request || t.RideOf(r) == s.RideOf(r);
    }
  }

  lemma SettleKeepsKeyed(config: Config, s: Store, request: Id, driver: Id, rider: Id)
    requires Keyed(s)
    ensures Keyed(CancelRide(config, s, request, driver, rider).0)
    ensures Keyed(ArriveRide(config, s, request, rider, driver).0)
  {
    var t, u := CancelRide(config, s, request, driver, rider).0, ArriveRide(config, s, request, rider, driver).0;
    forall r ensures t.RideOf(r).Some? ==> t.RideOf(r).value.request == r {
      assert r == request || t.RideOf(r) == s.RideOf(r);
    }
    forall r ensures u.RideOf(r).Some? ==> u.RideOf(r).value.request == r {
      assert r == request || u.RideOf(r) == s.RideOf(r);
    }
  }

  // ---- no dangling ownership ----

  lemma CreateKeepsBacked(config: Config, s: Store, ride: Assignment)
    requires Backed(s)
    ensures Backed(CreateRide(config, s, ride).0)
  {
    var t := CreateRide(config, s, ride).0;
    assert OwnerBacked(s, ride.driver) && RiderBacked(s, ride.rider);
    forall d ensures OwnerBacked(t, d) { assert OwnerBacked(s, d); }
    forall p ensures RiderBacked(t, p) { assert RiderBacked(s, p); }
  }

  lemma CancelKeepsBacked(config: Config, s: Store, request: Id, driver: Id, rider: Id)
    requires Backed(s)
    ensures Backed(CancelRide(config, s, request, driver, rider).0)
  {
    var t := CancelRide(config, s, request, driver, rider).0;
    forall d ensures OwnerBacked(t, d) { assert OwnerBacked(s, d); }
    forall p ensures RiderBacked(t, p) { assert RiderBacked(s, p); }
  }

  lemma ArriveKeepsBacked(config: Config, s: Store, request: Id, rider: Id, driver: Id)
    requires Backed(s)
    ensures Backed(ArriveRide(config, s, request, rider, driver).0)
  {
    var t := ArriveRide(config, s, request, rider, driver).0;
    assert OwnerBacked(s, driver) && RiderBacked(s, rider);
    forall d ensures OwnerBacked(t, d) { assert OwnerBacked(s, d); }
    forall p ensures RiderBacked(t, p) { assert RiderBacked(s, p); }
  }

  lemma ClearRiderKeepsBacked(s: Store, rider: Id, request: Id)
    requires Backed(s)
    ensures Backed(ClearRider(s, rider, request))
  {
    var t := ClearRider(s, rider, request);
    forall d ensures OwnerBacked(t, d) { assert OwnerBacked(s, d); }
    forall p ensures RiderBacked(t, p) { assert RiderBacked(s, p); }
  }

  lemma ClearResetKeepsBacked(s: Store, rider: Id, driver: Id, request: Id)
    requires Backed(s)
    ensures Backed(ClearReset(s, rider, driver, request))
  {
    ClearRiderKeepsBacked(s, rider, request);
    var u, t := ClearRider(s, rider, request), ClearReset(s, rider, driver, request);
    forall d ensures OwnerBacked(t, d) { assert OwnerBacked(u, d); }
    forall p ensures RiderBacked(t, p) { assert RiderBacked(u, p); }
  }

  /** Every command of every client keeps ownership backed, with no assumption on request IDs. */
  lemma ExecuteKeepsBacked(config: Config, s: Store, command: Command)
    requires Backed(s)
    ensures Backed(Execute(config, s, command).0)
  {
    match command
    case CreateCmd(ride) => CreateKeepsBacked(config, s, ride);
    case CancelCmd(r, d, p) => CancelKeepsBacked(config, s, r, d, p);
    case ArriveCmd(r, p, d) => ArriveKeepsBacked(config, s, r, p, d);
    case ClearRiderCmd(p, r) => ClearRiderKeepsBacked(s, p, r);
    case ClearResetCmd(p, d, r) => ClearResetKeepsBacked(s, p, d, r);
    case _ =>
      OthersLeaveRides(config, s, command);
      SameRidesKeep(s, Execute(config, s, command).0);
  }

  lemma TickKeepsBacked(s: Store, now: int)
    requires s.now <= now
    ensures Keyed(s) ==> Keyed(s.(now := now))
    ensures Backed(s) ==> Backed(s.(now := now))
    ensures Exclusive(s) ==> Exclusive(s.(now := now))
  {
    var t := s.(now := now);
    if Keyed(s) {
      forall r | t.RideOf(r).Some? ensures t.RideOf(r).value.request == r { assert s.RideOf(r) == t.RideOf(r); }
    }
    if Backed(s) {
      forall d ensures OwnerBacked(t, d) { assert OwnerBacked(s, d); }
      forall p ensures RiderBacked(t, p) { assert RiderBacked(s, p); }
    }
    if Exclusive(s) {
      forall r ensures Held(t, r) { assert Held(s, r); }
    }
  }

  /** A key set now is live until exactly its lifetime from now: locks, statuses and rides alike. */
  lemma KeysLiveTheirTime(config: Config, s: Store, driver: Id, request: Id, ride: Assignment, later: int)
    ensures s.LockOf(driver).None? ==>
              var t := SetLockIfAbsent(config, s, driver, request).0.(now := later);
              t.LockOf(driver) == if later < s.now + config.lockTTL then Some(request) else None
    ensures var t := SetStatus(config, s, driver, Some(Busy)).(now := later);
            t.StatusOf(driver) == if later < s.now + config.statusTTL then Some(Busy) else None
    ensures CreateRide(config, s, ride).1 == 1 ==>
              var t := CreateRide(config, s, ride).0.(now := later);
              var live := later < s.now + config.rideTTL;
              && t.RideOf(ride.request) == (if live then Some(ride.(status := EnRoute)) else None)
              && t.RequestOf(ride.rider) == (if live then Some(ride.request) else None)
              && t.OwnerOf(ride.driver) == (if live then Some(ride.request) else None)
  {
  }

  // ---- exclusivity ----

  lemma CreateKeepsExclusive(config: Config, s: Store, ride: Assignment)
    requires Backed(s) && Exclusive(s)
    ensures Exclusive(CreateRide(config, s, ride).0)
  {
    var t := CreateRide(config, s, ride).0;
    assert RiderBacked(s, ride.rider) && OwnerBacked(s, ride.driver);
    forall r ensures Held(t, r) { assert Held(s, r); }
  }

  lemma CancelKeepsExclusive(config: Config, s: Store, request: Id, driver: Id, rider: Id)
    requires Exclusive(s)
    ensures Exclusive(CancelRide(config, s, request, driver, rider).0)
  {
    var t := CancelRide(config, s, request, driver, rider).0;
    forall r ensures Held(t, r) { assert Held(s, r); }
  }

  lemma ArriveKeepsExclusive(config: Config, s: Store, request: Id, rider: Id, driver: Id)
    requires Exclusive(s)
    ensures Exclusive(ArriveRide(config, s, request, rider, driver).0)
  {
    var t := ArriveRide(config, s, request, rider, driver).0;
    forall r ensures Held(t, r) { assert Held(s, r); }
  }

  lemma ClearKeepsExclusive(s: Store, rider: Id, driver: Id, request: Id)
    requires Exclusive(s) && !s.EnRouteNow(request)
    ensures Exclusive(ClearRider(s, rider, request))
    ensures Exclusive(ClearReset(s, rider, driver, request))
  {
    var u, t := ClearRider(s, rider, request), ClearReset(s, rider, driver, request);
    forall r ensures Held(u, r) && Held(t, r) { assert Held(s, r); }
  }

  lemma ExecuteKeepsExclusive(config: Config, s: Store, command: Command)
    requires Backed(s) && Exclusive(s) && ClearsOnlySettled(s, command)
    ensures Exclusive(Execute(config, s, command).0)
  {
    match command
    case CreateCmd(ride) => CreateKeepsExclusive(config, s, ride);
    case CancelCmd(r, d, p) => CancelKeepsExclusive(config, s, r, d, p);
    case ArriveCmd(r, p, d) => ArriveKeepsExclusive(config, s, r, p, d);
    case ClearRiderCmd(p, r) => ClearKeepsExclusive(s, p, "", r);
    case ClearResetCmd(p, d, r) => ClearKeepsExclusive(s, p, d, r);
    case _ =>
      OthersLeaveRides(config, s, command);
      SameRidesKeep(s, Execute(config, s, command).0);
  }

  /** Exactly those commands end exclusivity. */
  lemma ExclusiveUnlessStripped(config: Config, s: Store, command: Command)
    requires Backed(s) && Exclusive(s)
    ensures Exclusive(Execute(config, s, command).0) <==> !Strips(s, command)
  {
    match command
    case ClearRiderCmd(p, r) => ClearRiderStrips(s, p, r);
    case ClearResetCmd(p, d, r) => ClearResetStrips(s, p, d, r);
    case _ => ExecuteKeepsExclusive(config, s, command);
  }

  lemma ClearRiderStrips(s: Store, rider: Id, request: Id)
    requires Backed(s) && Exclusive(s)
    ensures Exclusive(ClearRider(s, rider, request)) <==> !Strips(s, ClearRiderCmd(rider, request))
  {
    var t := ClearRider(s, rider, request);
    if s.EnRouteNow(request) && s.RequestOf(rider) == Some(request) {
      assert RiderBacked(s, rider);
      assert t.EnRouteNow(request) && !Held(t, request);
    } else {
      forall r ensures Held(t, r) { assert Held(s, r); }
    }
  }

  lemma ClearResetStrips(s: Store, rider: Id, driver: Id, request: Id)
    requires Backed(s) && Exclusive(s)
    ensures Exclusive(ClearReset(s, rider, driver, request)) <==> !Strips(s, ClearResetCmd(rider, driver, request))
  {
    if Strips(s, ClearResetCmd(rider, driver, request)) {
      StrippedIsNotHeld(s, rider, driver, request);
    } else if s.EnRouteNow(request) {
      assert ClearReset(s, rider, driver, request) == s;
    } else {
      ClearKeepsExclusive(s, rider, driver, request);
    }
  }

  lemma StrippedIsNotHeld(s: Store, rider: Id, driver: Id, request: Id)
    requires Backed(s) && Strips(s, ClearResetCmd(rider, driver, request))
    ensures !Held(ClearReset(s, rider, driver, request), request)
  {
    assert RiderBacked(s, rider) && OwnerBacked(s, driver);
    var t := ClearReset(s, rider, driver, request);
    assert t.RideOf(request) == s.RideOf(request);
    assert s.RequestOf(rider) == Some(request) ==> t.RequestOf(rider).None? && s.RideOf(request).value.rider == rider;
    assert s.OwnerOf(driver) == Some(request) ==> t.OwnerOf(driver).None? && s.RideOf(request).value.driver == driver;
  }

  /** The point of exclusivity: two live en-route rides share neither a driver nor a rider. */
  lemma EnRouteRidesAreDisjoint(s: Store, r1: Id, r2: Id)
    requires Exclusive(s) && s.EnRouteNow(r1) && s.EnRouteNow(r2) && r1 != r2
    ensures s.RideOf(r1).value.driver != s.RideOf(r2).value.driver
    ensures s.RideOf(r1).value.rider != s.RideOf(r2).value.rider
  {
    assert Held(s, r1) && Held(s, r2);
  }

  // ---- exact outcomes of the scripts on such stores ----

  /** CreateRide succeeds exactly when rider, request and driver are all free, and each refusal
      has one cause. */
  lemma CreateOutcome(config: Config, s: Store, ride: Assignment)
    requires Backed(s)
    ensures var code := CreateRide(config, s, ride).1;
            && (code == 0 <==> s.RequestOf(ride.rider).Some?)
            && (code == -1 <==> s.RequestOf(ride.rider).None? && s.RideOf(ride.request).Some?)
            && (code == -2 <==> s.RequestOf(ride.rider).None? && s.RideOf(ride.request).None?
                                && s.OwnerOf(ride.driver).Some?)
            && (code == 1 <==> s.RequestOf(ride.rider).None? && s.RideOf(ride.request).None?
                               && s.OwnerOf(ride.driver).None?)
  {
    assert RiderBacked(s, ride.rider) && OwnerBacked(s, ride.driver);
  }

  /** Of a live en-route ride only a foreign lock can stop a cancel that names the ride's own
      driver and rider. */
  lemma CancelOutcome(config: Config, s: Store, ride: Assignment)
    requires Exclusive(s)
    requires s.RideOf(ride.request) == Some(ride) && ride.status == EnRoute
    ensures var code := CancelRide(config, s, ride.request, ride.driver, ride.rider).1;
            && (code == 1 || code == -4)
            && (code == -4 <==> s.LockOf(ride.driver).Some? && s.LockOf(ride.driver).value != ride.request)
  {
    assert Held(s, ride.request);
  }

  lemma ArriveOutcome(config: Config, s: Store, ride: Assignment)
    requires Exclusive(s)
    requires s.RideOf(ride.request) == Some(ride) && ride.status == EnRoute
    ensures var code := ArriveRide(config, s, ride.request, ride.rider, ride.driver).1;
            && (code == 1 || code == -2)
            && (code == 1 <==> s.StatusOf(ride.driver) == Some(Busy))
  {
    assert Held(s, ride.request);
  }

  /** After a cancel nothing of the ride holds its rider or its driver back: any request ID
      without a record can be created for the same pair. */
  lemma CancelFreesBoth(config: Config, s: Store, ride: Assignment, next: Assignment)
    requires config.Valid()
    requires Exclusive(s)
    requires s.RideOf(ride.request) == Some(ride) && ride.status == EnRoute
    requires CancelRide(config, s, ride.request, ride.driver, ride.rider).1 == 1
    requires next.rider == ride.rider && next.driver == ride.driver
    requires s.RideOf(next.request).None?
    ensures var t := CancelRide(config, s, ride.request, ride.driver, ride.rider).0;
            && t.RequestOf(ride.rider).None? && t.OwnerOf(ride.driver).None? && t.LockOf(ride.driver).None?
            && t.RideOf(ride.request) == Some(ride.(status := Cancelled))
            && t.StatusOf(ride.driver) != Some(Busy)
            && CreateRide(config, t, next).1 == 1
            && CreateRide(config, t, next).0.RideOf(next.request) == Some(next.(status := EnRoute))
  {
    assert Held(s, ride.request);
  }

  /** The refresh script answers 1 exactly for a driver with a live durable owner, and then
      the driver is busy. */
  lemma RefreshOutcome(config: Config, s: Store, driver: Id)
    requires config.Valid() && Backed(s)
    ensures var (t, code) := RefreshDriver(config, s, driver);
            && (code == 1 <==> s.OwnerOf(driver).Some?)
            && (code == 1 ==> t.StatusOf(driver) == Some(Busy))
            && (code != 1 ==> code == 0 && t == s)
  {
    assert OwnerBacked(s, driver);
  }
}
