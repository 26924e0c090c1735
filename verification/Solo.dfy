/** The two descriptions of dispatch agree: the process of `Clients`, run alone against the store,
    ends with the outcome and the store that `Dispatched` specifies. */
module Solo {
  import opened Keyspace
  import K = Keyspace
  import opened Clients
  import opened Dispatcher
  import opened Ownership

  /** Every reply brings a process nearer to its end: candidates count ahead of program position. */
  function Rank(c: Client): nat {
    match c
    case Finished(_) => 0
    case FindActive(_, nearby) => 10 * |nearby| + 13
    case FindActiveRide(_, nearby, _) => 10 * |nearby| + 12
    case FindStatuses(_, nearby) => 10 * |nearby| + 11
    case TakeLock(_, _, rest) => 10 * |rest| + 10
    case CheckOwner(_, _, rest) => 10 * |rest| + 9
    case ClaimDriver(_, _, rest) => 10 * |rest| + 8
    case RecordRide(_, _, rest) => 10 * |rest| + 7
    case ConflictUnlock(_, _, rest) => 10 * |rest| + 6
    case ConflictRefresh(_, _, rest) => 10 * |rest| + 5
    case ConflictRestore(_, _, rest) => 10 * |rest| + 4
    case SkipUnlock(_, _, rest) => 10 * |rest| + 3
    case RollbackUnlock(_, _, _) => 2
    case RollbackRestore(_, _, _) => 1
    case FailUnlock(_, _, _) => 1
    case CancelRead(_) => 2
    case CancelSend(_) => 1
    case ArriveRead(_) => 3
    case ArriveLocate(_) => 2
    case ArriveSend(_) => 1
    case ResetStart(_) => 5
    case ResetRead(_, _) => 4
    case ResetCancelRead(_, _) => 3
    case ResetCancelSend(_, _, _) => 2
    case ResetClearRider(_, _) => 1
    case ResetClearBoth(_, _) => 1
    case LocationStore(_, _) => 4
    case LocationRefresh(_) => 3
    case LocationHeartbeat(_) => 2
    case LocationRevive(_) => 1
    case PutStatus(_, _) => 1
    case Beat(_) => 1
    case FreeLocks(_) => 1
    case Extend(_, _) => 1
  }

  lemma {:induction false} AvailableOnlyIsShorter(nearby: seq<Id>, statuses: seq<Option<DriverStatus>>)
    ensures |AvailableOnly(nearby, statuses)| <= |nearby|
  {
    if nearby != [] && statuses != [] {
      AvailableOnlyIsShorter(nearby[1..], statuses[1..]);
    }
  }

  /** Every request ends: no process can go on answering for ever, whatever the replies are. */
  lemma RankFalls(config: Config, c: Client, reply: Reply)
    requires !c.Finished?
    ensures Rank(Resume(config, c, reply)) < Rank(c)
  {
    if c.FindStatuses? && reply.Statuses? {
      AvailableOnlyIsShorter(c.nearby, reply.statuses);
    }
  }

  function Alone(config: Config, s: Store, c: Client): (Store, Outcome)
    decreases Rank(c)
  {
    if c.Finished? then (s, c.outcome)
    else
      RankFalls(config, c, Execute(config, s, Pending(c)).1);
      var (t, reply) := Execute(config, s, Pending(c));
      Alone(config, t, Resume(config, c, reply))
  }

  /** Dispatch over the candidates still to come, after the active-ride check. */
  function Tail(config: Config, s: Store, request: Request, todo: seq<Id>): (Store, Outcome) {
    var k := FirstEligible(s, todo);
    if k == |todo| then (s, NoDrivers) else Won(config, s, request, todo[k])
  }

  ghost predicate Agree(a: (Store, Outcome), b: (Store, Outcome)) {
    SameLive(a.0, b.0) && a.1 == b.1
  }

  lemma SameLiveTrans(a: Store, b: Store, c: Store)
    requires SameLive(a, b) && SameLive(b, c)
    ensures SameLive(a, c)
  {
    forall d ensures LiveEntry(c.locks, c.now, d) == LiveEntry(a.locks, a.now, d) {
      assert LiveEntry(b.locks, b.now, d) == LiveEntry(a.locks, a.now, d);
    }
  }

  lemma TailFromSameLive(config: Config, s: Store, t: Store, request: Request, todo: seq<Id>)
    requires SameLive(s, t)
    ensures Agree(Tail(config, s, request, todo), Tail(config, t, request, todo))
  {
    SameLiveLooksSame(s, t);
    SameFirst(s, t, todo);
    var k := FirstEligible(s, todo);
    if k < |todo| {
      WonFromSameLive(config, s, t, request, todo[k]);
    }
  }

  lemma {:induction false} SameFirst(s: Store, t: Store, todo: seq<Id>)
    requires forall d :: Eligible(t, d) == Eligible(s, d)
    ensures FirstEligible(t, todo) == FirstEligible(s, todo)
  {
    if todo != [] {
      SameFirst(s, t, todo[1..]);
    }
  }

  // ---- one command at a time ----

  lemma LockStep(config: Config, s: Store, request: Request, driver: Id, rest: seq<Id>)
    ensures Alone(config, s, TakeLock(request, driver, rest)) ==
            if s.LockOf(driver).Some? then Alone(config, s, NextCandidate(request, rest))
            else Alone(config, SetLockIfAbsent(config, s, driver, request.id).0, CheckOwner(request, driver, rest))
  {
  }

  lemma OwnerStep(config: Config, s: Store, request: Request, driver: Id, rest: seq<Id>)
    ensures Alone(config, s, CheckOwner(request, driver, rest)) ==
            if s.OwnerOf(driver).None? then Alone(config, s, ClaimDriver(request, driver, rest))
            else Alone(config, s, SkipUnlock(request, driver, rest))
  {
  }

  lemma ClaimStep(config: Config, s: Store, request: Request, driver: Id, rest: seq<Id>)
    ensures Alone(config, s, ClaimDriver(request, driver, rest)) ==
            if s.StatusOf(driver) == Some(Available)
            then Alone(config, SetBusy(config, s, driver).0, AfterClaim(request, driver, rest))
            else Alone(config, s, SkipUnlock(request, driver, rest))
  {
  }

  lemma SkipStep(config: Config, s: Store, request: Request, driver: Id, rest: seq<Id>)
    ensures Alone(config, s, SkipUnlock(request, driver, rest))
         == Alone(config, Unlock(s, driver, request.id).0, NextCandidate(request, rest))
  {
  }

  lemma RecordStep(config: Config, s: Store, request: Request, driver: Id, rest: seq<Id>)
    requires request.rider.Some?
    ensures var (t, code) := CreateRide(config, s, request.RideWith(driver));
            var end := Alone(config, s, RecordRide(request, driver, rest));
            && (code == 1 ==> end == (t, Assigned(driver)))
            && (code == 0 ==> end == Alone(config, t, RollbackUnlock(request, driver, ActiveRide)))
            && (code == -1 ==> end == Alone(config, t, RollbackUnlock(request, driver, RequestExists)))
  {
  }

  lemma RestoreStep(config: Config, s: Store, request: Request, driver: Id, outcome: Outcome)
    requires !outcome.Assigned?
    ensures Alone(config, s, RollbackRestore(request, driver, outcome))
         == (SetStatus(config, s, driver, Some(Available)), outcome)
  {
  }

  lemma RollbackStep(config: Config, s: Store, request: Request, driver: Id, outcome: Outcome)
    requires !outcome.Assigned? && s.LockOf(driver) == Some(request.id)
    ensures Alone(config, s, RollbackUnlock(request, driver, outcome))
         == Alone(config, Unlock(s, driver, request.id).0, RollbackRestore(request, driver, outcome))
  {
  }

  // ---- one candidate at a time ----

  /** A candidate that is not eligible is skipped with the store looking the same. */
  lemma SkipAlone(config: Config, s: Store, request: Request, driver: Id, rest: seq<Id>) returns (t: Store)
    requires config.Valid() && !Eligible(s, driver)
    ensures SameLive(s, t)
    ensures Alone(config, s, TakeLock(request, driver, rest)) == Alone(config, t, NextCandidate(request, rest))
  {
    LockStep(config, s, request, driver, rest);
    if s.LockOf(driver).Some? {
      t := s;
    } else {
      LockThenUnlock(config, s, driver, request.id);
      t := s.(locks := s.locks - {driver});
      var u := SetLockIfAbsent(config, s, driver, request.id).0;
      assert u.OwnerOf(driver) == s.OwnerOf(driver) && u.StatusOf(driver) == s.StatusOf(driver);
      OwnerStep(config, u, request, driver, rest);
      ClaimStep(config, u, request, driver, rest);
      SkipStep(config, u, request, driver, rest);
    }
  }

  lemma RollbackAlone(config: Config, s: Store, request: Request, driver: Id, outcome: Outcome)
    requires config.Valid() && !outcome.Assigned?
    ensures Alone(config, Claimed(config, s, request, driver), RollbackUnlock(request, driver, outcome))
         == (RolledBack(config, s, driver), outcome)
  {
    ClaimThenRelease(config, s, request, driver);
    var u := Claimed(config, s, request, driver);
    RollbackStep(config, u, request, driver, outcome);
    RestoreStep(config, Unlock(u, driver, request.id).0, request, driver, outcome);
  }

  lemma ClaimAlone(config: Config, s: Store, request: Request, driver: Id, rest: seq<Id>)
    requires Eligible(s, driver)
    ensures Alone(config, s, TakeLock(request, driver, rest))
         == Alone(config, Claimed(config, s, request, driver), AfterClaim(request, driver, rest))
  {
    var u := SetLockIfAbsent(config, s, driver, request.id).0;
    LockStep(config, s, request, driver, rest);
    OwnerStep(config, u, request, driver, rest);
    ClaimStep(config, u, request, driver, rest);
    assert u.OwnerOf(driver) == s.OwnerOf(driver) && u.StatusOf(driver) == s.StatusOf(driver);
    assert SetBusy(config, u, driver) == (Claimed(config, s, request, driver), 1);
  }

  lemma WinAlone(config: Config, s: Store, request: Request, driver: Id, rest: seq<Id>)
    requires config.Valid() && Eligible(s, driver)
    ensures Alone(config, s, TakeLock(request, driver, rest)) == Won(config, s, request, driver)
  {
    ClaimAlone(config, s, request, driver, rest);
    if request.rider.Some? {
      if !ValidCoordinates(request.PickupPoint()) {
        RollbackAlone(config, s, request, driver, InvalidPickup);
      } else {
        CreateAfterClaim(config, s, request, driver);
        RecordStep(config, Claimed(config, s, request, driver), request, driver, rest);
        RollbackAlone(config, s, request, driver, ActiveRide);
        RollbackAlone(config, s, request, driver, RequestExists);
      }
    }
  }

  lemma {:induction false} TailAlone(config: Config, s: Store, request: Request, todo: seq<Id>)
    requires config.Valid()
    ensures Agree(Tail(config, s, request, todo), Alone(config, s, NextCandidate(request, todo)))
    decreases |todo|
  {
    if todo != [] {
      if Eligible(s, todo[0]) {
        WinAlone(config, s, request, todo[0], todo[1..]);
      } else {
        var t := SkipAlone(config, s, request, todo[0], todo[1..]);
        TailAlone(config, t, request, todo[1..]);
        TailFromSameLive(config, s, t, request, todo[1..]);
        SameLiveTrans(Tail(config, s, request, todo[1..]).0, Tail(config, t, request, todo[1..]).0,
                      Alone(config, t, NextCandidate(request, todo[1..])).0);
        assert Tail(config, s, request, todo) == Tail(config, s, request, todo[1..]);
      }
    }
  }

  /** The snapshot only drops candidates that are not eligible. */
  lemma {:induction false} SnapshotKeepsTail(
    config: Config, s: Store, request: Request, nearby: seq<Id>, statuses: seq<Option<DriverStatus>>)
    requires |statuses| == |nearby| && forall i :: 0 <= i < |nearby| ==> statuses[i] == s.StatusOf(nearby[i])
    ensures Tail(config, s, request, AvailableOnly(nearby, statuses)) == Tail(config, s, request, nearby)
  {
    if nearby != [] {
      SnapshotKeepsTail(config, s, request, nearby[1..], statuses[1..]);
      var rest := AvailableOnly(nearby[1..], statuses[1..]);
      if statuses[0] == Some(Available) {
        assert AvailableOnly(nearby, statuses) == [nearby[0]] + rest && ([nearby[0]] + rest)[1..] == rest;
      } else {
        assert AvailableOnly(nearby, statuses) == rest;
      }
    }
  }

  lemma SearchAlone(config: Config, s: Store, request: Request, nearby: seq<Id>)
    requires config.Valid()
    ensures Agree(Tail(config, s, request, nearby), Alone(config, s, StartSearch(request, nearby)))
  {
    if nearby != [] {
      var reply := Execute(config, s, StatusesCmd(nearby)).1;
      SnapshotKeepsTail(config, s, request, nearby, reply.statuses);
      TailAlone(config, s, request, AvailableOnly(nearby, reply.statuses));
    }
  }

  /** The active-ride check ends the request or leads on to the search. */
  lemma ActiveAlone(config: Config, s: Store, request: Request, nearby: seq<Id>)
    requires request.rider.Some?
    ensures Alone(config, s, FindActive(request, nearby)) ==
            if Engaged(s, request.rider.value) then (s, ActiveRide) else Alone(config, s, StartSearch(request, nearby))
  {
    if s.RequestOf(request.rider.value).Some? {
      var active := s.RequestOf(request.rider.value).value;
      ActiveRideStep(config, s, request, nearby, active);
    }
  }

  lemma ActiveRideStep(config: Config, s: Store, request: Request, nearby: seq<Id>, active: Id)
    requires request.rider.Some?
    ensures Alone(config, s, FindActiveRide(request, nearby, active)) ==
            if s.RideOf(active).Some? && s.RideOf(active).value.Active() then (s, ActiveRide)
            else Alone(config, s, StartSearch(request, nearby))
  {
  }

  /** Run alone, the FindAndAssign process does what the specification says. */
  lemma DispatchAlone(config: Config, s: Store, request: Request, nearby: seq<Id>)
    requires config.Valid()
    ensures Agree(Dispatched(config, s, request, nearby), Alone(config, s, StartFind(request, nearby)))
  {
    SearchAlone(config, s, request, nearby);
    if request.rider.Some? {
      ActiveAlone(config, s, request, nearby);
    }
  }

  // ---- the other requests ----

  /** Run alone, the process of CancelAssignment does what the specification says. */
  lemma CancelAlone(config: Config, s: Store, id: Id)
    requires Keyed(s)
    ensures Alone(config, s, CancelRead(id)) == Cancelling(config, s, id)
  {
    if s.RideOf(id).Some? {
      var ride := s.RideOf(id).value;
      var (t, code) := CancelRide(config, s, id, ride.driver, ride.rider);
      assert Alone(config, t, Finished(CancelResult(code, ride))) == (t, CancelResult(code, ride));
      assert Alone(config, s, CancelSend(ride)) == (t, CancelResult(code, ride));
    }
  }

  lemma ArriveAlone(config: Config, s: Store, id: Id)
    requires Keyed(s)
    ensures Alone(config, s, ArriveRead(id)) == Arriving(config, s, id)
  {
    if s.RideOf(id).Some? {
      var ride := s.RideOf(id).value;
      LocateThenArrive(config, s, ride);
    }
  }

  lemma LocateThenArrive(config: Config, s: Store, ride: Assignment)
    ensures Alone(config, s, ArriveLocate(ride)) ==
            if ride.driver !in s.positions then (s, NoPosition)
            else if !config.Near(s.positions[ride.driver], ride.pickup) then (s, TooFar)
            else
              var (t, code) := ArriveRide(config, s, ride.request, ride.rider, ride.driver);
              (t, ArriveResult(code, ride))
  {
    var (t, code) := ArriveRide(config, s, ride.request, ride.rider, ride.driver);
    assert Alone(config, t, Finished(ArriveResult(code, ride))) == (t, ArriveResult(code, ride));
    assert Alone(config, s, ArriveSend(ride)) == (t, ArriveResult(code, ride));
  }

  lemma ResetAlone(config: Config, s: Store, rider: Id)
    requires Keyed(s)
    ensures Alone(config, s, ResetStart(rider)) == Resetting(config, s, rider)
  {
    ResetStartAlone(config, s, rider);
    if s.RequestOf(rider).Some? {
      var id := s.RequestOf(rider).value;
      ResetReadAlone(config, s, rider, id);
      match s.RideOf(id)
      case None => ResetClearRiderAlone(config, s, rider, id);
      case Some(ride) =>
        if ride.status == EnRoute {
          ResetCancelAlone(config, s, rider, ride);
        } else {
          ResetClearAlone(config, s, rider, ride);
        }
    }
  }

  lemma ResetStartAlone(config: Config, s: Store, rider: Id)
    ensures Alone(config, s, ResetStart(rider)) ==
            if s.RequestOf(rider).None? then (s, Done)
            else Alone(config, s, ResetRead(rider, s.RequestOf(rider).value))
  {
  }

  lemma ResetReadAlone(config: Config, s: Store, rider: Id, id: Id)
    ensures Alone(config, s, ResetRead(rider, id)) ==
            match s.RideOf(id)
            case None => Alone(config, s, ResetClearRider(rider, id))
            case Some(ride) =>
              if ride.status == EnRoute then Alone(config, s, ResetCancelRead(rider, ride))
              else Alone(config, s, ResetClearBoth(rider, ride))
  {
  }

  lemma ResetClearRiderAlone(config: Config, s: Store, rider: Id, id: Id)
    ensures Alone(config, s, ResetClearRider(rider, id)) == (ClearRider(s, rider, id), Done)
  {
  }

  lemma ResetClearAlone(config: Config, s: Store, rider: Id, ride: Assignment)
    ensures Alone(config, s, ResetClearBoth(rider, ride)) == (ClearReset(s, rider, ride.driver, ride.request), Done)
  {
  }

  lemma ResetCancelAlone(config: Config, s: Store, rider: Id, ride: Assignment)
    requires s.RideOf(ride.request) == Some(ride) && ride.status == EnRoute
    ensures var (t, outcome) := Cancelling(config, s, ride.request);
            Alone(config, s, ResetCancelRead(rider, ride)) == (t, if outcome.CancelledRide? then Done else outcome)
  {
    CancellingMeans(config, s, ride.request);
    ResetCancelSendAlone(config, s, rider, ride);
  }

  lemma ResetCancelSendAlone(config: Config, s: Store, rider: Id, ride: Assignment)
    requires s.RideOf(ride.request) == Some(ride) && ride.status == EnRoute
    ensures var (t, code) := CancelRide(config, s, ride.request, ride.driver, ride.rider);
            Alone(config, s, ResetCancelSend(rider, ride, ride))
            == (t, if code == 1 then Done else OwnershipConflict)
  {
    var (t, code) := CancelRide(config, s, ride.request, ride.driver, ride.rider);
    assert code == 1 || code == -3 || code == -4;
  }

  /** UpdateDriverLocation: the store is written out, for any store with sound ownership. */
  lemma LocationAlone(config: Config, s: Store, driver: Id, position: Position)
    requires Backed(s)
    ensures var status := if s.OwnerOf(driver).Some? then Busy
                          else if s.StatusOf(driver).None? then Available
                          else s.StatusOf(driver).value;
            Alone(config, s, LocationStore(driver, position))
            == (s.(positions := s.positions[driver := position],
                statuses := s.statuses[driver := Entry(status, s.now + config.statusTTL)]), Done)
  {
    LocatingMeans(config, s, driver, position);
    LocationMeets(config, s, driver, position);
  }

  lemma LocationMeets(config: Config, s: Store, driver: Id, position: Position)
    ensures Alone(config, s, LocationStore(driver, position)) == (Locating(config, s, driver, position), Done)
  {
    var t := s.(positions := s.positions[driver := position]);
    var u := RefreshDriver(config, t, driver).0;
    LocationStoreAlone(config, s, driver, position);
    LocationRefreshAlone(config, t, driver);
    LocationHeartbeatAlone(config, u, driver);
    LocationReviveAlone(config, Heartbeat(config, u, driver).0, driver);
  }

  lemma LocationRefreshAlone(config: Config, s: Store, driver: Id)
    ensures Alone(config, s, LocationRefresh(driver)) ==
            var (u, owned) := RefreshDriver(config, s, driver);
            if owned == 1 then (u, Done) else Alone(config, u, LocationHeartbeat(driver))
  {
  }

  lemma LocationHeartbeatAlone(config: Config, s: Store, driver: Id)
    ensures Alone(config, s, LocationHeartbeat(driver)) ==
            var (v, alive) := Heartbeat(config, s, driver);
            if alive == 1 then (v, Done) else Alone(config, v, LocationRevive(driver))
  {
  }

  lemma LocationReviveAlone(config: Config, s: Store, driver: Id)
    ensures Alone(config, s, LocationRevive(driver)) == (SetStatus(config, s, driver, Some(Available)), Done)
  {
  }

  lemma LocationStoreAlone(config: Config, s: Store, driver: Id, position: Position)
    ensures Alone(config, s, LocationStore(driver, position))
         == Alone(config, s.(positions := s.positions[driver := position]), LocationRefresh(driver))
  {
  }

  /** The requests of one command each: a status by REST, the demo's lock clearing, a lock extension. */
  lemma PutStatusAlone(config: Config, s: Store, driver: Id, status: DriverStatus)
    ensures Alone(config, s, PutStatus(driver, Some(status)))
         == (s.(statuses := s.statuses[driver := Entry(status, s.now + config.statusTTL)]), Done)
  {
    var t := s.(statuses := s.statuses[driver := Entry(status, s.now + config.statusTTL)]);
    assert Execute(config, s, StatusCmd(driver, Some(status))) == (t, Code(1));
    assert Resume(config, PutStatus(driver, Some(status)), Code(1)) == Finished(Done);
    assert Alone(config, t, Finished(Done)) == (t, Done);
  }

  lemma PutOfflineAlone(config: Config, s: Store, driver: Id)
    ensures Alone(config, s, PutStatus(driver, None)) == (s.(statuses := s.statuses - {driver}), Done)
  {
  }

  lemma FreeLocksAlone(config: Config, s: Store, drivers: set<Id>)
    ensures Alone(config, s, FreeLocks(drivers)) == (s.(locks := s.locks - drivers), Done)
  {
  }

  lemma ExtendAlone(config: Config, s: Store, driver: Id, id: Id)
    ensures Alone(config, s, Extend(driver, id))
         == (if s.LockOf(driver) == Some(id)
             then s.(locks := s.locks[driver := Entry(id, s.now + config.lockTTL)])
             else s, Done)
  {
  }

  lemma BeatAlone(config: Config, s: Store, driver: Id)
    ensures Alone(config, s, Beat(driver))
         == if s.StatusOf(driver).None? then (s, DriverOffline)
            else
              var status := s.StatusOf(driver).value;
              (s.(statuses := s.statuses[driver := Entry(status, s.now + config.statusTTL)]), Done)
  {
  }

  // ---- copies read earlier, and rides settled meanwhile ----

  /** A cancel with a copy of any age, from here on alone. */
  lemma LateCancel(config: Config, s: Store, copy: Assignment)
    ensures var (t, outcome) := Alone(config, s, CancelSend(copy));
            var ride := s.RideOf(copy.request);
            var changed := ride.Some? && (ride.value.status != EnRoute
                                          || ride.value.driver != copy.driver || ride.value.rider != copy.rider);
            var protected := || s.OwnerOf(copy.driver) != Some(copy.request)
                             || (s.LockOf(copy.driver).Some? && s.LockOf(copy.driver).value != copy.request);
            && outcome == (if ride.None? then RideNotFound
                           else if changed then StateConflict
                           else if protected then OwnershipConflict
                           else CancelledRide(copy.(status := Cancelled)))
            && (!outcome.CancelledRide? ==> t == s)
            && (outcome.CancelledRide? ==> t == CancelRide(config, s, copy.request, copy.driver, copy.rider).0)
  {
    var (t, code) := CancelRide(config, s, copy.request, copy.driver, copy.rider);
    assert Alone(config, t, Finished(CancelResult(code, copy))) == (t, CancelResult(code, copy));
  }

  lemma LateArrive(config: Config, s: Store, copy: Assignment)
    ensures var (t, outcome) := Alone(config, s, ArriveSend(copy));
            var held := && s.RequestOf(copy.rider) == Some(copy.request) && s.OwnerOf(copy.driver) == Some(copy.request)
                        && s.StatusOf(copy.driver) == Some(Busy);
            && outcome == (if s.RideOf(copy.request).None? then RideNotFound
                           else if !s.EnRouteNow(copy.request) || !held then StateConflict
                           else ArrivedRide(copy.(status := Arrived)))
            && (!outcome.ArrivedRide? ==> t == s)
            && (outcome.ArrivedRide? ==> t == ArriveRide(config, s, copy.request, copy.rider, copy.driver).0)
  {
    var (t, code) := ArriveRide(config, s, copy.request, copy.rider, copy.driver);
    assert Alone(config, t, Finished(ArriveResult(code, copy))) == (t, ArriveResult(code, copy));
  }

  /** A reset whose ride was settled since goes on to clear the pointers. */
  lemma LateReset(config: Config, s: Store, rider: Id, ride: Assignment, copy: Assignment)
    ensures var now := s.RideOf(copy.request);
            var changed := now.Some? && (now.value.status != EnRoute
                                         || now.value.driver != copy.driver || now.value.rider != copy.rider);
            var protected := || s.OwnerOf(copy.driver) != Some(copy.request)
                             || (s.LockOf(copy.driver).Some? && s.LockOf(copy.driver).value != copy.request);
            Alone(config, s, ResetCancelSend(rider, ride, copy))
            == if now.None? then (s, RideNotFound)
            else if changed then (ClearReset(s, rider, ride.driver, ride.request), Done)
            else if protected then (s, OwnershipConflict)
            else (CancelRide(config, s, copy.request, copy.driver, copy.rider).0, Done)
  {
    ResetClearAlone(config, s, rider, ride);
    var (t, code) := CancelRide(config, s, copy.request, copy.driver, copy.rider);
    assert code != 1 ==> t == s;
  }

  lemma LateResetRead(config: Config, s: Store, rider: Id, ride: Assignment)
    ensures Alone(config, s, ResetCancelRead(rider, ride))
         == match s.RideOf(ride.request)
            case None => (s, RideNotFound)
            case Some(copy) =>
              if copy.status != EnRoute then (ClearReset(s, rider, ride.driver, ride.request), Done)
              else Alone(config, s, ResetCancelSend(rider, ride, copy))
  {
    ResetClearAlone(config, s, rider, ride);
  }

  /** A claim that finds its driver taken by another ride gives its lock back and leaves the driver
      busy for that ride, or available if the owner is gone again; then the next candidate is tried. */
  lemma ConflictAlone(config: Config, s: Store, request: Request, driver: Id, rest: seq<Id>) returns (t: Store)
    requires Backed(s)
    ensures var status := if s.OwnerOf(driver).Some? then Busy else Available;
            t == s.(locks := if s.LockOf(driver) == Some(request.id) then s.locks - {driver} else s.locks,
            statuses := s.statuses[driver := Entry(status, s.now + config.statusTTL)])
    ensures Alone(config, s, ConflictUnlock(request, driver, rest)) == Alone(config, t, NextCandidate(request, rest))
  {
    var u := Unlock(s, driver, request.id).0;
    var (v, owned) := RefreshDriver(config, u, driver);
    t := if owned == 1 then v else SetStatus(config, v, driver, Some(Available));
    ConflictUnlockStep(config, s, request, driver, rest);
    ConflictRefreshStep(config, u, request, driver, rest);
    UnlockThenRefresh(config, s, request.id, driver);
  }

  lemma UnlockThenRefresh(config: Config, s: Store, id: Id, driver: Id)
    requires Backed(s)
    ensures var u := Unlock(s, driver, id).0;
            var (v, owned) := RefreshDriver(config, u, driver);
            var status := if s.OwnerOf(driver).Some? then Busy else Available;
            (if owned == 1 then v else SetStatus(config, v, driver, Some(Available)))
            == s.(locks := if s.LockOf(driver) == Some(id) then s.locks - {driver} else s.locks,
            statuses := s.statuses[driver := Entry(status, s.now + config.statusTTL)])
  {
    var u := Unlock(s, driver, id).0;
    assert u == s.(locks := u.locks);
    SameRidesKeep(s, u);
    assert OwnerBacked(u, driver) && u.OwnerOf(driver) == s.OwnerOf(driver);
  }

  lemma ConflictUnlockStep(config: Config, s: Store, request: Request, driver: Id, rest: seq<Id>)
    ensures Alone(config, s, ConflictUnlock(request, driver, rest))
         == Alone(config, Unlock(s, driver, request.id).0, ConflictRefresh(request, driver, rest))
  {
  }

  lemma ConflictRefreshStep(config: Config, s: Store, request: Request, driver: Id, rest: seq<Id>)
    ensures Alone(config, s, ConflictRefresh(request, driver, rest)) ==
            var (t, owned) := RefreshDriver(config, s, driver);
            if owned == 1 then Alone(config, t, NextCandidate(request, rest))
            else Alone(config, SetStatus(config, t, driver, Some(Available)), NextCandidate(request, rest))
  {
    var t := RefreshDriver(config, s, driver).0;
    assert Alone(config, t, ConflictRestore(request, driver, rest))
        == Alone(config, SetStatus(config, t, driver, Some(Available)), NextCandidate(request, rest));
  }

  lemma RecordConflict(config: Config, s: Store, request: Request, driver: Id, rest: seq<Id>)
    requires request.rider.Some? && CreateRide(config, s, request.RideWith(driver)).1 == -2
    ensures Alone(config, s, RecordRide(request, driver, rest))
         == Alone(config, s, ConflictUnlock(request, driver, rest))
  {
  }

  // ---- a Redis error on the way ----

  /** Between taking the lock and claiming the driver, an error gives the lock back and is what the
      caller is told. */
  lemma FailureReleases(config: Config, s: Store, c: Client)
    requires c.CheckOwner? || c.ClaimDriver?
    ensures var locks := if s.LockOf(c.driver) == Some(c.request.id) then s.locks - {c.driver} else s.locks;
            Alone(config, s, Resume(config, c, Error)) == (s.(locks := locks), RedisFailure)
  {
    FailUnlockAlone(config, s, c.request, c.driver);
  }

  /** An error of the create script also sets the driver available again, unless its lock has passed
      to another request. */
  lemma RecordFailureReleases(config: Config, s: Store, c: Client)
    requires c.RecordRide?
    ensures var (t, outcome) := Alone(config, s, Resume(config, c, Error));
            && outcome == RedisFailure
            && t == if s.LockOf(c.driver).None? || s.LockOf(c.driver) == Some(c.request.id)
                    then s.(locks := if s.LockOf(c.driver).Some? then s.locks - {c.driver} else s.locks,
                            statuses := s.statuses[c.driver := Entry(Available, s.now + config.statusTTL)])
                    else s
  {
    RollbackAfterError(config, s, c.request, c.driver);
  }

  lemma RollbackAfterError(config: Config, s: Store, request: Request, driver: Id)
    ensures var u := Unlock(s, driver, request.id).0;
            Alone(config, s, RollbackUnlock(request, driver, RedisFailure))
            == (if s.LockOf(driver).None? || s.LockOf(driver) == Some(request.id)
                then SetStatus(config, u, driver, Some(Available))
                else u, RedisFailure)
  {
    RestoreStep(config, Unlock(s, driver, request.id).0, request, driver, RedisFailure);
  }

  lemma FailUnlockAlone(config: Config, s: Store, request: Request, driver: Id)
    ensures Alone(config, s, FailUnlock(request, driver, RedisFailure))
         == (Unlock(s, driver, request.id).0, RedisFailure)
  {
  }

  /** Elsewhere a request gives up at once, or was giving up or moving on anyway. */
  lemma FailureElsewhere(config: Config, c: Client)
    requires !c.Finished? && !c.CheckOwner? && !c.ClaimDriver? && !c.RecordRide?
    ensures var next := Resume(config, c, Error);
            if c.FailUnlock? || c.RollbackUnlock? || c.RollbackRestore? then next == Finished(c.outcome)
            else if c.SkipUnlock? || c.ConflictRestore? then next == NextCandidate(c.request, c.rest)
            else if c.ConflictUnlock? then next == ConflictRefresh(c.request, c.driver, c.rest)
            else next == Finished(RedisFailure)
  {
  }
}
