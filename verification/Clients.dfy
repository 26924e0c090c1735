/** Every request as a process: a state names the one command it is about to send, and `Resume`
    says where the Go code goes with the reply. Values read earlier stay in the state and may be
    stale by the time they are used. */
module Clients {
  import opened Keyspace

  /** A dispatch request. `rider` is absent for legacy requests; `pickup` defaults to `location`. */
  datatype Request = Request(id: Id, rider: Option<Id>, location: Position, pickup: Option<Position>)
  {
    function PickupPoint(): Position {
      if pickup.Some? then pickup.value else location
    }

    function RideWith(driver: Id): Assignment
      requires rider.Some?
    {
      Assignment(id, rider.value, driver, PickupPoint(), EnRoute)
    }
  }

  predicate ValidCoordinates(p: Position) {
    -180.0 <= p.longitude <= 180.0 && -90.0 <= p.latitude <= 90.0
  }

  datatype Outcome =
    | Assigned(driver: Id)
    | NoDrivers
    | ActiveRide
    | RequestExists
    | InvalidPickup
    | RideNotFound
    | StateConflict
    | OwnershipConflict
    | TooFar
    | NoPosition
    | DriverOffline
    | RedisFailure
    | CancelledRide(ride: Assignment)
    | ArrivedRide(ride: Assignment)
    | Done

  datatype Process =
    | Finished(outcome: Outcome)
      // FindAndAssign
    | FindActive(request: Request, nearby: seq<Id>)
    | FindActiveRide(request: Request, nearby: seq<Id>, active: Id)
    | FindStatuses(request: Request, nearby: seq<Id>)
      // tryAssignDriver on `driver`, with the candidates still to come
    | TakeLock(request: Request, driver: Id, rest: seq<Id>)
    | CheckOwner(request: Request, driver: Id, rest: seq<Id>)
    | ClaimDriver(request: Request, driver: Id, rest: seq<Id>)
    | RecordRide(request: Request, driver: Id, rest: seq<Id>)
    | SkipUnlock(request: Request, driver: Id, rest: seq<Id>)
    | ConflictUnlock(request: Request, driver: Id, rest: seq<Id>)
    | ConflictRefresh(request: Request, driver: Id, rest: seq<Id>)
    | ConflictRestore(request: Request, driver: Id, rest: seq<Id>)
    | FailUnlock(request: Request, driver: Id, outcome: Outcome)
    | RollbackUnlock(request: Request, driver: Id, outcome: Outcome)
    | RollbackRestore(request: Request, driver: Id, outcome: Outcome)
      // CancelAssignment
    | CancelRead(id: Id)
    | CancelSend(ride: Assignment)
      // ArriveAssignment
    | ArriveRead(id: Id)
    | ArriveLocate(ride: Assignment)
    | ArriveSend(ride: Assignment)
      // ResetRiderAssignment
    | ResetStart(rider: Id)
    | ResetRead(rider: Id, id: Id)
    | ResetClearRider(rider: Id, id: Id)
    | ResetCancelRead(rider: Id, ride: Assignment)
    | ResetCancelSend(rider: Id, ride: Assignment, copy: Assignment)
    | ResetClearBoth(rider: Id, ride: Assignment)
      // UpdateDriverLocation
    | LocationStore(driver: Id, position: Position)
    | LocationRefresh(driver: Id)
    | LocationHeartbeat(driver: Id)
    | LocationRevive(driver: Id)
      // single commands: REST status, heartbeat, demo lock clearing, lock extension
    | PutStatus(driver: Id, status: Option<DriverStatus>)
    | Beat(driver: Id)
    | FreeLocks(drivers: set<Id>)
    | Extend(driver: Id, id: Id)

  /** Only a request with a rider looks up, and records, a ride; giving up is not a success. */
  predicate WellFormed(c: Process) {
    && (c.RecordRide? || c.FindActive? || c.FindActiveRide? ==> c.request.rider.Some?)
    && (c.FailUnlock? || c.RollbackUnlock? || c.RollbackRestore? ==> !c.outcome.Assigned?)
  }

  type Client = c: Process | WellFormed(c) witness Finished(Done)

  // ---- where a request begins ----

  function StartFind(request: Request, nearby: seq<Id>): Client {
    if request.rider.Some? then FindActive(request, nearby) else StartSearch(request, nearby)
  }

  function StartSearch(request: Request, nearby: seq<Id>): Client {
    if nearby == [] then Finished(NoDrivers) else FindStatuses(request, nearby)
  }

  predicate Starts(c: Client) {
    match c
    case FindActive(_, _) => true
    case FindStatuses(request, nearby) => request.rider.None? && nearby != []
    case CancelRead(_) => true
    case ArriveRead(_) => true
    case ResetStart(_) => true
    case LocationStore(_, _) => true
    case PutStatus(_, _) => true
    case Beat(_) => true
    case FreeLocks(_) => true
    case Extend(_, _) => true
    case _ => false
  }

  /** The candidates the status snapshot leaves, nearest first. */
  function AvailableOnly(nearby: seq<Id>, statuses: seq<Option<DriverStatus>>): seq<Id> {
    if nearby == [] || statuses == [] then []
    else (if statuses[0] == Some(Available) then [nearby[0]] else []) + AvailableOnly(nearby[1..], statuses[1..])
  }

  function NextCandidate(request: Request, candidates: seq<Id>): Client {
    if candidates == [] then Finished(NoDrivers) else TakeLock(request, candidates[0], candidates[1..])
  }

  function AfterClaim(request: Request, driver: Id, rest: seq<Id>): Client {
    if request.rider.None? then Finished(Assigned(driver))
    else if !ValidCoordinates(request.PickupPoint()) then RollbackUnlock(request, driver, InvalidPickup)
    else RecordRide(request, driver, rest)
  }

  /** The command a state is about to send. */
  function Pending(c: Client): Command
    requires !c.Finished?
  {
    match c
    case FindActive(request, _) => RiderCmd(request.rider.value)
    case FindActiveRide(_, _, active) => RideCmd(active)
    case FindStatuses(_, nearby) => StatusesCmd(nearby)
    case TakeLock(request, driver, _) => LockCmd(driver, request.id)
    case CheckOwner(_, driver, _) => OwnerCmd(driver)
    case ClaimDriver(_, driver, _) => BusyCmd(driver)
    case RecordRide(request, driver, _) => CreateCmd(request.RideWith(driver))
    case SkipUnlock(request, driver, _) => UnlockCmd(driver, request.id)
    case ConflictUnlock(request, driver, _) => UnlockCmd(driver, request.id)
    case ConflictRefresh(_, driver, _) => RefreshCmd(driver)
    case ConflictRestore(_, driver, _) => StatusCmd(driver, Some(Available))
    case FailUnlock(request, driver, _) => UnlockCmd(driver, request.id)
    case RollbackUnlock(request, driver, _) => UnlockCmd(driver, request.id)
    case RollbackRestore(_, driver, _) => StatusCmd(driver, Some(Available))
    case CancelRead(id) => RideCmd(id)
    case CancelSend(ride) => CancelCmd(ride.request, ride.driver, ride.rider)
    case ArriveRead(id) => RideCmd(id)
    case ArriveLocate(ride) => WhereCmd(ride.driver)
    case ArriveSend(ride) => ArriveCmd(ride.request, ride.rider, ride.driver)
    case ResetStart(rider) => RiderCmd(rider)
    case ResetRead(_, id) => RideCmd(id)
    case ResetClearRider(rider, id) => ClearRiderCmd(rider, id)
    case ResetCancelRead(_, ride) => RideCmd(ride.request)
    case ResetCancelSend(_, _, copy) => CancelCmd(copy.request, copy.driver, copy.rider)
    case ResetClearBoth(rider, ride) => ClearResetCmd(rider, ride.driver, ride.request)
    case LocationStore(driver, position) => MoveCmd(driver, position)
    case LocationRefresh(driver) => RefreshCmd(driver)
    case LocationHeartbeat(driver) => HeartbeatCmd(driver)
    case LocationRevive(driver) => StatusCmd(driver, Some(Available))
    case PutStatus(driver, status) => StatusCmd(driver, status)
    case Beat(driver) => HeartbeatCmd(driver)
    case FreeLocks(drivers) => DeleteLocksCmd(drivers)
    case Extend(driver, id) => ExtendCmd(driver, id)
  }

  /** The outcome a refused or applied cancel script is reported as. */
  function CancelResult(code: int, ride: Assignment): Outcome {
    match code
    case 1 => CancelledRide(ride.(status := Cancelled))
    case 0 => StateConflict
    case -1 => RideNotFound
    case -2 => StateConflict
    case _ => OwnershipConflict
  }

  function ArriveResult(code: int, ride: Assignment): Outcome {
    match code
    case 1 => ArrivedRide(ride.(status := Arrived))
    case -1 => RideNotFound
    case _ => StateConflict
  }

  /** Control flow of a request after the reply to its pending command. */
  function Resume(config: Config, c: Client, reply: Reply): Client
    requires !c.Finished?
  {
    match c
    case FindActive(request, nearby) =>
      (match reply
       case Key(Some(active)) => FindActiveRide(request, nearby, active)
       case Key(None) => StartSearch(request, nearby)
       case _ => Finished(RedisFailure))
    case FindActiveRide(request, nearby, _) =>
      (match reply
       case Ride(Some(ride)) => if ride.Active() then Finished(ActiveRide) else StartSearch(request, nearby)
       case Ride(None) => StartSearch(request, nearby)
       case _ => Finished(RedisFailure))
    case FindStatuses(request, nearby) =>
      (match reply
       case Statuses(statuses) => NextCandidate(request, AvailableOnly(nearby, statuses))
       case _ => Finished(RedisFailure))
    case TakeLock(request, driver, rest) =>
      if reply == Code(1) then CheckOwner(request, driver, rest)
      else if reply == Error then Finished(RedisFailure)
      else NextCandidate(request, rest)
    case CheckOwner(request, driver, rest) =>
      if reply == Key(None) then ClaimDriver(request, driver, rest)
      else if reply == Error then FailUnlock(request, driver, RedisFailure)
      else SkipUnlock(request, driver, rest)
    case ClaimDriver(request, driver, rest) =>
      if reply == Code(1) then AfterClaim(request, driver, rest)
      else if reply == Error then FailUnlock(request, driver, RedisFailure)
      else SkipUnlock(request, driver, rest)
    case RecordRide(request, driver, rest) =>
      if reply == Code(1) then Finished(Assigned(driver))
      else if reply == Code(-2) then ConflictUnlock(request, driver, rest)
      else if reply == Code(0) then RollbackUnlock(request, driver, ActiveRide)
      else if reply == Code(-1) then RollbackUnlock(request, driver, RequestExists)
      else RollbackUnlock(request, driver, RedisFailure)
    case SkipUnlock(request, _, rest) => NextCandidate(request, rest)
    case ConflictUnlock(request, driver, rest) => ConflictRefresh(request, driver, rest)
    case ConflictRefresh(request, driver, rest) =>
      if reply == Code(1) then NextCandidate(request, rest)
      else if reply == Error then Finished(RedisFailure)
      else ConflictRestore(request, driver, rest)
    case ConflictRestore(request, _, rest) => NextCandidate(request, rest)
    case FailUnlock(_, _, outcome) => Finished(outcome)
    case RollbackUnlock(request, driver, outcome) =>
      if reply == Code(1) || reply == Code(-1) then RollbackRestore(request, driver, outcome)
      else Finished(outcome)
    case RollbackRestore(_, _, outcome) => Finished(outcome)
    case CancelRead(id) =>
      (match reply
       case Ride(Some(ride)) => if ride.status == EnRoute then CancelSend(ride) else Finished(StateConflict)
       case Ride(None) => Finished(RideNotFound)
       case _ => Finished(RedisFailure))
    case CancelSend(ride) =>
      if reply.Code? then Finished(CancelResult(reply.code, ride)) else Finished(RedisFailure)
    case ArriveRead(id) =>
      (match reply
       case Ride(Some(ride)) => if ride.status == EnRoute then ArriveLocate(ride) else Finished(StateConflict)
       case Ride(None) => Finished(RideNotFound)
       case _ => Finished(RedisFailure))
    case ArriveLocate(ride) =>
      (match reply
       case Where(Some(position)) =>
         if config.Near(position, ride.pickup) then ArriveSend(ride) else Finished(TooFar)
       case Where(None) => Finished(NoPosition)
       case _ => Finished(RedisFailure))
    case ArriveSend(ride) =>
      if reply.Code? then Finished(ArriveResult(reply.code, ride)) else Finished(RedisFailure)
    case ResetStart(rider) =>
      (match reply
       case Key(Some(id)) => ResetRead(rider, id)
       case Key(None) => Finished(Done)
       case _ => Finished(RedisFailure))
    case ResetRead(rider, id) =>
      (match reply
       case Ride(Some(ride)) =>
         if ride.status == EnRoute then ResetCancelRead(rider, ride) else ResetClearBoth(rider, ride)
       case Ride(None) => ResetClearRider(rider, id)
       case _ => Finished(RedisFailure))
    case ResetCancelRead(rider, ride) =>
      (match reply
       case Ride(Some(copy)) =>
         if copy.status == EnRoute then ResetCancelSend(rider, ride, copy) else ResetClearBoth(rider, ride)
       case Ride(None) => Finished(RideNotFound)
       case _ => Finished(RedisFailure))
    case ResetCancelSend(rider, ride, copy) =>
      if !reply.Code? then Finished(RedisFailure)
      else if CancelResult(reply.code, copy) == StateConflict then ResetClearBoth(rider, ride)
      else if reply.code == 1 then Finished(Done)
      else Finished(CancelResult(reply.code, copy))
    case ResetClearRider(_, _) => Finished(if reply == Error then RedisFailure else Done)
    case ResetClearBoth(_, _) => Finished(if reply == Error then RedisFailure else Done)
    case LocationStore(driver, _) =>
      if reply == Error then Finished(RedisFailure) else LocationRefresh(driver)
    case LocationRefresh(driver) =>
      if reply == Code(1) then Finished(Done)
      else if reply == Error then Finished(RedisFailure)
      else LocationHeartbeat(driver)
    case LocationHeartbeat(driver) =>
      if reply == Code(1) then Finished(Done)
      else if reply == Error then Finished(RedisFailure)
      else LocationRevive(driver)
    case LocationRevive(_) => Finished(if reply == Error then RedisFailure else Done)
    case Beat(_) =>
      if reply == Code(1) then Finished(Done)
      else if reply == Error then Finished(RedisFailure)
      else Finished(DriverOffline)
    case PutStatus(_, _) => Finished(if reply == Error then RedisFailure else Done)
    case FreeLocks(_) => Finished(if reply == Error then RedisFailure else Done)
    case Extend(_, _) => Finished(if reply == Error then RedisFailure else Done)
  }
}
