/** The Redis keys behind ride assignment: five tables of keys with a deadline each, and the
    driver positions. Every script and command the service sends is a function of the store.
    A key is live while `now < deadline`; a dead key reads as missing. */
module Keyspace {

  type Id = string

  datatype Option<+T> = None | Some(value: T)

  datatype Entry<+T> = Entry(value: T, deadline: int)

  datatype DriverStatus = Available | Busy

  datatype RideStatus = EnRoute | Arrived | Cancelled

  datatype Position = Position(longitude: real, latitude: real)

  datatype Assignment = Assignment(request: Id, rider: Id, driver: Id, pickup: Position, status: RideStatus)
  {
    predicate Active() {
      status != Cancelled
    }
  }

  /** Key lifetimes, the arrival threshold and the distance it is measured with. */
  datatype Config = Config(
    lockTTL: nat, statusTTL: nat, rideTTL: nat,
    threshold: real, distance: (Position, Position) -> real)
  {
    predicate Valid() {
      lockTTL >= 1 && statusTTL >= 1 && rideTTL >= 1
    }

    predicate Near(here: Position, pickup: Position) {
      !(distance(here, pickup) > threshold)
    }
  }

  function Lookup<T>(table: map<Id, Entry<T>>, now: int, key: Id): Option<T> {
    if key in table && now < table[key].deadline then Some(table[key].value) else None
  }

  /** EXPIRE: a live key gets a new deadline, a missing one stays missing. */
  function Touch<T>(table: map<Id, Entry<T>>, now: int, key: Id, ttl: nat): map<Id, Entry<T>> {
    if key in table && now < table[key].deadline
    then table[key := Entry(table[key].value, now + ttl)]
    else table
  }

  datatype Store = Store(
    now: int,
    locks: map<Id, Entry<Id>>,
    statuses: map<Id, Entry<DriverStatus>>,
    rides: map<Id, Entry<Assignment>>,
    riderActive: map<Id, Entry<Id>>,
    driverActive: map<Id, Entry<Id>>,
    positions: map<Id, Position>)
  {
    function LockOf(driver: Id): Option<Id> { Lookup(locks, now, driver) }

    function StatusOf(driver: Id): Option<DriverStatus> { Lookup(statuses, now, driver) }

    function RideOf(request: Id): Option<Assignment> { Lookup(rides, now, request) }

    function RequestOf(rider: Id): Option<Id> { Lookup(riderActive, now, rider) }

    function OwnerOf(driver: Id): Option<Id> { Lookup(driverActive, now, driver) }

    predicate EnRouteNow(request: Id) {
      RideOf(request).Some? && RideOf(request).value.status == EnRoute
    }
  }

  const EMPTY := Store(0, map[], map[], map[], map[], map[], map[])

  // ---- locks (lock.go) ----

  function SetLockIfAbsent(config: Config, s: Store, driver: Id, request: Id): (Store, int) {
    if s.LockOf(driver).Some? then (s, 0)
    else (s.(locks := s.locks[driver := Entry(request, s.now + config.lockTTL)]), 1)
  }

  function Unlock(s: Store, driver: Id, request: Id): (Store, int) {
    if s.LockOf(driver) == Some(request) then (s.(locks := s.locks - {driver}), 1)
    else if s.LockOf(driver).None? then (s, -1)
    else (s, 0)
  }

  function ExtendLock(config: Config, s: Store, driver: Id, request: Id): (Store, int) {
    if s.LockOf(driver) == Some(request)
    then (s.(locks := Touch(s.locks, s.now, driver, config.lockTTL)), 1)
    else (s, 0)
  }

  /** The lock-clearing half of the demo lease script. */
  function DeleteLocks(s: Store, drivers: set<Id>): Store {
    s.(locks := s.locks - drivers)
  }

  // ---- driver statuses (driver.go) ----

  function SetBusy(config: Config, s: Store, driver: Id): (Store, int) {
    match s.StatusOf(driver)
    case Some(Available) => (s.(statuses := s.statuses[driver := Entry(Busy, s.now + config.statusTTL)]), 1)
    case None => (s, -1)
    case Some(Busy) => (s, 0)
  }

  /** SetStatus: going offline (`None`) deletes the key. */
  function SetStatus(config: Config, s: Store, driver: Id, status: Option<DriverStatus>): Store {
    match status
    case None => s.(statuses := s.statuses - {driver})
    case Some(value) => s.(statuses := s.statuses[driver := Entry(value, s.now + config.statusTTL)])
  }

  function Heartbeat(config: Config, s: Store, driver: Id): (Store, int) {
    (s.(statuses := Touch(s.statuses, s.now, driver, config.statusTTL)),
     if s.StatusOf(driver).Some? then 1 else 0)
  }

  // ---- rides (lifecycle.go) ----

  predicate Engaged(s: Store, rider: Id) {
    s.RequestOf(rider).Some?
    && s.RideOf(s.RequestOf(rider).value).Some?
    && s.RideOf(s.RequestOf(rider).value).value.Active()
  }

  function CreateRide(config: Config, s: Store, ride: Assignment): (Store, int) {
    if Engaged(s, ride.rider) then (s, 0)
    else if s.RideOf(ride.request).Some? then (s, -1)
    else if s.OwnerOf(ride.driver).Some? && s.OwnerOf(ride.driver) != Some(ride.request) then (s, -2)
    else
      var deadline := s.now + config.rideTTL;
      (s.(rides := s.rides[ride.request := Entry(ride.(status := EnRoute), deadline)],
       riderActive := s.riderActive[ride.rider := Entry(ride.request, deadline)],
       driverActive := s.driverActive[ride.driver := Entry(ride.request, deadline)]),
       1)
  }

  function CancelRide(config: Config, s: Store, request: Id, driver: Id, rider: Id): (Store, int) {
    match s.RideOf(request)
    case None => (s, -1)
    case Some(ride) =>
      if ride.status != EnRoute then (s, 0)
      else if ride.driver != driver || ride.rider != rider then (s, -2)
      else if s.OwnerOf(driver) != Some(request) then (s, -3)
      else if s.LockOf(driver).Some? && s.LockOf(driver) != Some(request) then (s, -4)
      else
        (s.(statuses := if s.StatusOf(driver) == Some(Busy)
         then s.statuses[driver := Entry(Available, s.now + config.statusTTL)]
         else s.statuses,
         rides := s.rides[request := Entry(ride.(status := Cancelled), s.now + config.rideTTL)],
         locks := if s.LockOf(driver) == Some(request) then s.locks - {driver} else s.locks,
         riderActive := if s.RequestOf(rider) == Some(request) then s.riderActive - {rider} else s.riderActive,
         driverActive := s.driverActive - {driver}),
         1)
  }

  function ArriveRide(config: Config, s: Store, request: Id, rider: Id, driver: Id): (Store, int) {
    match s.RideOf(request)
    case None => (s, -1)
    case Some(ride) =>
      if ride.status != EnRoute then (s, 0)
      else if s.RequestOf(rider) != Some(request) || s.OwnerOf(driver) != Some(request)
              || s.StatusOf(driver) != Some(Busy) then (s, -2)
      else
        (s.(rides := s.rides[request := Entry(ride.(status := Arrived), s.now + config.rideTTL)],
         riderActive := Touch(s.riderActive, s.now, rider, config.rideTTL),
         driverActive := Touch(s.driverActive, s.now, driver, config.rideTTL),
         statuses := Touch(s.statuses, s.now, driver, config.statusTTL)),
         1)
  }

  function RefreshDriver(config: Config, s: Store, driver: Id): (Store, int) {
    if s.OwnerOf(driver).None? then (s, 0)
    else
      match s.RideOf(s.OwnerOf(driver).value)
      case None => (s, 0)
      case Some(ride) =>
        if ride.driver != driver || !ride.Active() then (s, 0)
        else (s.(statuses := s.statuses[driver := Entry(Busy, s.now + config.statusTTL)]), 1)
  }

  function ClearRider(s: Store, rider: Id, request: Id): Store {
    if s.RequestOf(rider) == Some(request) then s.(riderActive := s.riderActive - {rider}) else s
  }

  function ClearReset(s: Store, rider: Id, driver: Id, request: Id): Store {
    var t := ClearRider(s, rider, request);
    if t.OwnerOf(driver) == Some(request) then t.(driverActive := t.driverActive - {driver}) else t
  }

  // ---- commands: one atomic step of the server ----

  datatype Command =
    | LockCmd(driver: Id, request: Id)
    | UnlockCmd(driver: Id, request: Id)
    | ExtendCmd(driver: Id, request: Id)
    | DeleteLocksCmd(drivers: set<Id>)
    | StatusesCmd(ids: seq<Id>)
    | BusyCmd(driver: Id)
    | StatusCmd(driver: Id, status: Option<DriverStatus>)
    | HeartbeatCmd(driver: Id)
    | RiderCmd(rider: Id)
    | OwnerCmd(driver: Id)
    | RideCmd(request: Id)
    | CreateCmd(ride: Assignment)
    | CancelCmd(request: Id, driver: Id, rider: Id)
    | ArriveCmd(request: Id, rider: Id, driver: Id)
    | RefreshCmd(driver: Id)
    | ClearRiderCmd(rider: Id, request: Id)
    | ClearResetCmd(rider: Id, driver: Id, request: Id)
    | MoveCmd(driver: Id, position: Position)
    | WhereCmd(driver: Id)

  datatype Reply =
    | Error
    | Code(code: int)
    | Key(key: Option<Id>)
    | Ride(ride: Option<Assignment>)
    | Statuses(statuses: seq<Option<DriverStatus>>)
    | Where(position: Option<Position>)

  function Coded(outcome: (Store, int)): (Store, Reply) {
    (outcome.0, Code(outcome.1))
  }

  function Execute(config: Config, s: Store, command: Command): (Store, Reply) {
    match command
    case LockCmd(d, r) => Coded(SetLockIfAbsent(config, s, d, r))
    case UnlockCmd(d, r) => Coded(Unlock(s, d, r))
    case ExtendCmd(d, r) => Coded(ExtendLock(config, s, d, r))
    case DeleteLocksCmd(ds) => (DeleteLocks(s, ds), Code(1))
    case StatusesCmd(ids) => (s, Statuses(seq(|ids|, i requires 0 <= i < |ids| => s.StatusOf(ids[i]))))
    case BusyCmd(d) => Coded(SetBusy(config, s, d))
    case StatusCmd(d, status) => (SetStatus(config, s, d, status), Code(1))
    case HeartbeatCmd(d) => Coded(Heartbeat(config, s, d))
    case RiderCmd(p) => (s, Key(s.RequestOf(p)))
    case OwnerCmd(d) => (s, Key(s.OwnerOf(d)))
    case RideCmd(r) => (s, Ride(s.RideOf(r)))
    case CreateCmd(ride) => Coded(CreateRide(config, s, ride))
    case CancelCmd(r, d, p) => Coded(CancelRide(config, s, r, d, p))
    case ArriveCmd(r, p, d) => Coded(ArriveRide(config, s, r, p, d))
    case RefreshCmd(d) => Coded(RefreshDriver(config, s, d))
    case ClearRiderCmd(p, r) => (ClearRider(s, p, r), Code(1))
    case ClearResetCmd(p, d, r) => (ClearReset(s, p, d, r), Code(1))
    case MoveCmd(d, position) => (s.(positions := s.positions[d := position]), Code(1))
    case WhereCmd(d) => (s, Where(if d in s.positions then Some(s.positions[d]) else None))
  }
}
