/** The store as the server holds it: tables updated in place, one method per Lua script or
    command, each written in the steps of the script and proved equal to its function in
    `Keyspace`. The clock stands still while a script runs. */
module RedisServer {
  import K = Keyspace
  import opened Keyspace

  /** EXISTS counted over DEL: how many of the keys were live. */
  function LiveCount(locks: map<Id, Entry<Id>>, now: int, drivers: seq<Id>): nat {
    if drivers == [] then 0
    else (if Lookup(locks, now, drivers[0]).Some? then 1 else 0) + LiveCount(locks - {drivers[0]}, now, drivers[1..])
  }

  function LiveAmong(locks: map<Id, Entry<Id>>, now: int, drivers: seq<Id>): (live: set<Id>)
    ensures forall d :: d in live <==> d in drivers && Lookup(locks, now, d).Some?
  {
    set d | d in drivers && Lookup(locks, now, d).Some?
  }

  /** A key that is listed twice counts once: the first DEL deletes it. */
  lemma {:induction false} LiveCountCounts(locks: map<Id, Entry<Id>>, now: int, drivers: seq<Id>)
    ensures LiveCount(locks, now, drivers) == |LiveAmong(locks, now, drivers)|
  {
    if drivers == [] {
      assert LiveAmong(locks, now, drivers) == {};
    } else {
      LiveCountCounts(locks - {drivers[0]}, now, drivers[1..]);
      LiveFirst(locks, now, drivers);
    }
  }

  lemma LiveFirst(locks: map<Id, Entry<Id>>, now: int, drivers: seq<Id>)
    requires drivers != []
    ensures drivers[0] !in LiveAmong(locks - {drivers[0]}, now, drivers[1..])
    ensures LiveAmong(locks, now, drivers)
         == LiveAmong(locks - {drivers[0]}, now, drivers[1..])
            + if Lookup(locks, now, drivers[0]).Some? then {drivers[0]} else {}
  {
    var rest := locks - {drivers[0]};
    forall d ensures d in LiveAmong(locks, now, drivers) <==>
                     || d in LiveAmong(rest, now, drivers[1..])
                     || (d == drivers[0] && Lookup(locks, now, d).Some?)
    {
      assert d != drivers[0] ==> Lookup(rest, now, d) == Lookup(locks, now, d);
      assert d in drivers <==> d == drivers[0] || d in drivers[1..];
    }
  }

  class Redis {
    const config: Config
    var now: int
    var locks: map<Id, Entry<Id>>
    var statuses: map<Id, Entry<DriverStatus>>
    var rides: map<Id, Entry<Assignment>>
    var riderActive: map<Id, Entry<Id>>
    var driverActive: map<Id, Entry<Id>>
    var positions: map<Id, Position>
    var lease: Option<Entry<string>>

    constructor (config: Config)
      ensures State() == EMPTY && lease == None && this.config == config
    {
      this.config := config;
      now, locks, statuses, rides, riderActive, driverActive, positions := 0, map[], map[], map[], map[], map[], map[];
      lease := None;
    }

    function State(): Store
      reads this
    {
      Store(now, locks, statuses, rides, riderActive, driverActive, positions)
    }

    method SetLockIfAbsent(driver: Id, request: Id) returns (code: int)
      modifies this
      ensures (State(), code) == K.SetLockIfAbsent(config, old(State()), driver, request)
      ensures code == if old(State()).LockOf(driver).None? then 1 else 0
      ensures code == 1 ==>
                State() == old(State()).(locks := old(locks)[driver := Entry(request, now + config.lockTTL)])
      ensures code == 0 ==> State() == old(State())
      ensures lease == old(lease)
    {
      if Lookup(locks, now, driver).Some? {
        return 0;
      }
      locks := locks[driver := Entry(request, now + config.lockTTL)];
      return 1;
    }

    method Unlock(driver: Id, request: Id) returns (code: int)
      modifies this
      ensures (State(), code) == K.Unlock(old(State()), driver, request)
      ensures code == 1 || code == 0 || code == -1
      ensures code == 1 <==> old(State()).LockOf(driver) == Some(request)
      ensures code == -1 <==> old(State()).LockOf(driver).None?
      ensures State() == if code == 1 then old(State()).(locks := old(locks) - {driver}) else old(State())
      ensures lease == old(lease)
    {
      var owner := Lookup(locks, now, driver);
      if owner == Some(request) {
        locks := locks - {driver};
        return 1;
      }
      if owner.None? {
        return -1;
      }
      return 0;
    }

    method ExtendLock(driver: Id, request: Id) returns (code: int)
      modifies this
      ensures (State(), code) == K.ExtendLock(config, old(State()), driver, request)
      ensures code == (if old(State()).LockOf(driver) == Some(request) then 1 else 0)
      ensures code == 1 ==>
                State() == old(State()).(locks := old(locks)[driver := Entry(request, now + config.lockTTL)])
      ensures code == 0 ==> State() == old(State())
      ensures lease == old(lease)
    {
      if Lookup(locks, now, driver) == Some(request) {
        locks := Touch(locks, now, driver, config.lockTTL);
        return 1;
      }
      return 0;
    }

    /** The demo lease script: refused while another session holds the lease, unless forced. */
    method ClaimLease(owner: string, ttl: nat, force: bool, clearLocks: bool, drivers: seq<Id>)
      returns (claimed: bool, holder: string, cleared: nat)
      modifies this
      ensures claimed <==>
              force || old(lease).None? || now >= old(lease).value.deadline || old(lease).value.value == owner
      ensures claimed ==> lease == Some(Entry(owner, now + ttl)) && holder == owner
      ensures !claimed ==> lease == old(lease) && holder == old(lease).value.value
      ensures State()
           == if claimed && clearLocks then K.DeleteLocks(old(State()), set d | d in drivers) else old(State())
      ensures State() == old(State()).(locks := locks)
      ensures claimed && clearLocks ==> locks == old(locks) - set d | d in drivers
      ensures cleared
           == if claimed && clearLocks then |LiveAmong(old(locks), now, drivers)| else 0
    {
      cleared := 0;
      if lease.Some? && now < lease.value.deadline && lease.value.value != owner && !force {
        return false, lease.value.value, 0;
      }
      lease := Some(Entry(owner, now + ttl));
      claimed, holder := true, owner;
      if clearLocks {
        var i := 0;
        while i < |drivers|
          invariant i <= |drivers|
          invariant now == old(now) && lease == Some(Entry(owner, now + ttl))
          invariant State() == old(State()).(locks := locks)
          invariant locks == old(locks) - (set d | d in drivers[..i])
          invariant cleared + LiveCount(locks, now, drivers[i..]) == LiveCount(old(locks), now, drivers)
        {
          assert drivers[i..][1..] == drivers[i + 1..];
          assert drivers[..i + 1] == drivers[..i] + [drivers[i]];
          if Lookup(locks, now, drivers[i]).Some? {
            cleared := cleared + 1;
          }
          locks := locks - {drivers[i]};
          i := i + 1;
        }
        assert drivers[..|drivers|] == drivers;
        LiveCountCounts(old(locks), now, drivers);
      }
    }

    method SetBusy(driver: Id) returns (code: int)
      modifies this
      ensures (State(), code) == K.SetBusy(config, old(State()), driver)
      ensures code == match old(State()).StatusOf(driver) case Some(Available) => 1 case None => -1 case Some(Busy) => 0
      ensures State()
           == if code == 1
              then old(State()).(statuses := old(statuses)[driver := Entry(Busy, now + config.statusTTL)])
              else old(State())
      ensures lease == old(lease)
    {
      var current := Lookup(statuses, now, driver);
      if current == Some(Available) {
        statuses := statuses[driver := Entry(Busy, now + config.statusTTL)];
        return 1;
      } else if current == None {
        return -1;
      } else {
        return 0;
      }
    }

    method SetStatus(driver: Id, status: Option<DriverStatus>)
      modifies this
      ensures State() == K.SetStatus(config, old(State()), driver, status)
      ensures status.None? ==> State() == old(State()).(statuses := old(statuses) - {driver})
      ensures status.Some? ==>
                var entry := Entry(status.value, now + config.statusTTL);
                State() == old(State()).(statuses := old(statuses)[driver := entry])
      ensures lease == old(lease)
    {
      if status == None {
        statuses := statuses - {driver};
      } else {
        statuses := statuses[driver := Entry(status.value, now + config.statusTTL)];
      }
    }

    method Heartbeat(driver: Id) returns (code: int)
      modifies this
      ensures (State(), code) == K.Heartbeat(config, old(State()), driver)
      ensures code == if old(State()).StatusOf(driver).Some? then 1 else 0
      ensures code == 1 ==>
                var status := old(State()).StatusOf(driver).value;
                State() == old(State()).(statuses := old(statuses)[driver := Entry(status, now + config.statusTTL)])
      ensures code == 0 ==> State() == old(State())
      ensures lease == old(lease)
    {
      code := if Lookup(statuses, now, driver).Some? then 1 else 0;
      statuses := Touch(statuses, now, driver, config.statusTTL);
    }

    method CreateRide(ride: Assignment) returns (code: int)
      modifies this
      ensures (State(), code) == K.CreateRide(config, old(State()), ride)
      ensures var s := old(State());
              var engaged := && s.RequestOf(ride.rider).Some? && s.RideOf(s.RequestOf(ride.rider).value).Some?
                             && s.RideOf(s.RequestOf(ride.rider).value).value.status != Cancelled;
              && (code == 0 <==> engaged)
              && (code == -1 <==> !engaged && s.RideOf(ride.request).Some?)
              && (code == -2 <==> !engaged && s.RideOf(ride.request).None?
                                  && s.OwnerOf(ride.driver).Some? && s.OwnerOf(ride.driver).value != ride.request)
              && (code == 0 || code == -1 || code == -2 || code == 1)
      ensures code != 1 ==> State() == old(State())
      ensures code == 1 ==>
                var s, deadline := old(State()), now + config.rideTTL;
                State() == s.(rides := s.rides[ride.request := Entry(ride.(status := EnRoute), deadline)],
                riderActive := s.riderActive[ride.rider := Entry(ride.request, deadline)],
                driverActive := s.driverActive[ride.driver := Entry(ride.request, deadline)])
      ensures lease == old(lease)
    {
      var active := Lookup(riderActive, now, ride.rider);
      if active.Some? {
        var record := Lookup(rides, now, active.value);
        if record.Some? && (record.value.status == EnRoute || record.value.status == Arrived) {
          return 0;
        }
      }
      if Lookup(rides, now, ride.request).Some? {
        return -1;
      }
      var owner := Lookup(driverActive, now, ride.driver);
      if owner.Some? && owner.value != ride.request {
        return -2;
      }
      rides := rides[ride.request := Entry(ride.(status := EnRoute), now + config.rideTTL)];
      riderActive := riderActive[ride.rider := Entry(ride.request, now + config.rideTTL)];
      driverActive := driverActive[ride.driver := Entry(ride.request, now + config.rideTTL)];
      return 1;
    }

    method CancelRide(request: Id, driver: Id, rider: Id) returns (code: int)
      modifies this
      ensures (State(), code) == K.CancelRide(config, old(State()), request, driver, rider)
      ensures code != 1 ==> State() == old(State())
      ensures code == 1 ==>
                var s := old(State());
                && s.EnRouteNow(request) && s.RideOf(request).value.driver == driver
                && s.RideOf(request).value.rider == rider && s.OwnerOf(driver) == Some(request)
                && (s.LockOf(driver).None? || s.LockOf(driver) == Some(request))
                && now == s.now && positions == s.positions
                && rides
                   == s.rides[request := Entry(s.RideOf(request).value.(status := Cancelled), now + config.rideTTL)]
                && locks == (if s.LockOf(driver).Some? then s.locks - {driver} else s.locks)
                && riderActive
                   == (if s.RequestOf(rider) == Some(request) then s.riderActive - {rider} else s.riderActive)
                && driverActive == s.driverActive - {driver}
                && statuses == if s.StatusOf(driver) == Some(Busy)
                               then s.statuses[driver := Entry(Available, now + config.statusTTL)]
                               else s.statuses
      ensures lease == old(lease)
    {
      var record := Lookup(rides, now, request);
      if record.None? {
        return -1;
      }
      if record.value.status != EnRoute {
        return 0;
      }
      if record.value.driver != driver || record.value.rider != rider {
        return -2;
      }
      if Lookup(driverActive, now, driver) != Some(request) {
        return -3;
      }
      var lockOwner := Lookup(locks, now, driver);
      if lockOwner.Some? && lockOwner.value != request {
        return -4;
      }
      if Lookup(statuses, now, driver) == Some(Busy) {
        statuses := statuses[driver := Entry(Available, now + config.statusTTL)];
      }
      rides := rides[request := Entry(record.value.(status := Cancelled), now + config.rideTTL)];
      if lockOwner == Some(request) {
        locks := locks - {driver};
      }
      if Lookup(riderActive, now, rider) == Some(request) {
        riderActive := riderActive - {rider};
      }
      driverActive := driverActive - {driver};
      return 1;
    }

    method ArriveRide(request: Id, rider: Id, driver: Id) returns (code: int)
      modifies this
      ensures (State(), code) == K.ArriveRide(config, old(State()), request, rider, driver)
      ensures code != 1 ==> State() == old(State())
      ensures code == 1 ==>
                var s, deadline := old(State()), now + config.rideTTL;
                && s.EnRouteNow(request) && s.RequestOf(rider) == Some(request)
                && s.OwnerOf(driver) == Some(request) && s.StatusOf(driver) == Some(Busy)
                && var ride := s.RideOf(request).value.(status := Arrived);
                State() == s.(rides := s.rides[request := Entry(ride, deadline)],
                riderActive := s.riderActive[rider := Entry(request, deadline)],
                driverActive := s.driverActive[driver := Entry(request, deadline)],
                statuses := s.statuses[driver := Entry(Busy, now + config.statusTTL)])
      ensures lease == old(lease)
    {
      var record := Lookup(rides, now, request);
      if record.None? {
        return -1;
      }
      if record.value.status != EnRoute {
        return 0;
      }
      if Lookup(riderActive, now, rider) != Some(request)
         || Lookup(driverActive, now, driver) != Some(request)
         || Lookup(statuses, now, driver) != Some(Busy) {
        return -2;
      }
      rides := rides[request := Entry(record.value.(status := Arrived), now + config.rideTTL)];
      riderActive := Touch(riderActive, now, rider, config.rideTTL);
      driverActive := Touch(driverActive, now, driver, config.rideTTL);
      statuses := Touch(statuses, now, driver, config.statusTTL);
      return 1;
    }

    method RefreshDriver(driver: Id) returns (code: int)
      modifies this
      ensures (State(), code) == K.RefreshDriver(config, old(State()), driver)
      ensures var s := old(State());
              && (code == 1 <==>
                  && s.OwnerOf(driver).Some? && s.RideOf(s.OwnerOf(driver).value).Some?
                  && s.RideOf(s.OwnerOf(driver).value).value.driver == driver
                  && s.RideOf(s.OwnerOf(driver).value).value.status != Cancelled)
              && (code == 1 ==> State() == s.(statuses := s.statuses[driver := Entry(Busy, now + config.statusTTL)]))
              && (code != 1 ==> code == 0 && State() == s)
      ensures lease == old(lease)
    {
      var request := Lookup(driverActive, now, driver);
      if request.None? {
        return 0;
      }
      var record := Lookup(rides, now, request.value);
      if record.None? || record.value.driver != driver {
        return 0;
      }
      if record.value.status != EnRoute && record.value.status != Arrived {
        return 0;
      }
      statuses := statuses[driver := Entry(Busy, now + config.statusTTL)];
      return 1;
    }

    method ClearRider(rider: Id, request: Id)
      modifies this
      ensures State() == K.ClearRider(old(State()), rider, request)
      ensures State()
           == if old(State()).RequestOf(rider) == Some(request)
              then old(State()).(riderActive := old(riderActive) - {rider})
              else old(State())
      ensures lease == old(lease)
    {
      if Lookup(riderActive, now, rider) == Some(request) {
        riderActive := riderActive - {rider};
      }
    }

    method ClearReset(rider: Id, driver: Id, request: Id)
      modifies this
      ensures State() == K.ClearReset(old(State()), rider, driver, request)
      ensures var s := old(State());
              && riderActive == (if s.RequestOf(rider) == Some(request) then s.riderActive - {rider} else s.riderActive)
              && driverActive
                 == (if s.OwnerOf(driver) == Some(request) then s.driverActive - {driver} else s.driverActive)
              && State() == s.(riderActive := riderActive, driverActive := driverActive)
      ensures lease == old(lease)
    {
      if Lookup(riderActive, now, rider) == Some(request) {
        riderActive := riderActive - {rider};
      }
      if Lookup(driverActive, now, driver) == Some(request) {
        driverActive := driverActive - {driver};
      }
    }

    method StorePosition(driver: Id, position: Position)
      modifies this
      ensures State() == old(State()).(positions := old(positions)[driver := position])
      ensures lease == old(lease)
    {
      positions := positions[driver := position];
    }

    /** GetStatuses: every ID gets a status, missing keys read as offline (`None`). */
    method GetStatuses(drivers: seq<Id>) returns (found: map<Id, Option<DriverStatus>>)
      ensures found.Keys == set d | d in drivers
      ensures forall d :: d in drivers ==> found[d] == State().StatusOf(d)
    {
      found := map[];
      for i := 0 to |drivers|
        invariant found.Keys == set d | d in drivers[..i]
        invariant forall d :: d in found ==> found[d] == None
      {
        found := found[drivers[i] := None];
      }
      for i := 0 to |drivers|
        invariant found.Keys == set d | d in drivers
        invariant forall d :: d in drivers[..i] ==> found[d] == State().StatusOf(d)
        invariant forall d :: d in drivers && d !in drivers[..i] ==> found[d] == None
      {
        var value := Lookup(statuses, now, drivers[i]);
        if value.Some? {
          found := found[drivers[i] := value];
        }
      }
    }
  }
}
