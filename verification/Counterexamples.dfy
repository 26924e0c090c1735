/** Runs that show which assumptions the main results cannot do without, for every configuration
    and whatever the requests, riders and drivers are called. */
module Counterexamples {
  import opened Keyspace
  import opened Clients
  import opened Ownership
  import opened System
  import opened History
  import opened Claims

  const HERE := Position(0.0, 0.0)

  /** A legacy request that came in at step `at`, as client `index`, and whether a ride was en route
      under its ID. */
  datatype Admission = Admission(at: nat, id: Id, index: nat, enRoute: bool)

  /** Client `index` has until then to finish its claim, as it was at moment `at`. */
  datatype Owed = Owed(at: nat, index: nat, until: int)

  /** What a run may do: create an expired ID again, lose replies. And what is known of it: the
      legacy request it admitted, and the time it gave to a claim. */
  datatype Setting = Setting(config: Config, reuse: bool, lossy: bool, legacy: Option<Admission>, owed: Option<Owed>)

  /** Replies are lost only where a lock may outlive a ride's record. */
  predicate LosesReplies(config: Config) {
    config.lockTTL >= config.rideTTL
  }

  function SettingFor(config: Config, reuse: bool): Setting {
    Setting(config, reuse, LosesReplies(config), None, None)
  }

  /** Nothing is known of the run yet, and a ride can outlive its lock or lose its reply. */
  predicate IsBlank(w: Setting) {
    w.legacy.None? && w.owed.None? && w.config.Valid() && (w.lossy || w.config.lockTTL < w.config.rideTTL)
  }

  ghost predicate Allowed(w: Setting, sys: System, step: Step)
    requires Enabled(sys, step)
  {
    && Orderly(sys, step)
    && (w.reuse || Fresh(w.config, sys, step))
    && (w.lossy || (step.Run? ==> step.fate == Answered))
  }

  ghost predicate AllowedAt(w: Setting, t: Trace, i: nat)
    requires i < |t.steps| && |t.states| == |t.steps| + 1
  {
    Enabled(t.states[i], t.steps[i]) ==> Allowed(w, t.states[i], t.steps[i])
  }

  ghost predicate Admitted(t: Trace, legacy: Admission) {
    && AdmitsLegacy(t, legacy.at, legacy.id)
    && t.states[legacy.at].store.EnRouteNow(legacy.id) == legacy.enRoute
    && |t.states[legacy.at].clients| == legacy.index
  }

  ghost predicate Scenario(w: Setting, t: Trace) {
    && w.config.Valid()
    && IsRun(w.config, t)
    && (forall i: nat :: i < |t.steps| ==> AllowedAt(w, t, i))
    && (forall n: nat :: n < |t.states| ==> OnTime(t, n))
    && (w.legacy.Some? ==> Admitted(t, w.legacy.value))
    && (w.owed.Some? ==> IsOwed(t, w.owed.value))
  }

  ghost predicate IsOwed(t: Trace, owed: Owed) {
    owed.at < |t.states| && Due(t, owed.index, owed.at) >= owed.until
  }

  lemma ScenarioIsPaced(w: Setting, t: Trace)
    requires Scenario(w, t)
    ensures PacedRun(w.config, t)
    ensures !w.reuse ==> FreshRun(w.config, t)
  {
    forall i: nat | i < |t.steps| ensures OrderlyAt(t, i) && (!w.reuse ==> FreshAt(w.config, t, i)) {
      assert AllowedAt(w, t, i);
    }
  }

  function Last(t: Trace): System
    requires t.states != []
  {
    t.states[|t.states| - 1]
  }

  function Extended(config: Config, t: Trace, step: Step): Trace
    requires t.states != [] && Enabled(Last(t), step)
  {
    Trace(t.states + [Apply(config, Last(t), step)], t.steps + [step])
  }

  lemma ExtendedIsRun(config: Config, t: Trace, step: Step)
    requires IsRun(config, t) && Enabled(Last(t), step)
    ensures IsRun(config, Extended(config, t, step))
  {
    var u := Extended(config, t, step);
    assert u.states[0] == t.states[0];
    forall i: nat | i < |u.steps| ensures StepOf(config, u, i) {
      if i < |t.steps| {
        assert StepOf(config, t, i);
        assert u.states[i] == t.states[i] && u.states[i + 1] == t.states[i + 1] && u.steps[i] == t.steps[i];
      }
    }
  }

  lemma {:induction false} DueOfPrefix(t: Trace, u: Trace, k: nat, n: nat)
    requires n < |t.states| && t.states <= u.states
    ensures Due(u, k, n) == Due(t, k, n)
  {
    if n > 0 {
      DueOfPrefix(t, u, k, n - 1);
    }
  }

  /** Every claim has time until then. */
  ghost predicate MayTick(t: Trace, now: int)
    requires t.states != []
  {
    forall k: nat :: k < |Last(t).clients| && Claiming(Last(t).clients[k]) ==> now < Due(t, k, |t.states| - 1)
  }

  /** Only the clock can make a claim late. */
  lemma ExtendedIsOnTime(config: Config, t: Trace, step: Step)
    requires config.Valid() && IsRun(config, t) && Enabled(Last(t), step) && OnTime(t, |t.states| - 1)
    requires step.Tick? ==> MayTick(t, step.now)
    ensures OnTime(Extended(config, t, step), |t.states|)
  {
    var u, n := Extended(config, t, step), |t.states|;
    forall k: nat | k < |Last(u).clients| && Claiming(Last(u).clients[k]) ensures Last(u).store.now < Due(u, k, n) {
      if !Holding(Last(u), k) {
        StepKeepsClaiming(config, Last(t), step, k);
        DueOfPrefix(t, u, k, n - 1);
        if Sent(Last(t), step).Some? { CommandTakesNoTime(config, Last(t).store, Sent(Last(t), step).value); }
      }
    }
  }

  lemma Extend(w: Setting, t: Trace, step: Step) returns (u: Trace)
    requires Scenario(w, t) && Enabled(Last(t), step) && Allowed(w, Last(t), step)
    requires step.Tick? ==> MayTick(t, step.now)
    ensures Scenario(w, u)
    ensures Last(u) == Apply(w.config, Last(t), step)
    ensures u == Extended(w.config, t, step)
  {
    ExtendedIsRun(w.config, t, step);
    u := Extended(w.config, t, step);
    forall i: nat | i < |u.steps| ensures AllowedAt(w, u, i) {
      if i < |t.steps| {
        assert AllowedAt(w, t, i);
        assert u.states[i] == t.states[i] && u.steps[i] == t.steps[i];
      } else {
        assert u.states[i] == Last(t) && u.steps[i] == step;
      }
    }
    StaysOnTime(w.config, t, step);
    if w.owed.Some? { DueOfPrefix(t, u, w.owed.value.index, w.owed.value.at); }
  }

  lemma StaysOnTime(config: Config, t: Trace, step: Step)
    requires config.Valid() && IsRun(config, t) && Enabled(Last(t), step)
    requires forall n: nat :: n < |t.states| ==> OnTime(t, n)
    requires step.Tick? ==> MayTick(t, step.now)
    ensures forall n: nat :: n < |Extended(config, t, step).states| ==> OnTime(Extended(config, t, step), n)
  {
    var u := Extended(config, t, step);
    forall n: nat | n < |u.states| ensures OnTime(u, n) {
      if n < |t.states| {
        assert OnTime(t, n) && u.states[n] == t.states[n];
        forall k: nat ensures Due(u, k, n) == Due(t, k, n) { DueOfPrefix(t, u, k, n); }
      } else {
        ExtendedIsOnTime(config, t, step);
      }
    }
  }

  // ---- one client at a time ----

  /** The next client to come in gets this number. */
  function Count(t: Trace): nat
    requires t.states != []
  {
    |Last(t).clients|
  }

  /** Client `k` is about to do what `c` does. */
  predicate At(t: Trace, k: nat, c: Client) {
    t.states != [] && k < Count(t) && Last(t).clients[k] == c
  }

  /** The run went on to a state with these clients and this store, and the same records created. */
  predicate Becomes(t: Trace, u: Trace, clients: seq<Client>, store: Store) {
    t.states != [] && u.states != [] && Last(u) == Last(t).(clients := clients, store := store)
  }

  /** No request in flight has this ID. */
  predicate IdIsFree(t: Trace, id: Id) {
    && t.states != []
    && forall i :: 0 <= i < Count(t) && Finding(Last(t).clients[i]) ==> Last(t).clients[i].request.id != id
  }

  /** Client `k` sends its command and is answered. */
  lemma Answer(w: Setting, t: Trace, k: nat, c: Client) returns (u: Trace)
    requires Scenario(w, t) && At(t, k, c) && !c.Finished? && !Pending(c).DeleteLocksCmd?
    requires w.reuse || Fresh(w.config, Last(t), Run(k, Answered))
    ensures Scenario(w, u) && u == Extended(w.config, t, Run(k, Answered))
    ensures var (store, reply) := Execute(w.config, Last(t).store, Pending(c));
            && Last(u).store == store
            && Last(u).clients == Last(t).clients[k := Resume(w.config, c, reply)]
            && Last(u).ledger == NextLedger(w.config, Last(t), Run(k, Answered))
  {
    u := Extend(w, t, Run(k, Answered));
  }

  lemma Enter(w: Setting, t: Trace, c: Client) returns (u: Trace)
    requires Scenario(w, t) && Starts(c) && (Finding(c) ==> IdIsFree(t, c.request.id))
    ensures Scenario(w, u) && Becomes(t, u, Last(t).clients + [c], Last(t).store)
    ensures At(u, Count(t), c) && u == Extended(w.config, t, Admit(c))
  {
    u := Extend(w, t, Admit(c));
  }

  /** REST sets a driver available. */
  lemma Offer(w: Setting, t: Trace, driver: Id) returns (u: Trace)
    requires Scenario(w, t)
    ensures Scenario(w, u)
    ensures Becomes(t, u, Last(t).clients + [Finished(Done)],
                    SetStatus(w.config, Last(t).store, driver, Some(Available)))
  {
    var c := PutStatus(driver, Some(Available));
    u := Enter(w, t, c);
    u := Answer(w, u, Count(t), c);
  }

  lemma Wait(w: Setting, t: Trace, now: int) returns (u: Trace)
    requires Scenario(w, t) && Last(t).store.now <= now
    requires forall i :: 0 <= i < Count(t) ==> !Claiming(Last(t).clients[i])
    ensures Scenario(w, u) && Becomes(t, u, Last(t).clients, Last(t).store.(now := now))
  {
    u := Extend(w, t, Tick(now));
  }

  // ---- a request with a rider that meets no obstacle ----

  predicate CanRide(w: Setting, t: Trace, request: Request, driver: Id) {
    && IdIsFree(t, request.id)
    && request.rider.Some? && ValidCoordinates(request.PickupPoint())
    && Last(t).store.RequestOf(request.rider.value).None? && Last(t).store.RideOf(request.id).None?
    && Last(t).store.StatusOf(driver) == Some(Available)
    && Last(t).store.LockOf(driver).None? && Last(t).store.OwnerOf(driver).None?
    && (w.reuse || request.id !in Last(t).ledger)
  }

  lemma Locked(w: Setting, t: Trace, k: nat, request: Request, driver: Id) returns (u: Trace)
    requires Scenario(w, t) && At(t, k, TakeLock(request, driver, [])) && Last(t).store.LockOf(driver).None?
    ensures Scenario(w, u)
    ensures Becomes(t, u, Last(t).clients[k := CheckOwner(request, driver, [])],
                    SetLockIfAbsent(w.config, Last(t).store, driver, request.id).0)
  {
    u := Answer(w, t, k, TakeLock(request, driver, []));
  }

  lemma FoundUnowned(w: Setting, t: Trace, k: nat, request: Request, driver: Id) returns (u: Trace)
    requires Scenario(w, t) && At(t, k, CheckOwner(request, driver, [])) && Last(t).store.OwnerOf(driver).None?
    ensures Scenario(w, u)
    ensures Becomes(t, u, Last(t).clients[k := ClaimDriver(request, driver, [])], Last(t).store)
  {
    u := Answer(w, t, k, CheckOwner(request, driver, []));
  }

  lemma ClaimedBusy(w: Setting, t: Trace, k: nat, request: Request, driver: Id) returns (u: Trace)
    requires Scenario(w, t) && At(t, k, ClaimDriver(request, driver, []))
    requires Last(t).store.StatusOf(driver) == Some(Available)
    ensures Scenario(w, u)
    ensures Becomes(t, u, Last(t).clients[k := AfterClaim(request, driver, [])],
                    SetBusy(w.config, Last(t).store, driver).0)
  {
    u := Answer(w, t, k, ClaimDriver(request, driver, []));
  }

  lemma FoundFree(w: Setting, t: Trace, k: nat, request: Request, driver: Id) returns (u: Trace)
    requires Scenario(w, t) && request.rider.Some? && At(t, k, FindActive(request, [driver]))
    requires Last(t).store.RequestOf(request.rider.value).None?
    ensures Scenario(w, u)
    ensures Becomes(t, u, Last(t).clients[k := FindStatuses(request, [driver])], Last(t).store)
  {
    u := Answer(w, t, k, FindActive(request, [driver]));
  }

  lemma Chosen(w: Setting, t: Trace, k: nat, request: Request, driver: Id) returns (u: Trace)
    requires Scenario(w, t) && At(t, k, FindStatuses(request, [driver]))
    requires Last(t).store.StatusOf(driver) == Some(Available)
    ensures Scenario(w, u)
    ensures Becomes(t, u, Last(t).clients[k := TakeLock(request, driver, [])], Last(t).store)
  {
    var statuses := [Last(t).store.StatusOf(driver)];
    assert Execute(w.config, Last(t).store, StatusesCmd([driver])).1 == Statuses(statuses);
    assert [driver][1..] == [] && statuses[1..] == [];
    assert AvailableOnly([driver], statuses) == [driver] + AvailableOnly([], []);
    u := Answer(w, t, k, FindStatuses(request, [driver]));
  }

  /** The store once `driver` is locked and busy for `id`. */
  function Taken(config: Config, s: Store, id: Id, driver: Id): Store {
    SetBusy(config, SetLockIfAbsent(config, s, driver, id).0, driver).0
  }

  lemma TakenLooks(config: Config, s: Store, id: Id, driver: Id)
    requires config.Valid() && s.LockOf(driver).None? && s.StatusOf(driver) == Some(Available)
    ensures var u := Taken(config, s, id, driver);
            && u.LockOf(driver) == Some(id) && u.StatusOf(driver) == Some(Busy) && SameRides(s, u)
            && (forall p :: u.RequestOf(p) == s.RequestOf(p))
            && (forall r :: u.RideOf(r) == s.RideOf(r)) && (forall d :: u.OwnerOf(d) == s.OwnerOf(d))
            && u.locks[driver].deadline == s.now + config.lockTTL
  {
  }

  lemma DriverFound(w: Setting, t: Trace, request: Request, driver: Id) returns (u: Trace)
    requires Scenario(w, t) && IdIsFree(t, request.id)
    requires request.rider.Some? && Last(t).store.RequestOf(request.rider.value).None?
    requires Last(t).store.StatusOf(driver) == Some(Available)
    ensures Scenario(w, u)
    ensures Becomes(t, u, Last(t).clients + [TakeLock(request, driver, [])], Last(t).store)
  {
    var k := Count(t);
    u := Enter(w, t, FindActive(request, [driver]));
    u := FoundFree(w, u, k, request, driver);
    assert Last(u).clients == Last(t).clients + [FindStatuses(request, [driver])];
    u := Chosen(w, u, k, request, driver);
  }

  lemma DriverTaken(w: Setting, t: Trace, request: Request, driver: Id) returns (u: Trace)
    requires Scenario(w, t) && CanRide(w, t, request, driver)
    ensures Scenario(w, u)
    ensures Becomes(t, u, Last(t).clients + [RecordRide(request, driver, [])],
                    Taken(w.config, Last(t).store, request.id, driver))
  {
    var k := Count(t);
    u := DriverFound(w, t, request, driver);
    u := Locked(w, u, k, request, driver);
    assert Last(u).clients == Last(t).clients + [CheckOwner(request, driver, [])];
    u := FoundUnowned(w, u, k, request, driver);
    assert Last(u).clients == Last(t).clients + [ClaimDriver(request, driver, [])];
    u := ClaimedBusy(w, u, k, request, driver);
  }

  /** The store once the ride is created: it holds its driver and rider, everything else is kept. */
  ghost predicate Created(config: Config, s: Store, ride: Assignment, t: Store) {
    && t.now == s.now && t.OwnerOf(ride.driver) == Some(ride.request)
    && t.RideOf(ride.request) == Some(ride) && t.RequestOf(ride.rider) == Some(ride.request)
    && t.rides[ride.request].deadline == s.now + config.rideTTL
    && t.driverActive[ride.driver].deadline == s.now + config.rideTTL
    && t.riderActive[ride.rider].deadline == s.now + config.rideTTL
    && (forall p :: p != ride.rider ==> t.RequestOf(p) == s.RequestOf(p))
    && (forall r :: r != ride.request ==> t.RideOf(r) == s.RideOf(r))
  }

  lemma CreateFacts(config: Config, s: Store, ride: Assignment)
    requires config.Valid() && ride.status == EnRoute
    requires s.RequestOf(ride.rider).None? && s.RideOf(ride.request).None? && s.OwnerOf(ride.driver).None?
    ensures var (t, code) := CreateRide(config, s, ride);
            code == 1 && Created(config, s, ride, t) && t.locks == s.locks && t.statuses == s.statuses
  {
  }

  lemma RideFacts(config: Config, s: Store, ride: Assignment)
    requires config.Valid() && ride.status == EnRoute
    requires s.RequestOf(ride.rider).None? && s.RideOf(ride.request).None? && s.OwnerOf(ride.driver).None?
    requires s.LockOf(ride.driver).None? && s.StatusOf(ride.driver) == Some(Available)
    ensures var (t, code) := CreateRide(config, Taken(config, s, ride.request, ride.driver), ride);
            && code == 1 && Created(config, s, ride, t) && t.LockOf(ride.driver) == Some(ride.request)
            && t.locks[ride.driver].deadline == s.now + config.lockTTL
  {
    TakenLooks(config, s, ride.request, ride.driver);
    CreateFacts(config, Taken(config, s, ride.request, ride.driver), ride);
  }

  /** The rider is assigned in six commands. */
  lemma Ride(w: Setting, t: Trace, request: Request, driver: Id) returns (u: Trace)
    requires Scenario(w, t) && w.config.Valid() && CanRide(w, t, request, driver)
    ensures Scenario(w, u)
    ensures Last(u).clients == Last(t).clients + [Finished(Assigned(driver))]
    ensures Last(u).ledger == Last(t).ledger[request.id := request.RideWith(driver)]
    ensures Created(w.config, Last(t).store, request.RideWith(driver), Last(u).store)
    ensures Last(u).store.LockOf(driver) == Some(request.id)
    ensures Last(u).store.locks[driver].deadline == Last(t).store.now + w.config.lockTTL
  {
    RideFacts(w.config, Last(t).store, request.RideWith(driver));
    u := DriverTaken(w, t, request, driver);
    assert At(u, Count(t), RecordRide(request, driver, []));
    u := RideRecorded(w, u, Count(t), request, driver);
  }

  lemma RideRecorded(w: Setting, t: Trace, k: nat, request: Request, driver: Id) returns (u: Trace)
    requires Scenario(w, t) && request.rider.Some? && At(t, k, RecordRide(request, driver, []))
    requires CreateRide(w.config, Last(t).store, request.RideWith(driver)).1 == 1
    requires w.reuse || request.id !in Last(t).ledger
    ensures Scenario(w, u)
    ensures Last(u).clients == Last(t).clients[k := Finished(Assigned(driver))]
    ensures Last(u).ledger == Last(t).ledger[request.id := request.RideWith(driver)]
    ensures Last(u).store == CreateRide(w.config, Last(t).store, request.RideWith(driver)).0
  {
    u := Answer(w, t, k, RecordRide(request, driver, []));
  }

  lemma ReplyToRideLost(w: Setting, t: Trace, k: nat, request: Request, driver: Id) returns (u: Trace)
    requires Scenario(w, t) && w.lossy && request.rider.Some? && At(t, k, RecordRide(request, driver, []))
    requires CreateRide(w.config, Last(t).store, request.RideWith(driver)).1 == 1
    requires w.reuse || request.id !in Last(t).ledger
    ensures Scenario(w, u)
    ensures Last(u).clients == Last(t).clients[k := RollbackUnlock(request, driver, RedisFailure)]
    ensures Last(u).ledger == Last(t).ledger[request.id := request.RideWith(driver)]
    ensures Last(u).store == CreateRide(w.config, Last(t).store, request.RideWith(driver)).0
  {
    u := Extend(w, t, Run(k, ReplyLost));
  }

  /** The create script's reply is lost: the request rolls its claim back, the ride stays. */
  lemma LostRide(w: Setting, t: Trace, request: Request, driver: Id) returns (u: Trace)
    requires Scenario(w, t) && w.lossy && w.config.Valid() && CanRide(w, t, request, driver)
    ensures Scenario(w, u)
    ensures Last(u).clients == Last(t).clients + [Finished(RedisFailure)]
    ensures Last(u).ledger == Last(t).ledger[request.id := request.RideWith(driver)]
    ensures Created(w.config, Last(t).store, request.RideWith(driver), Last(u).store)
    ensures Last(u).store.LockOf(driver).None? && Last(u).store.StatusOf(driver) == Some(Available)
  {
    u := RideUnanswered(w, t, request, driver);
    var created := Last(u).store;
    u := RolledBack(w, u, Count(t), request, driver);
    CreatedStays(w.config, Last(t).store, request.RideWith(driver), created, Last(u).store);
  }

  lemma RideUnanswered(w: Setting, t: Trace, request: Request, driver: Id) returns (u: Trace)
    requires Scenario(w, t) && w.lossy && w.config.Valid() && CanRide(w, t, request, driver)
    ensures Scenario(w, u)
    ensures Last(u).clients == Last(t).clients + [RollbackUnlock(request, driver, RedisFailure)]
    ensures Last(u).ledger == Last(t).ledger[request.id := request.RideWith(driver)]
    ensures Created(w.config, Last(t).store, request.RideWith(driver), Last(u).store)
    ensures Last(u).store.LockOf(driver) == Some(request.id)
  {
    RideFacts(w.config, Last(t).store, request.RideWith(driver));
    u := DriverTaken(w, t, request, driver);
    assert At(u, Count(t), RecordRide(request, driver, []));
    u := ReplyToRideLost(w, u, Count(t), request, driver);
  }

  lemma RolledBack(w: Setting, t: Trace, k: nat, request: Request, driver: Id) returns (u: Trace)
    requires Scenario(w, t) && w.config.Valid() && At(t, k, RollbackUnlock(request, driver, RedisFailure))
    requires Last(t).store.LockOf(driver) == Some(request.id)
    ensures Scenario(w, u) && Last(u).ledger == Last(t).ledger && SameRides(Last(t).store, Last(u).store)
    ensures Last(u).clients == Last(t).clients[k := Finished(RedisFailure)]
    ensures Last(u).store.LockOf(driver).None? && Last(u).store.StatusOf(driver) == Some(Available)
  {
    u := RollbackUnlocked(w, t, k, request, driver);
    u := RollbackRestored(w, u, k, request, driver);
  }

  lemma RollbackRestored(w: Setting, t: Trace, k: nat, request: Request, driver: Id) returns (u: Trace)
    requires Scenario(w, t) && At(t, k, RollbackRestore(request, driver, RedisFailure))
    ensures Scenario(w, u)
    ensures Becomes(t, u, Last(t).clients[k := Finished(RedisFailure)],
                    SetStatus(w.config, Last(t).store, driver, Some(Available)))
  {
    u := Answer(w, t, k, RollbackRestore(request, driver, RedisFailure));
  }

  lemma RollbackUnlocked(w: Setting, t: Trace, k: nat, request: Request, driver: Id) returns (u: Trace)
    requires Scenario(w, t) && At(t, k, RollbackUnlock(request, driver, RedisFailure))
    requires Last(t).store.LockOf(driver) == Some(request.id)
    ensures Scenario(w, u)
    ensures Becomes(t, u, Last(t).clients[k := RollbackRestore(request, driver, RedisFailure)],
                    Unlock(Last(t).store, driver, request.id).0)
  {
    u := Answer(w, t, k, RollbackUnlock(request, driver, RedisFailure));
  }

  lemma CreatedStays(config: Config, s: Store, ride: Assignment, t: Store, u: Store)
    requires Created(config, s, ride, t) && SameRides(t, u)
    ensures Created(config, s, ride, u)
  {
    SameRidesLookSame(t, u);
  }

  lemma SameRidesLookSame(s: Store, t: Store)
    requires SameRides(s, t)
    ensures forall r :: t.RideOf(r) == s.RideOf(r)
    ensures forall p :: t.RequestOf(p) == s.RequestOf(p)
    ensures forall d :: t.OwnerOf(d) == s.OwnerOf(d)
  {
  }

  // ---- a ride whose driver looks free ----

  predicate Idle(t: Trace) {
    t.states != [] && forall i :: 0 <= i < Count(t) ==> Last(t).clients[i].Finished?
  }

  function RequestFor(id: Id, rider: Id): Request {
    Request(id, Some(rider), HERE, None)
  }

  function RideFor(id: Id, rider: Id, driver: Id): Assignment {
    RequestFor(id, rider).RideWith(driver)
  }

  /** The ride is en route, but its driver is available and unlocked. */
  predicate LooksFree(t: Trace, ride: Assignment) {
    && t.states != []
    && Last(t).store.RideOf(ride.request) == Some(ride) && ride.status == EnRoute
    && Last(t).store.OwnerOf(ride.driver) == Some(ride.request)
    && Last(t).store.RequestOf(ride.rider) == Some(ride.request)
    && Last(t).store.LockOf(ride.driver).None? && Last(t).store.StatusOf(ride.driver) == Some(Available)
  }

  /** Everybody but this ride is as before; a finished client or more has come in. */
  ghost predicate OthersKept(t: Trace, u: Trace, ride: Assignment) {
    && t.states != [] && u.states != []
    && Last(u).ledger == Last(t).ledger[ride.request := ride]
    && (forall p :: p != ride.rider && Last(t).store.RequestOf(p).None? ==> Last(u).store.RequestOf(p).None?)
    && (forall r :: r != ride.request && Last(t).store.RideOf(r).None? ==> Last(u).store.RideOf(r).None?)
  }

  predicate MoreFinished(t: Trace, u: Trace) {
    && t.states != [] && u.states != [] && Last(t).clients <= Last(u).clients
    && forall i :: Count(t) <= i < Count(u) ==> Last(u).clients[i].Finished?
  }

  lemma RideLooksFree(w: Setting, t: Trace, id: Id, rider: Id, driver: Id) returns (u: Trace)
    requires Scenario(w, t) && w.config.Valid() && CanRide(w, t, RequestFor(id, rider), driver)
    requires w.lossy || w.config.lockTTL < w.config.rideTTL
    requires forall i :: 0 <= i < Count(t) ==> !Claiming(Last(t).clients[i])
    ensures Scenario(w, u) && LooksFree(u, RideFor(id, rider, driver))
    ensures OthersKept(t, u, RideFor(id, rider, driver)) && MoreFinished(t, u)
  {
    if w.lossy {
      u := LostRide(w, t, RequestFor(id, rider), driver);
    } else {
      u := Ride(w, t, RequestFor(id, rider), driver);
      u := LockRunsOut(w, u, RideFor(id, rider, driver), Last(t).store.now);
    }
  }

  lemma LockRunsOut(w: Setting, t: Trace, ride: Assignment, since: int) returns (u: Trace)
    requires Scenario(w, t) && w.config.Valid() && w.config.lockTTL < w.config.rideTTL
    requires forall i :: 0 <= i < Count(t) ==> !Claiming(Last(t).clients[i])
    requires ride.status == EnRoute && Last(t).store.now == since
    requires Created(w.config, Last(t).store, ride, Last(t).store)
    requires ride.driver in Last(t).store.locks
    requires Last(t).store.locks[ride.driver].deadline == since + w.config.lockTTL
    ensures Scenario(w, u) && LooksFree(u, ride)
    ensures Last(u).ledger == Last(t).ledger && MoreFinished(t, u)
    ensures forall p :: Last(t).store.RequestOf(p).None? ==> Last(u).store.RequestOf(p).None?
    ensures forall r :: Last(t).store.RideOf(r).None? ==> Last(u).store.RideOf(r).None?
  {
    u := Wait(w, t, since + w.config.lockTTL);
    u := Offer(w, u, ride.driver);
  }

  // ---- cancelling it ----

  lemma CancelFacts(config: Config, s: Store, ride: Assignment)
    requires config.Valid() && s.RideOf(ride.request) == Some(ride) && ride.status == EnRoute
    requires s.OwnerOf(ride.driver) == Some(ride.request) && s.RequestOf(ride.rider) == Some(ride.request)
    requires s.LockOf(ride.driver).None? || s.LockOf(ride.driver) == Some(ride.request)
    requires s.StatusOf(ride.driver) == Some(Available)
    ensures var (t, code) := CancelRide(config, s, ride.request, ride.driver, ride.rider);
            code == 1 && CancelledIn(config, s, ride, t)
  {
  }

  ghost predicate CancelledIn(config: Config, s: Store, ride: Assignment, t: Store) {
    && t.now == s.now && t.RideOf(ride.request) == Some(ride.(status := Cancelled))
    && t.rides[ride.request].deadline == s.now + config.rideTTL
    && t.OwnerOf(ride.driver).None? && t.RequestOf(ride.rider).None? && t.LockOf(ride.driver).None?
    && t.StatusOf(ride.driver) == Some(Available)
    && (forall p :: s.RequestOf(p).None? ==> t.RequestOf(p).None?)
    && (forall r :: s.RideOf(r).None? ==> t.RideOf(r).None?)
  }

  /** A client of its own cancels the ride. */
  lemma Cancels(w: Setting, t: Trace, ride: Assignment) returns (u: Trace)
    requires Scenario(w, t) && w.config.Valid()
    requires Last(t).store.RideOf(ride.request) == Some(ride) && ride.status == EnRoute
    requires Last(t).store.OwnerOf(ride.driver) == Some(ride.request)
    requires Last(t).store.RequestOf(ride.rider) == Some(ride.request)
    requires Last(t).store.LockOf(ride.driver).None? || Last(t).store.LockOf(ride.driver) == Some(ride.request)
    requires Last(t).store.StatusOf(ride.driver) == Some(Available)
    ensures Scenario(w, u) && Last(u).ledger == Last(t).ledger && MoreFinished(t, u)
    ensures CancelledIn(w.config, Last(t).store, ride, Last(u).store)
  {
    CancelFacts(w.config, Last(t).store, ride);
    u := Enter(w, t, CancelRead(ride.request));
    u := CancelChosen(w, u, Count(t), ride);
    u := CancelSent(w, u, Count(t), ride);
  }

  lemma CancelChosen(w: Setting, t: Trace, k: nat, ride: Assignment) returns (u: Trace)
    requires Scenario(w, t) && At(t, k, CancelRead(ride.request))
    requires Last(t).store.RideOf(ride.request) == Some(ride) && ride.status == EnRoute
    ensures Scenario(w, u) && Becomes(t, u, Last(t).clients[k := CancelSend(ride)], Last(t).store)
  {
    u := Answer(w, t, k, CancelRead(ride.request));
  }

  lemma CancelSent(w: Setting, t: Trace, k: nat, ride: Assignment) returns (u: Trace)
    requires Scenario(w, t) && At(t, k, CancelSend(ride))
    requires CancelRide(w.config, Last(t).store, ride.request, ride.driver, ride.rider).1 == 1
    ensures Scenario(w, u)
    ensures Becomes(t, u, Last(t).clients[k := Finished(CancelledRide(ride.(status := Cancelled)))],
                    CancelRide(w.config, Last(t).store, ride.request, ride.driver, ride.rider).0)
  {
    u := Answer(w, t, k, CancelSend(ride));
  }

  // ---- a legacy request under the ID of an en-route ride ----

  lemma Begin(w: Setting) returns (t: Trace)
    requires w.legacy.None? && w.owed.None? && w.config.Valid()
    ensures Scenario(w, t) && Last(t) == INITIAL
  {
    t := Trace([INITIAL], []);
  }

  lemma FirstRide(w: Setting, id: Id, rider: Id, driver: Id) returns (t: Trace)
    requires IsBlank(w)
    ensures Scenario(w, t) && Idle(t) && LooksFree(t, RideFor(id, rider, driver))
    ensures Last(t).ledger == map[id := RideFor(id, rider, driver)]
    ensures forall p :: p != rider ==> Last(t).store.RequestOf(p).None?
    ensures forall r :: r != id ==> Last(t).store.RideOf(r).None?
  {
    var start := Begin(w);
    start := Offer(w, start, driver);
    t := RideLooksFree(w, start, id, rider, driver);
  }

  function Legacy(id: Id): Request {
    Request(id, None, HERE, None)
  }

  /** The request comes in, and from now on the run is known for it. */
  lemma LegacyComesIn(w: Setting, t: Trace, id: Id, driver: Id) returns (v: Setting, u: Trace)
    requires Scenario(w, t) && IdIsFree(t, id)
    ensures v == w.(legacy := Some(Admission(|t.steps|, id, Count(t), Last(t).store.EnRouteNow(id)))) && Scenario(v, u)
    ensures Becomes(t, u, Last(t).clients + [FindStatuses(Legacy(id), [driver])], Last(t).store)
  {
    v := w.(legacy := Some(Admission(|t.steps|, id, Count(t), Last(t).store.EnRouteNow(id))));
    u := Enter(w, t, FindStatuses(Legacy(id), [driver]));
    forall i: nat | i < |u.steps| ensures AllowedAt(v, u, i) {
      assert AllowedAt(w, u, i);
    }
    assert u.states[|t.steps|] == Last(t);
  }

  lemma LegacyLocks(w: Setting, t: Trace, id: Id, driver: Id) returns (v: Setting, u: Trace)
    requires Scenario(w, t) && IdIsFree(t, id)
    requires Last(t).store.StatusOf(driver) == Some(Available) && Last(t).store.LockOf(driver).None?
    ensures v == w.(legacy := Some(Admission(|t.steps|, id, Count(t), Last(t).store.EnRouteNow(id)))) && Scenario(v, u)
    ensures Becomes(t, u, Last(t).clients + [CheckOwner(Legacy(id), driver, [])],
                    SetLockIfAbsent(w.config, Last(t).store, driver, id).0)
  {
    var k := Count(t);
    v, u := LegacyComesIn(w, t, id, driver);
    u := Chosen(v, u, k, Legacy(id), driver);
    assert Last(u).clients == Last(t).clients + [TakeLock(Legacy(id), driver, [])];
    u := Locked(v, u, k, Legacy(id), driver);
  }

  lemma LockFacts(config: Config, s: Store, driver: Id, id: Id)
    requires config.Valid() && s.LockOf(driver).None?
    ensures var t := SetLockIfAbsent(config, s, driver, id).0;
            t.LockOf(driver) == Some(id) && t.statuses == s.statuses && SameRides(s, t)
  {
  }

  predicate IsLegacy(w: Setting, id: Id, enRoute: bool) {
    w.legacy.Some? && w.legacy.value.id == id && w.legacy.value.enRoute == enRoute
  }

  /** All but client `k` have finished. */
  predicate Alone(t: Trace, k: nat, c: Client) {
    At(t, k, c) && forall i :: 0 <= i < Count(t) && i != k ==> Last(t).clients[i].Finished?
  }

  /** The ride's cancel deletes the lock that the legacy request has taken for itself. */
  lemma LegacyLosesLock(w: Setting, id: Id, rider: Id, driver: Id) returns (v: Setting, t: Trace)
    requires IsBlank(w)
    ensures v == w.(legacy := v.legacy) && IsLegacy(v, id, true) && Scenario(v, t)
    ensures Alone(t, v.legacy.value.index, ClaimDriver(Legacy(id), driver, []))
    ensures Last(t).ledger.Keys == {id} && Last(t).store.LockOf(driver).None? && Last(t).store.OwnerOf(driver).None?
    ensures Last(t).store.StatusOf(driver) == Some(Available)
    ensures forall p :: Last(t).store.RequestOf(p).None?
    ensures forall r :: r != id ==> Last(t).store.RideOf(r).None?
  {
    v, t := LegacyWaits(w, id, rider, driver);
    var k := v.legacy.value.index;
    t := Cancels(v, t, RideFor(id, rider, driver));
    t := FoundUnowned(v, t, k, Legacy(id), driver);
  }

  /** It holds the lock of the driver whose ride it shares the ID with. */
  lemma LegacyWaits(w: Setting, id: Id, rider: Id, driver: Id) returns (v: Setting, t: Trace)
    requires IsBlank(w)
    ensures v == w.(legacy := v.legacy) && IsLegacy(v, id, true) && Scenario(v, t)
    ensures Alone(t, v.legacy.value.index, CheckOwner(Legacy(id), driver, []))
    ensures Last(t).ledger.Keys == {id} && Last(t).store.LockOf(driver) == Some(id)
    ensures Last(t).store.StatusOf(driver) == Some(Available)
    ensures Last(t).store.RideOf(id) == Some(RideFor(id, rider, driver))
    ensures Last(t).store.OwnerOf(driver) == Some(id) && Last(t).store.RequestOf(rider) == Some(id)
    ensures forall p :: p != rider ==> Last(t).store.RequestOf(p).None?
    ensures forall r :: r != id ==> Last(t).store.RideOf(r).None?
  {
    t := FirstRide(w, id, rider, driver);
    var before := Last(t).store;
    v, t := LegacyHolds(w, t, id, driver);
    SameRidesLookSame(before, Last(t).store);
  }

  lemma LegacyHolds(w: Setting, t: Trace, id: Id, driver: Id) returns (v: Setting, u: Trace)
    requires Scenario(w, t) && Idle(t)
    requires Last(t).store.StatusOf(driver) == Some(Available) && Last(t).store.LockOf(driver).None?
    ensures v == w.(legacy := v.legacy) && IsLegacy(v, id, Last(t).store.EnRouteNow(id)) && Scenario(v, u)
    ensures Alone(u, v.legacy.value.index, CheckOwner(Legacy(id), driver, []))
    ensures SameRides(Last(t).store, Last(u).store) && Last(u).ledger == Last(t).ledger
    ensures Last(u).store.LockOf(driver) == Some(id) && Last(u).store.StatusOf(driver) == Some(Available)
  {
    LockFacts(w.config, Last(t).store, driver, id);
    v, u := LegacyLocks(w, t, id, driver);
  }

  /** Another ride comes to own the driver, who is then set available. */
  lemma OtherTakesDriver(w: Setting, t: Trace, k: nat, c: Client, other: Id, rider: Id, driver: Id) returns (u: Trace)
    requires Scenario(w, t) && w.config.Valid() && At(t, k, c)
    requires CanRide(w, t, RequestFor(other, rider), driver)
    ensures Scenario(w, u) && At(u, k, c)
    ensures Last(u).store.OwnerOf(driver) == Some(other) && Last(u).store.StatusOf(driver) == Some(Available)
    ensures Last(u).store.EnRouteNow(other)
  {
    u := Ride(w, t, RequestFor(other, rider), driver);
    u := Offer(w, u, driver);
  }

  /** At step `i` of the run the legacy request that came in at step `k` is given a driver that
      `other` owns; `enRoute` says if a ride was en route under its ID when it came in. */
  ghost predicate Mishap(config: Config, t: Trace, k: nat, id: Id, enRoute: bool, i: nat, driver: Id, other: Id) {
    && LegacySuccess(config, t, k, id, i, driver)
    && t.states[k].store.EnRouteNow(id) == enRoute
    && t.states[i + 1].store.OwnerOf(driver) == Some(other)
  }

  lemma LegacyClaims(w: Setting, t: Trace, id: Id, enRoute: bool, driver: Id, other: Id)
    returns (u: Trace, k: nat, i: nat)
    requires Scenario(w, t) && IsLegacy(w, id, enRoute)
    requires At(t, w.legacy.value.index, ClaimDriver(Legacy(id), driver, []))
    requires Last(t).store.StatusOf(driver) == Some(Available) && Last(t).store.OwnerOf(driver) == Some(other)
    ensures Scenario(w, u) && Mishap(w.config, u, k, id, enRoute, i, driver, other)
  {
    k, i := w.legacy.value.at, |t.steps|;
    u := Answer(w, t, w.legacy.value.index, ClaimDriver(Legacy(id), driver, []));
    assert StepOf(w.config, u, i);
    assert u.states[i + 1] == Last(u);
  }

  lemma LegacyMishap(w: Setting, id: Id, other: Id, driver: Id, rider: Id, otherRider: Id)
    returns (v: Setting, t: Trace, k: nat, i: nat)
    requires IsBlank(w) && other != id
    ensures v == w.(legacy := v.legacy) && Scenario(v, t) && Mishap(v.config, t, k, id, true, i, driver, other)
  {
    v, t := LegacyOvertaken(w, id, other, driver, rider, otherRider);
    t, k, i := LegacyClaims(v, t, id, true, driver, other);
  }

  lemma LegacyOvertaken(w: Setting, id: Id, other: Id, driver: Id, rider: Id, otherRider: Id)
    returns (v: Setting, t: Trace)
    requires IsBlank(w) && other != id
    ensures v == w.(legacy := v.legacy) && IsLegacy(v, id, true) && Scenario(v, t)
    ensures At(t, v.legacy.value.index, ClaimDriver(Legacy(id), driver, []))
    ensures Last(t).store.OwnerOf(driver) == Some(other) && Last(t).store.StatusOf(driver) == Some(Available)
  {
    v, t := LegacyLosesLock(w, id, rider, driver);
    var c := ClaimDriver(Legacy(id), driver, []);
    assert CanRide(v, t, RequestFor(other, otherRider), driver);
    t := OtherTakesDriver(v, t, v.legacy.value.index, c, other, otherRider, driver);
  }

  /** Distinct IDs in flight, timely claims and untouched locks are not enough. In every
      configuration, a legacy request that comes in under the ID of an en-route ride can lose its lock
      to that ride's cancel, and be given a driver that any other ride has come to own. No reply need
      be lost where records outlive locks. */
  lemma LegacyReuseTakesOwned(config: Config, id: Id, other: Id, driver: Id, rider: Id, otherRider: Id)
    requires config.Valid() && other != id
    ensures exists w: Setting, t: Trace, k: nat, i: nat ::
              && w.config == config && !w.reuse && w.lossy == LosesReplies(config) && Scenario(w, t)
              && Mishap(config, t, k, id, true, i, driver, other)
  {
    var v, t, k, i := LegacyMishap(SettingFor(config, false), id, other, driver, rider, otherRider);
  }

  // ---- locks that outlast records ----

  /** An own lock is new, or was own before and lasts at least as long. */
  lemma HoldingGrows(config: Config, s: Store, command: Command, driver: Id, id: Id)
    requires LocksAreShort(config, s) && Execute(config, s, command).0.LockOf(driver) == Some(id)
    ensures var deadline := Execute(config, s, command).0.locks[driver].deadline;
            || deadline == s.now + config.lockTTL
            || (s.LockOf(driver) == Some(id) && deadline == s.locks[driver].deadline)
  {
  }

  /** What a claim is due never comes earlier. */
  lemma DueGrows(config: Config, t: Trace, k: nat, n: nat)
    requires config.Valid() && IsRun(config, t) && n < |t.steps|
    ensures Due(t, k, n) <= Due(t, k, n + 1)
  {
    assert StepOf(config, t, n);
    DueIsNear(config, t, k, n);
    if Holding(t.states[n + 1], k) {
      HolderHeld(config, t.states[n], t.steps[n], k);
      RunLocksAreShort(config, t, n);
      var d := t.states[n + 1].clients[k];
      if Sent(t.states[n], t.steps[n]).Some? {
        HoldingGrows(config, t.states[n].store, Sent(t.states[n], t.steps[n]).value, d.driver, d.request.id);
      }
    }
  }

  /** Who holds its lock after a step either held it before, or the lock is new. */
  lemma HolderHeld(config: Config, sys: System, step: Step, k: nat)
    requires config.Valid() && Enabled(sys, step) && Holding(Apply(config, sys, step), k)
    ensures var d := Apply(config, sys, step).clients[k];
            sys.store.LockOf(d.driver) == Some(d.request.id) ==> Holding(sys, k) && sys.clients[k].driver == d.driver
  {
    if step.Run? && step.index == k {
      NextRequestIsKept(config, sys, step);
    }
  }

  lemma {:induction false} StillDue(config: Config, t: Trace, k: nat, m: nat, n: nat)
    requires config.Valid() && IsRun(config, t) && m <= n < |t.states|
    ensures Due(t, k, m) <= Due(t, k, n)
    decreases n
  {
    if m < n {
      StillDue(config, t, k, m, n - 1);
      DueGrows(config, t, k, n - 1);
    }
  }

  /** A claim that has lost its lock may wait as long as the lock would have lasted. */
  lemma WaitOwed(w: Setting, t: Trace, c: Client, now: int) returns (u: Trace)
    requires Scenario(w, t) && w.owed.Some? && Alone(t, w.owed.value.index, c)
    requires Last(t).store.now <= now < w.owed.value.until
    ensures Scenario(w, u) && Becomes(t, u, Last(t).clients, Last(t).store.(now := now))
  {
    StillDue(w.config, t, w.owed.value.index, w.owed.value.at, |t.states| - 1);
    u := Extend(w, t, Tick(now));
  }

  /** A second request under the ride's ID, for another rider, holds the lock of the ride's driver. */
  lemma ClaimBegins(w: Setting, id: Id, rider: Id, second: Id, driver: Id) returns (v: Setting, t: Trace)
    requires w.legacy.None? && w.owed.None? && w.config.Valid() && w.lossy && second != rider
    ensures v == w.(owed := v.owed) && v.owed.Some? && Scenario(v, t)
    ensures v.owed.value.until == Last(t).store.now + w.config.lockTTL
    ensures Alone(t, v.owed.value.index, CheckOwner(RequestFor(id, second), driver, []))
    ensures Last(t).store.LockOf(driver) == Some(id) && Last(t).store.StatusOf(driver) == Some(Available)
    ensures Last(t).store.RideOf(id) == Some(RideFor(id, rider, driver))
    ensures Last(t).store.OwnerOf(driver) == Some(id) && Last(t).store.RequestOf(rider) == Some(id)
    ensures forall p :: p != rider ==> Last(t).store.RequestOf(p).None?
    ensures forall r :: r != id ==> Last(t).store.RideOf(r).None?
  {
    t := FirstRide(w, id, rider, driver);
    var k := Count(t);
    LockFacts(w.config, Last(t).store, driver, id);
    SameRidesLookSame(Last(t).store, SetLockIfAbsent(w.config, Last(t).store, driver, id).0);
    t := SecondLocks(w, t, RequestFor(id, second), driver);
    v := w.(owed := Some(Owed(|t.states| - 1, k, Last(t).store.now + w.config.lockTTL)));
    forall i: nat | i < |t.steps| ensures AllowedAt(v, t, i) { assert AllowedAt(w, t, i); }
  }

  lemma SecondLocks(w: Setting, t: Trace, request: Request, driver: Id) returns (u: Trace)
    requires Scenario(w, t) && request.rider.Some? && IdIsFree(t, request.id)
    requires Last(t).store.RequestOf(request.rider.value).None?
    requires Last(t).store.StatusOf(driver) == Some(Available) && Last(t).store.LockOf(driver).None?
    ensures Scenario(w, u)
    ensures Becomes(t, u, Last(t).clients + [CheckOwner(request, driver, [])],
                    SetLockIfAbsent(w.config, Last(t).store, driver, request.id).0)
    ensures Due(u, Count(t), |u.states| - 1) == Last(u).store.now + w.config.lockTTL
  {
    var k := Count(t);
    u := DriverFound(w, t, request, driver);
    u := Locked(w, u, k, request, driver);
    assert At(u, k, CheckOwner(request, driver, []));
  }

  /** The ride's cancel deletes that lock, and the claim goes on without it. */
  lemma ClaimLosesLock(w: Setting, id: Id, rider: Id, second: Id, driver: Id) returns (v: Setting, t: Trace)
    requires w.legacy.None? && w.owed.None? && w.config.Valid() && w.lossy && second != rider
    ensures v == w.(owed := v.owed) && v.owed.Some? && Scenario(v, t)
    ensures v.owed.value.until == Last(t).store.now + w.config.lockTTL
    ensures Alone(t, v.owed.value.index, RecordRide(RequestFor(id, second), driver, []))
    ensures Last(t).store.LockOf(driver).None? && Last(t).store.OwnerOf(driver).None?
    ensures id in Last(t).store.rides && Last(t).store.rides[id].deadline == Last(t).store.now + w.config.rideTTL
    ensures forall p :: Last(t).store.RequestOf(p).None?
    ensures forall r :: r != id ==> Last(t).store.RideOf(r).None?
  {
    v, t := ClaimBegins(w, id, rider, second, driver);
    t := Cancels(v, t, RideFor(id, rider, driver));
    var before := Last(t).store;
    t := ClaimGoesOn(v, t, v.owed.value.index, RequestFor(id, second), driver);
    SameRidesLookSame(before, Last(t).store);
  }

  lemma ClaimGoesOn(w: Setting, t: Trace, k: nat, request: Request, driver: Id) returns (u: Trace)
    requires Scenario(w, t) && Alone(t, k, CheckOwner(request, driver, []))
    requires request.rider.Some? && ValidCoordinates(request.PickupPoint())
    requires Last(t).store.OwnerOf(driver).None? && Last(t).store.StatusOf(driver) == Some(Available)
    ensures Scenario(w, u) && Alone(u, k, RecordRide(request, driver, []))
    ensures SameRides(Last(t).store, Last(u).store) && Last(u).store.LockOf(driver) == Last(t).store.LockOf(driver)
  {
    u := FoundUnowned(w, t, k, request, driver);
    assert At(u, k, ClaimDriver(request, driver, []));
    u := ClaimedBusy(w, u, k, request, driver);
  }

  /** It goes on until the record has expired. */
  lemma ClaimOutlastsRecord(w: Setting, id: Id, rider: Id, second: Id, driver: Id) returns (v: Setting, t: Trace)
    requires w.legacy.None? && w.owed.None? && w.config.Valid() && w.lossy && second != rider
    requires w.config.rideTTL < w.config.lockTTL
    ensures v == w.(owed := v.owed) && v.owed.Some? && Scenario(v, t)
    ensures Alone(t, v.owed.value.index, RecordRide(RequestFor(id, second), driver, []))
    ensures Last(t).store.LockOf(driver).None? && Last(t).store.OwnerOf(driver).None?
    ensures forall p :: Last(t).store.RequestOf(p).None?
    ensures forall r :: Last(t).store.RideOf(r).None?
  {
    v, t := ClaimLosesLock(w, id, rider, second, driver);
    var before := Last(t).store;
    t := WaitOwed(v, t, RecordRide(RequestFor(id, second), driver, []), before.now + w.config.rideTTL);
    forall p ensures Last(t).store.RequestOf(p).None? { assert before.RequestOf(p).None?; }
    forall r ensures Last(t).store.RideOf(r).None? { assert r != id ==> before.RideOf(r).None?; }
  }

  /** A legacy request of any other ID takes the free lock and finds the driver unowned. */
  lemma LegacyFollows(w: Setting, t: Trace, k: nat, c: Client, id: Id, driver: Id) returns (v: Setting, u: Trace)
    requires Scenario(w, t) && At(t, k, c) && IdIsFree(t, id)
    requires Last(t).store.LockOf(driver).None? && Last(t).store.OwnerOf(driver).None?
    requires forall p :: Last(t).store.RequestOf(p).None?
    requires forall r :: Last(t).store.RideOf(r).None?
    ensures v == w.(legacy := v.legacy) && IsLegacy(v, id, false) && Scenario(v, u)
    ensures At(u, k, c) && At(u, v.legacy.value.index, ClaimDriver(Legacy(id), driver, []))
    ensures Last(u).store.StatusOf(driver) == Some(Available) && Last(u).store.OwnerOf(driver).None?
    ensures forall p :: Last(u).store.RequestOf(p).None?
    ensures forall r :: Last(u).store.RideOf(r).None?
  {
    u := Offer(w, t, driver);
    var offered := Last(u).store;
    assert forall p :: offered.RequestOf(p) == Last(t).store.RequestOf(p);
    assert forall r :: offered.RideOf(r) == Last(t).store.RideOf(r);
    LockFacts(w.config, offered, driver, id);
    SameRidesLookSame(offered, SetLockIfAbsent(w.config, offered, driver, id).0);
    v, u := LegacyLocks(w, u, id, driver);
    u := FoundUnowned(v, u, v.legacy.value.index, Legacy(id), driver);
  }

  /** Then the first claim creates the ride again under the expired ID. */
  lemma LateCreateTakesDriver(w: Setting, id: Id, driver: Id, other: Id, rider: Id, second: Id)
    returns (v: Setting, t: Trace)
    requires w == SettingFor(w.config, true) && w.config.Valid() && w.config.rideTTL < w.config.lockTTL
    requires id != other && rider != second
    ensures v.config == w.config && IsLegacy(v, id, false) && Scenario(v, t)
    ensures At(t, v.legacy.value.index, ClaimDriver(Legacy(id), driver, []))
    ensures Last(t).store.OwnerOf(driver) == Some(other) && Last(t).store.StatusOf(driver) == Some(Available)
  {
    v, t := ClaimOutlastsRecord(w, other, rider, second, driver);
    var k, request := v.owed.value.index, RequestFor(other, second);
    v, t := LegacyFollows(v, t, k, RecordRide(request, driver, []), id, driver);
    assert v.legacy.value.index != k;
    t := CreatesLate(v, t, k, request, driver);
  }

  lemma CreatesLate(w: Setting, t: Trace, k: nat, request: Request, driver: Id) returns (u: Trace)
    requires Scenario(w, t) && w.reuse && request.rider.Some? && At(t, k, RecordRide(request, driver, []))
    requires Last(t).store.OwnerOf(driver).None?
    requires forall p :: Last(t).store.RequestOf(p).None?
    requires forall r :: Last(t).store.RideOf(r).None?
    ensures Scenario(w, u) && Last(u).clients == Last(t).clients[k := Finished(Assigned(driver))]
    ensures Last(u).store.OwnerOf(driver) == Some(request.id)
    ensures Last(u).store.StatusOf(driver) == Last(t).store.StatusOf(driver)
  {
    CreateFacts(w.config, Last(t).store, request.RideWith(driver));
    u := RideRecorded(w, t, k, request, driver);
  }

  /** Where locks outlast records, an expired ID created again is enough: any legacy request, even
      one whose ID never had a ride, can be given an owned driver. */
  lemma LateCreateTakesOwned(config: Config, id: Id, driver: Id, other: Id, rider: Id, second: Id)
    requires config.Valid() && config.rideTTL < config.lockTTL && id != other && rider != second
    ensures exists t: Trace, k: nat, i: nat ::
              PacedRun(config, t) && Mishap(config, t, k, id, false, i, driver, other)
  {
    var v, t := LateCreateTakesDriver(SettingFor(config, true), id, driver, other, rider, second);
    var u, k, i := LegacyClaims(v, t, id, false, driver, other);
    ScenarioIsPaced(v, u);
  }

  // ---- exactly which legacy requests are safe ----

  /** Of the legacy requests of one ID, take those that came in while a ride was en route under it
      (`enRoute`), or those that did not, in all paced runs or only in those that create no expired
      ID again (`newIds`): does each of them take only unowned drivers? */
  ghost predicate AlwaysUnowned(config: Config, id: Id, enRoute: bool, newIds: bool) {
    forall t: Trace, k: nat, i: nat, driver: Id ::
      PacedRun(config, t) && (newIds ==> FreshRun(config, t)) && LegacySuccess(config, t, k, id, i, driver)
      && t.states[k].store.EnRouteNow(id) == enRoute ==>
        t.states[i + 1].store.OwnerOf(driver).None?
  }

  /** Exactly those that did not do, if records last at least as long as locks or no expired ID is
      created again. */
  lemma EnRouteAtAdmissionDecides(config: Config, id: Id, enRoute: bool, newIds: bool)
    requires config.Valid()
    ensures AlwaysUnowned(config, id, enRoute, newIds) <==> !enRoute && (newIds || config.lockTTL <= config.rideTTL)
  {
    var other := id + "'";
    if enRoute {
      var v, t, k, i := LegacyMishap(SettingFor(config, false), id, other, "d", "p", "p");
      ScenarioIsPaced(v, t);
    } else if !newIds && config.lockTTL > config.rideTTL {
      LateCreateTakesOwned(config, id, "d", other, "p", "q");
    } else {
      forall t: Trace, k: nat, i: nat, driver: Id
        | PacedRun(config, t) && (newIds ==> FreshRun(config, t)) && LegacySuccess(config, t, k, id, i, driver)
          && !t.states[k].store.EnRouteNow(id)
        ensures t.states[i + 1].store.OwnerOf(driver).None?
      {
        LegacyTakesUnowned(config, t, k, id, i, driver);
      }
    }
  }

  // ---- an expired request ID created again ----

  /** A reset has read which ride is the rider's, and then the ride is cancelled. */
  lemma ResetFindsCancelled(w: Setting, id: Id, rider: Id, driver: Id) returns (t: Trace, k: nat)
    requires IsBlank(w)
    ensures Scenario(w, t) && Alone(t, k, ResetClearBoth(rider, RideFor(id, rider, driver).(status := Cancelled)))
    ensures Last(t).store.RideOf(id).Some? && Last(t).store.rides[id].deadline == Last(t).store.now + w.config.rideTTL
    ensures Last(t).store.LockOf(driver).None? && Last(t).store.OwnerOf(driver).None?
    ensures forall p :: Last(t).store.RequestOf(p).None?
    ensures forall r :: r != id ==> Last(t).store.RideOf(r).None?
  {
    t := FirstRide(w, id, rider, driver);
    k := Count(t);
    t := Enter(w, t, ResetStart(rider));
    t := ResetReads(w, t, k, rider, id);
    t := Cancels(w, t, RideFor(id, rider, driver));
    t := ResetGivesUp(w, t, k, rider, RideFor(id, rider, driver).(status := Cancelled));
  }

  lemma ResetReads(w: Setting, t: Trace, k: nat, rider: Id, id: Id) returns (u: Trace)
    requires Scenario(w, t) && At(t, k, ResetStart(rider)) && Last(t).store.RequestOf(rider) == Some(id)
    ensures Scenario(w, u) && Becomes(t, u, Last(t).clients[k := ResetRead(rider, id)], Last(t).store)
  {
    u := Answer(w, t, k, ResetStart(rider));
  }

  lemma ResetGivesUp(w: Setting, t: Trace, k: nat, rider: Id, ride: Assignment) returns (u: Trace)
    requires Scenario(w, t) && At(t, k, ResetRead(rider, ride.request))
    requires Last(t).store.RideOf(ride.request) == Some(ride) && ride.status != EnRoute
    ensures Scenario(w, u) && Becomes(t, u, Last(t).clients[k := ResetClearBoth(rider, ride)], Last(t).store)
  {
    u := Answer(w, t, k, ResetRead(rider, ride.request));
  }

  lemma ResetClears(w: Setting, t: Trace, k: nat, rider: Id, ride: Assignment) returns (u: Trace)
    requires Scenario(w, t) && At(t, k, ResetClearBoth(rider, ride))
    ensures Scenario(w, u)
    ensures Becomes(t, u, Last(t).clients[k := Finished(Done)],
                    ClearReset(Last(t).store, rider, ride.driver, ride.request))
  {
    u := Answer(w, t, k, ResetClearBoth(rider, ride));
  }

  lemma ClearFacts(s: Store, ride: Assignment)
    requires s.OwnerOf(ride.driver) == Some(ride.request) && s.RequestOf(ride.rider) == Some(ride.request)
    ensures var t := ClearReset(s, ride.rider, ride.driver, ride.request);
            && t.now == s.now && t.locks == s.locks && t.statuses == s.statuses && t.rides == s.rides
            && t.OwnerOf(ride.driver).None? && t.RequestOf(ride.rider).None?
            && (forall p :: s.RequestOf(p).None? ==> t.RequestOf(p).None?)
  {
  }

  /** Pausing before its clearing script, the reset outlives the cancelled ride's record, and the
      same ID is created again for the same pair. */
  lemma ResetPauses(w: Setting, id: Id, rider: Id, driver: Id) returns (t: Trace, k: nat)
    requires w.reuse && IsBlank(w)
    ensures Scenario(w, t) && Alone(t, k, ResetClearBoth(rider, RideFor(id, rider, driver).(status := Cancelled)))
    ensures LooksFree(t, RideFor(id, rider, driver))
    ensures forall p :: p != rider ==> Last(t).store.RequestOf(p).None?
    ensures forall r :: r != id ==> Last(t).store.RideOf(r).None?
  {
    t, k := ResetFindsCancelled(w, id, rider, driver);
    var c := ResetClearBoth(rider, RideFor(id, rider, driver).(status := Cancelled));
    t := RecordExpires(w, t, k, c, id, driver);
    t := RideLooksFree(w, t, id, rider, driver);
  }

  lemma RecordExpires(w: Setting, t: Trace, k: nat, c: Client, id: Id, driver: Id) returns (u: Trace)
    requires Scenario(w, t) && Alone(t, k, c) && !Claiming(c) && w.config.Valid()
    requires Last(t).store.RideOf(id).Some? && Last(t).store.rides[id].deadline == Last(t).store.now + w.config.rideTTL
    requires Last(t).store.LockOf(driver).None? && Last(t).store.OwnerOf(driver).None?
    requires forall p :: Last(t).store.RequestOf(p).None?
    requires forall r :: r != id ==> Last(t).store.RideOf(r).None?
    ensures Scenario(w, u) && Alone(u, k, c)
    ensures Last(u).store.LockOf(driver).None? && Last(u).store.OwnerOf(driver).None?
    ensures Last(u).store.StatusOf(driver) == Some(Available)
    ensures forall p :: Last(u).store.RequestOf(p).None?
    ensures forall r :: Last(u).store.RideOf(r).None?
  {
    u := Wait(w, t, Last(t).store.now + w.config.rideTTL);
    u := Offer(w, u, driver);
    forall p ensures Last(u).store.RequestOf(p).None? { assert Last(t).store.RequestOf(p).None?; }
    forall r ensures Last(u).store.RideOf(r).None? { assert r != id ==> Last(t).store.RideOf(r).None?; }
  }

  /** The reset's clearing script strips the new ride of its driver and rider. */
  lemma ResetStrips(w: Setting, id: Id, rider: Id, driver: Id) returns (t: Trace)
    requires w.reuse && IsBlank(w)
    ensures Scenario(w, t) && Idle(t)
    ensures Last(t).store.RideOf(id) == Some(RideFor(id, rider, driver))
    ensures Last(t).store.LockOf(driver).None? && Last(t).store.OwnerOf(driver).None?
    ensures Last(t).store.StatusOf(driver) == Some(Available)
    ensures forall p :: Last(t).store.RequestOf(p).None?
    ensures forall r :: r != id ==> Last(t).store.RideOf(r).None?
  {
    var k: nat;
    t, k := ResetPauses(w, id, rider, driver);
    var before := Last(t).store;
    ClearFacts(before, RideFor(id, rider, driver));
    t := ResetClears(w, t, k, rider, RideFor(id, rider, driver).(status := Cancelled));
    assert forall r :: Last(t).store.RideOf(r) == before.RideOf(r);
  }

  /** Without the assumption on expired IDs a reset strips the en-route ride that reused its ID, and
      any other ride can then be en route with the same driver. */
  lemma ReuseBreaksExclusivity(config: Config, id: Id, other: Id, driver: Id, rider: Id, otherRider: Id)
    requires config.Valid() && other != id
    ensures exists w: Setting, t: Trace ::
              && w.config == config && w.lossy == LosesReplies(config) && Scenario(w, t)
              && Last(t).store.RideOf(id) == Some(RideFor(id, rider, driver))
              && Last(t).store.RideOf(other) == Some(RideFor(other, otherRider, driver))
              && !Exclusive(Last(t).store)
  {
    var w := SettingFor(config, true);
    var t := ResetStrips(w, id, rider, driver);
    t := Ride(w, t, RequestFor(other, otherRider), driver);
    assert !Held(Last(t).store, id);
  }
}
