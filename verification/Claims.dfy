/** What the leaky lock and busy flag still guarantee: claims of a driver are paid for by writes
    of `available`, and a legacy request made in time takes no durably owned driver, unless a ride
    was en route under its ID when it came in, or locks outlast records and IDs are used again. */
module Claims {
  import opened Keyspace
  import opened Clients
  import opened Ownership
  import opened System
  import opened History

  // ---- claims are conserved, in every run ----

  function ClaimBy(config: Config, s: Store, command: Command, driver: Id): nat {
    if command == BusyCmd(driver) && SetBusy(config, s, driver).1 == 1 then 1 else 0
  }

  /** A write of `available`: REST, rollback or location revival, or a successful cancel. */
  function OfferBy(config: Config, s: Store, command: Command, driver: Id): nat {
    match command
    case StatusCmd(d, status) => if d == driver && status == Some(Available) then 1 else 0
    case CancelCmd(r, d, p) =>
      if d == driver && CancelRide(config, s, r, d, p).1 == 1 && s.StatusOf(d) == Some(Busy) then 1 else 0
    case _ => 0
  }

  function Claim(config: Config, sys: System, step: Step, driver: Id): nat
    requires Enabled(sys, step)
  {
    if Sent(sys, step).Some? then ClaimBy(config, sys.store, Sent(sys, step).value, driver) else 0
  }

  function Offer(config: Config, sys: System, step: Step, driver: Id): nat
    requires Enabled(sys, step)
  {
    if Sent(sys, step).Some? then OfferBy(config, sys.store, Sent(sys, step).value, driver) else 0
  }

  /** A claim takes an available driver and leaves it busy; an offer leaves it available. */
  lemma ClaimsAndOffersMean(config: Config, s: Store, command: Command, driver: Id)
    requires config.Valid()
    ensures var before, after := s.StatusOf(driver), Execute(config, s, command).0.StatusOf(driver);
            && (ClaimBy(config, s, command, driver) == 1 <==>
                command == BusyCmd(driver) && before == Some(Available))
            && (ClaimBy(config, s, command, driver) == 1 ==> after == Some(Busy))
            && (OfferBy(config, s, command, driver) == 1 ==> after == Some(Available))
            && ClaimBy(config, s, command, driver) <= 1 && OfferBy(config, s, command, driver) <= 1
  {
  }

  function Free(s: Store, driver: Id): nat {
    if s.StatusOf(driver) == Some(Available) then 1 else 0
  }

  ghost function ClaimsIn(config: Config, t: Trace, driver: Id, i: nat, j: nat): nat
    requires IsRun(config, t) && i <= j <= |t.steps|
  {
    if i == j then 0
    else
      assert StepOf(config, t, j - 1);
      ClaimsIn(config, t, driver, i, j - 1) + Claim(config, t.states[j - 1], t.steps[j - 1], driver)
  }

  ghost function OffersIn(config: Config, t: Trace, driver: Id, i: nat, j: nat): nat
    requires IsRun(config, t) && i <= j <= |t.steps|
  {
    if i == j then 0
    else
      assert StepOf(config, t, j - 1);
      OffersIn(config, t, driver, i, j - 1) + Offer(config, t.states[j - 1], t.steps[j - 1], driver)
  }

  lemma CommandConservesClaims(config: Config, s: Store, command: Command, driver: Id)
    ensures ClaimBy(config, s, command, driver) + Free(Execute(config, s, command).0, driver)
         <= Free(s, driver) + OfferBy(config, s, command, driver)
  {
    if !TouchesStatuses(command) {
      OthersKeepStatuses(config, s, command);
    } else if command.CancelCmd? || command.ArriveCmd? {
      SettlingConservesClaims(config, s, command, driver);
    } else {
      StatusesConserveClaims(config, s, command, driver);
    }
  }

  lemma SettlingConservesClaims(config: Config, s: Store, command: Command, driver: Id)
    requires command.CancelCmd? || command.ArriveCmd?
    ensures Free(Execute(config, s, command).0, driver) <= Free(s, driver) + OfferBy(config, s, command, driver)
  {
    match command
    case CancelCmd(r, d, p) => CancelConservesClaims(config, s, r, d, p, driver);
    case ArriveCmd(r, p, d) => ArriveKeepsStatuses(config, s, r, p, d, driver);
  }

  lemma StatusesConserveClaims(config: Config, s: Store, command: Command, driver: Id)
    requires command.BusyCmd? || command.StatusCmd? || command.HeartbeatCmd? || command.RefreshCmd?
    ensures ClaimBy(config, s, command, driver) + Free(Execute(config, s, command).0, driver)
         <= Free(s, driver) + OfferBy(config, s, command, driver)
  {
    match command
    case BusyCmd(d) => SetBusyConservesClaims(config, s, d, driver);
    case StatusCmd(_, _) =>
    case HeartbeatCmd(_) =>
    case RefreshCmd(d) => RefreshFreesNobody(config, s, d, driver);
  }

  predicate TouchesStatuses(command: Command) {
    command.CancelCmd? || command.ArriveCmd? || command.BusyCmd? || command.StatusCmd? || command.HeartbeatCmd?
    || command.RefreshCmd?
  }

  lemma OthersKeepStatuses(config: Config, s: Store, command: Command)
    requires !TouchesStatuses(command)
    ensures Execute(config, s, command).0.statuses == s.statuses && Execute(config, s, command).0.now == s.now
  {
  }

  lemma SetBusyConservesClaims(config: Config, s: Store, driver: Id, other: Id)
    ensures ClaimBy(config, s, BusyCmd(driver), other) + Free(SetBusy(config, s, driver).0, other) <= Free(s, other)
  {
  }

  lemma RefreshFreesNobody(config: Config, s: Store, driver: Id, other: Id)
    ensures Free(RefreshDriver(config, s, driver).0, other) <= Free(s, other)
  {
  }

  lemma CancelConservesClaims(config: Config, s: Store, request: Id, driver: Id, rider: Id, other: Id)
    ensures Free(CancelRide(config, s, request, driver, rider).0, other)
         <= Free(s, other) + OfferBy(config, s, CancelCmd(request, driver, rider), other)
  {
  }

  lemma ArriveKeepsStatuses(config: Config, s: Store, request: Id, rider: Id, driver: Id, other: Id)
    ensures Free(ArriveRide(config, s, request, rider, driver).0, other) == Free(s, other)
  {
  }

  lemma StepConservesClaims(config: Config, sys: System, step: Step, driver: Id)
    requires Enabled(sys, step)
    ensures Claim(config, sys, step, driver) + Free(Apply(config, sys, step).store, driver)
         <= Free(sys.store, driver) + Offer(config, sys, step, driver)
  {
    if Sent(sys, step).Some? {
      CommandConservesClaims(config, sys.store, Sent(sys, step).value, driver);
    }
  }

  lemma {:induction false} ClaimsConserved(config: Config, t: Trace, driver: Id, i: nat, j: nat)
    requires IsRun(config, t) && i <= j <= |t.steps|
    ensures ClaimsIn(config, t, driver, i, j) + Free(t.states[j].store, driver)
         <= Free(t.states[i].store, driver) + OffersIn(config, t, driver, i, j)
  {
    if i < j {
      ClaimsConserved(config, t, driver, i, j - 1);
      assert StepOf(config, t, j - 1);
      StepConservesClaims(config, t.states[j - 1], t.steps[j - 1], driver);
    }
  }

  /** From the empty store: successful claims, plus one if the driver is available now, never
      exceed the writes of `available`. */
  lemma ClaimsArePaidFor(config: Config, t: Trace, driver: Id, n: nat)
    requires IsRun(config, t) && n <= |t.steps|
    ensures ClaimsIn(config, t, driver, 0, n) + Free(t.states[n].store, driver) <= OffersIn(config, t, driver, 0, n)
  {
    ClaimsConserved(config, t, driver, 0, n);
  }

  /** Two claims of a driver always have a write of `available` between them. */
  lemma ReleaseBetweenClaims(config: Config, t: Trace, driver: Id, i: nat, j: nat)
    requires IsRun(config, t) && i < j < |t.steps|
    requires StepOf(config, t, i) && StepOf(config, t, j)
    requires Claim(config, t.states[i], t.steps[i], driver) == 1
    requires Claim(config, t.states[j], t.steps[j], driver) == 1
    ensures OffersIn(config, t, driver, i + 1, j) >= 1
  {
    ClaimsConserved(config, t, driver, i + 1, j);
    ClaimTakesFree(config, t.states[i], t.steps[i], driver);
    ClaimTakesFree(config, t.states[j], t.steps[j], driver);
  }

  lemma ClaimTakesFree(config: Config, sys: System, step: Step, driver: Id)
    requires Enabled(sys, step) && Claim(config, sys, step, driver) == 1
    ensures Free(sys.store, driver) == 1 && Free(Apply(config, sys, step).store, driver) == 0
  {
  }

  // ---- claims made in time ----

  /** A dispatch request in flight. */
  predicate Finding(c: Client) {
    c.FindActive? || c.FindActiveRide? || c.FindStatuses? || c.TakeLock? || c.CheckOwner? || c.ClaimDriver?
    || c.RecordRide? || c.SkipUnlock? || c.ConflictUnlock? || c.ConflictRefresh? || c.ConflictRestore?
    || c.FailUnlock? || c.RollbackUnlock? || c.RollbackRestore?
  }

  /** Between winning the lock and recording or giving up. */
  predicate Claiming(c: Client) {
    c.CheckOwner? || c.ClaimDriver? || c.RecordRide?
  }

  predicate LockIsOwn(s: Store, c: Client)
    requires Claiming(c)
  {
    s.LockOf(c.driver) == Some(c.request.id)
  }

  /** Request IDs in flight are distinct, and the demo does not clear locks. */
  predicate Orderly(sys: System, step: Step)
    requires Enabled(sys, step)
  {
    match step
    case Tick(_) => true
    case Admit(c) => forall i :: 0 <= i < |sys.clients| ==> Distinct(sys.clients[i], c)
    case Run(_, _) => Sent(sys, step).Some? ==> !Sent(sys, step).value.DeleteLocksCmd?
  }

  predicate Distinct(c: Client, d: Client) {
    Finding(c) && Finding(d) ==> c.request.id != d.request.id
  }

  ghost predicate OrderlyAt(t: Trace, i: nat)
    requires i < |t.steps| && |t.states| == |t.steps| + 1
  {
    Enabled(t.states[i], t.steps[i]) ==> Orderly(t.states[i], t.steps[i])
  }

  /** When a claim has to be finished: the deadline its lock had when client `k` last held it. */
  ghost function Due(t: Trace, k: nat, n: nat): int
    requires n < |t.states|
  {
    if Holding(t.states[n], k) then t.states[n].store.locks[t.states[n].clients[k].driver].deadline
    else if n > 0 then Due(t, k, n - 1)
    else 0
  }

  predicate Holding(sys: System, k: nat) {
    k < |sys.clients| && Claiming(sys.clients[k]) && LockIsOwn(sys.store, sys.clients[k])
  }

  /** Every claim under way still has time. */
  ghost predicate OnTime(t: Trace, n: nat)
    requires n < |t.states|
  {
    forall k: nat :: k < |t.states[n].clients| && Claiming(t.states[n].clients[k]) ==>
                       t.states[n].store.now < Due(t, k, n)
  }

  /** Every claim finishes before its own lock's deadline, request IDs in flight are distinct, and
      the demo does not clear locks. Expired IDs may be created again. */
  ghost predicate PacedRun(config: Config, t: Trace) {
    && IsRun(config, t)
    && (forall i: nat :: i < |t.steps| ==> OrderlyAt(t, i))
    && (forall n: nat :: n < |t.states| ==> OnTime(t, n))
  }

  // ---- what a claim is due ----

  ghost predicate LocksAreShort(config: Config, s: Store) {
    forall d :: d in s.locks ==> s.locks[d].deadline <= s.now + config.lockTTL
  }

  lemma CommandKeepsLocksShort(config: Config, s: Store, command: Command)
    requires LocksAreShort(config, s)
    ensures LocksAreShort(config, Execute(config, s, command).0)
  {
    if command.LockCmd? || command.UnlockCmd? || command.ExtendCmd? || command.DeleteLocksCmd? {
      LockCommandKeepsShort(config, s, command);
    }
  }

  lemma LockCommandKeepsShort(config: Config, s: Store, command: Command)
    requires LocksAreShort(config, s)
    requires command.LockCmd? || command.UnlockCmd? || command.ExtendCmd? || command.DeleteLocksCmd?
    ensures LocksAreShort(config, Execute(config, s, command).0)
  {
  }

  lemma {:induction false} RunLocksAreShort(config: Config, t: Trace, n: nat)
    requires IsRun(config, t) && n < |t.states|
    ensures LocksAreShort(config, t.states[n].store)
  {
    if n > 0 {
      RunLocksAreShort(config, t, n - 1);
      assert StepOf(config, t, n - 1);
      var sent := Sent(t.states[n - 1], t.steps[n - 1]);
      if sent.Some? { CommandKeepsLocksShort(config, t.states[n - 1].store, sent.value); }
    }
  }

  /** No claim has longer than a lock lifetime from now. */
  lemma {:induction false} DueIsNear(config: Config, t: Trace, k: nat, n: nat)
    requires IsRun(config, t) && n < |t.states|
    ensures Due(t, k, n) <= t.states[n].store.now + config.lockTTL
  {
    if Holding(t.states[n], k) {
      RunLocksAreShort(config, t, n);
    } else if n > 0 {
      DueIsNear(config, t, k, n - 1);
      assert StepOf(config, t, n - 1);
      TimeGoesOn(config, t.states[n - 1], t.steps[n - 1]);
    }
  }

  lemma TimeGoesOn(config: Config, sys: System, step: Step)
    requires Enabled(sys, step)
    ensures sys.store.now <= Apply(config, sys, step).store.now
  {
    if Sent(sys, step).Some? {
      CommandTakesNoTime(config, sys.store, Sent(sys, step).value);
    }
  }

  lemma CommandTakesNoTime(config: Config, s: Store, command: Command)
    ensures Execute(config, s, command).0.now == s.now
  {
  }

  /** The clock does not pass the deadline of a lock that is claimed under. */
  lemma TicksInTime(config: Config, t: Trace, n: nat, k: nat)
    requires PacedRun(config, t) && n < |t.steps| && t.steps[n].Tick? && Holding(t.states[n], k)
    ensures t.steps[n].now < t.states[n].store.locks[t.states[n].clients[k].driver].deadline
  {
    assert StepOf(config, t, n) && OnTime(t, n + 1);
    var due := Due(t, k, n);
    assert Due(t, k, n + 1) == due;
  }

  // ---- what claims for riders hold ----

  predicate Outlasts(s: Store, id: Id, due: int) {
    s.RideOf(id).Some? && due <= s.rides[id].deadline
  }

  /** A claim for a rider holds its lock. Only the cancel of a ride recorded under its ID may have
      deleted it, and that record outlasts the claim unless locks outlast records. */
  predicate RiderHolds(config: Config, sys: System, c: Client, due: int) {
    Claiming(c) && c.request.rider.Some? ==>
      || LockIsOwn(sys.store, c)
      || (c.request.id in sys.ledger && (config.lockTTL <= config.rideTTL ==> Outlasts(sys.store, c.request.id, due)))
  }

  ghost predicate InTime(config: Config, t: Trace, n: nat)
    requires n < |t.states|
  {
    var clients := t.states[n].clients;
    && (forall i, j :: 0 <= i < j < |clients| ==> Distinct(clients[i], clients[j]))
    && (forall k: nat :: k < |clients| ==> RiderHolds(config, t.states[n], clients[k], Due(t, k, n)))
  }

  lemma RequestIsKept(config: Config, c: Client, reply: Reply)
    requires !c.Finished?
    ensures var next := Resume(config, c, reply);
            && (Finding(next) ==> Finding(c) && next.request == c.request)
            && (Claiming(next) ==> (c.TakeLock? || Claiming(c)) && next.driver == c.driver)
  {
  }

  lemma NextRequestIsKept(config: Config, sys: System, step: Step)
    requires Enabled(sys, step) && step.Run?
    ensures var c, next := sys.clients[step.index], NextClient(config, sys, step);
            && (Finding(next) ==> Finding(c) && next.request == c.request)
            && (Claiming(next) ==> (c.TakeLock? || Claiming(c)) && next.driver == c.driver)
  {
    var c := sys.clients[step.index];
    RequestIsKept(config, c, Execute(config, sys.store, Pending(c)).1);
    RequestIsKept(config, c, Error);
  }

  /** A dispatch request unlocks and records only under its own ID. */
  lemma SendsOwnId(c: Client)
    requires !c.Finished?
    ensures Pending(c).UnlockCmd? ==> Finding(c) && Pending(c).request == c.request.id
    ensures Pending(c).CreateCmd? ==> c.RecordRide? && Pending(c).ride == c.request.RideWith(c.driver)
  {
  }

  /** Only its own unlock, the cancel of an en-route ride under the same ID, or lock clearing can
      end a live lock. */
  lemma CommandKeepsLock(config: Config, s: Store, command: Command, driver: Id, request: Id)
    requires config.Valid() && s.LockOf(driver) == Some(request)
    requires !command.DeleteLocksCmd? && command != UnlockCmd(driver, request)
    requires command.CancelCmd? && command.request == request ==> !s.EnRouteNow(request)
    ensures Execute(config, s, command).0.LockOf(driver) == Some(request)
  {
  }

  lemma StepKeepsLock(config: Config, sys: System, step: Step, c: Client)
    requires config.Valid() && Enabled(sys, step) && Orderly(sys, step)
    requires Claiming(c) && LockIsOwn(sys.store, c) && !sys.store.EnRouteNow(c.request.id)
    requires c in sys.clients
    requires step.Tick? ==> step.now < sys.store.locks[c.driver].deadline
    requires step.Run? ==> Distinct(c, sys.clients[step.index])
    ensures LockIsOwn(Apply(config, sys, step).store, c)
  {
    if Sent(sys, step).Some? {
      SendsOwnId(sys.clients[step.index]);
      CommandKeepsLock(config, sys.store, Sent(sys, step).value, c.driver, c.request.id);
    }
  }

  /** When a claim's lock is gone, its ID's ride was cancelled just now. */
  lemma LostLock(config: Config, s: Store, command: Command, driver: Id, request: Id)
    requires config.Valid() && s.LockOf(driver) == Some(request)
    requires !command.DeleteLocksCmd? && command != UnlockCmd(driver, request)
    requires Execute(config, s, command).0.LockOf(driver) != Some(request)
    ensures s.EnRouteNow(request) && Outlasts(Execute(config, s, command).0, request, s.now + config.rideTTL)
  {
    if command.CancelCmd? && command.request == request && s.EnRouteNow(request) {
      CancelOutlasts(config, s, request, command.driver, command.rider);
    } else {
      CommandKeepsLock(config, s, command, driver, request);
    }
  }

  lemma CancelOutlasts(config: Config, s: Store, request: Id, driver: Id, rider: Id)
    requires config.Valid()
    ensures var t := CancelRide(config, s, request, driver, rider).0;
            t.locks == s.locks || Outlasts(t, request, s.now + config.rideTTL)
  {
  }

  lemma CommandKeepsRecord(config: Config, s: Store, command: Command, id: Id, due: int)
    requires config.Valid() && Outlasts(s, id, due) && due <= s.now + config.rideTTL
    ensures Outlasts(Execute(config, s, command).0, id, due)
  {
  }

  /** A claim for a rider that has lost its lock, or loses it now. */
  lemma StepKeepsHolding(config: Config, sys: System, step: Step, c: Client, due: int)
    requires config.Valid() && Enabled(sys, step) && Orderly(sys, step) && Recorded(sys)
    requires Claiming(c) && c.request.rider.Some? && RiderHolds(config, sys, c, due)
    requires c in sys.clients && due <= sys.store.now + config.lockTTL
    requires LockIsOwn(sys.store, c) ==> due == sys.store.locks[c.driver].deadline
    requires step.Tick? ==> step.now < due
    requires step.Run? ==> Distinct(c, sys.clients[step.index]) || c == sys.clients[step.index]
    requires !LockIsOwn(Apply(config, sys, step).store, c)
    ensures RiderHolds(config, Apply(config, sys, step), c, due)
  {
    if Sent(sys, step).Some? {
      var command := Sent(sys, step).value;
      SendsOwnId(sys.clients[step.index]);
      if LockIsOwn(sys.store, c) {
        LostLock(config, sys.store, command, c.driver, c.request.id);
        assert sys.store.RideOf(c.request.id).value.request == c.request.id;
      } else if config.lockTTL <= config.rideTTL {
        CommandKeepsRecord(config, sys.store, command, c.request.id, due);
      }
    }
  }

  lemma TakingLocks(config: Config, sys: System, step: Step)
    requires config.Valid() && Enabled(sys, step) && step.Run? && sys.clients[step.index].TakeLock?
    requires Claiming(NextClient(config, sys, step))
    ensures LockIsOwn(Apply(config, sys, step).store, NextClient(config, sys, step))
  {
  }

  lemma StepKeepsDistinct(config: Config, sys: System, step: Step)
    requires Enabled(sys, step) && Orderly(sys, step)
    requires forall i, j :: 0 <= i < j < |sys.clients| ==> Distinct(sys.clients[i], sys.clients[j])
    ensures var next := Apply(config, sys, step);
            forall i, j :: 0 <= i < j < |next.clients| ==> Distinct(next.clients[i], next.clients[j])
  {
    if step.Run? {
      NextRequestIsKept(config, sys, step);
      var next := Apply(config, sys, step);
      forall i, j | 0 <= i < j < |next.clients| ensures Distinct(next.clients[i], next.clients[j]) {
        assert Distinct(sys.clients[i], sys.clients[j]);
      }
    }
  }

  /** The client that moves and any other are distinct. */
  lemma OthersAreDistinct(sys: System, step: Step, i: nat)
    requires Enabled(sys, step) && i < |sys.clients|
    requires forall i, j :: 0 <= i < j < |sys.clients| ==> Distinct(sys.clients[i], sys.clients[j])
    requires step.Run? && step.index != i
    ensures Distinct(sys.clients[i], sys.clients[step.index])
  {
    assert i < step.index ==> Distinct(sys.clients[i], sys.clients[step.index]);
    assert step.index < i ==> Distinct(sys.clients[step.index], sys.clients[i]);
  }

  /** A client that claims after a step claimed before it, or has just taken its lock. */
  lemma StepKeepsClaiming(config: Config, sys: System, step: Step, k: nat)
    requires config.Valid() && Enabled(sys, step) && k < |Apply(config, sys, step).clients|
    requires Claiming(Apply(config, sys, step).clients[k]) && !Holding(Apply(config, sys, step), k)
    ensures k < |sys.clients| && Claiming(sys.clients[k])
    ensures var c, d := sys.clients[k], Apply(config, sys, step).clients[k];
            d.request == c.request && d.driver == c.driver
  {
    if step.Run? && step.index == k {
      NextRequestIsKept(config, sys, step);
      if sys.clients[k].TakeLock? { TakingLocks(config, sys, step); }
    }
  }

  lemma NextHolds(config: Config, t: Trace, n: nat, k: nat)
    requires config.Valid() && PacedRun(config, t) && n < |t.steps| && InTime(config, t, n)
    requires k < |t.states[n + 1].clients|
    ensures RiderHolds(config, t.states[n + 1], t.states[n + 1].clients[k], Due(t, k, n + 1))
  {
    assert StepOf(config, t, n) && OrderlyAt(t, n) && OnTime(t, n + 1);
    var sys, step, next := t.states[n], t.steps[n], t.states[n + 1];
    var d := next.clients[k];
    if Claiming(d) && d.request.rider.Some? && !Holding(next, k) {
      StepKeepsClaiming(config, sys, step, k);
      assert Due(t, k, n + 1) == Due(t, k, n);
      RunIsRecorded(config, t, n);
      DueIsNear(config, t, k, n);
      if step.Run? && step.index != k { OthersAreDistinct(sys, step, k); }
      StepKeepsHolding(config, sys, step, sys.clients[k], Due(t, k, n));
    }
  }

  lemma {:induction false} PacedRunIsInTime(config: Config, t: Trace, n: nat)
    requires config.Valid() && PacedRun(config, t) && n < |t.states|
    ensures InTime(config, t, n)
  {
    if n > 0 {
      PacedRunIsInTime(config, t, n - 1);
      assert StepOf(config, t, n - 1) && OrderlyAt(t, n - 1);
      StepKeepsDistinct(config, t.states[n - 1], t.steps[n - 1]);
      forall k: nat | k < |t.states[n].clients|
        ensures RiderHolds(config, t.states[n], t.states[n].clients[k], Due(t, k, n))
      {
        NextHolds(config, t, n - 1, k);
      }
    }
  }

  // ---- one legacy request in such a run ----

  /** What keeps a legacy request of this ID safe: no ride is en route under it, so nobody can
      cancel its lock away, and while it holds the lock nobody can record a ride on its driver. */
  predicate LegacySafe(s: Store, c: Client, id: Id) {
    Finding(c) ==>
      && c.request.rider.None? && c.request.id == id && !s.EnRouteNow(id)
      && (Claiming(c) ==> LockIsOwn(s, c))
      && (c.ClaimDriver? ==> s.OwnerOf(c.driver).None?)
  }

  lemma CreateNeedsRoom(config: Config, s: Store, command: Command, driver: Id)
    requires s.OwnerOf(driver).None?
    requires command.CreateCmd? && command.ride.driver == driver ==> !Creates(config, s, command)
    ensures Execute(config, s, command).0.OwnerOf(driver).None?
  {
  }

  /** A client that could record a ride on the driver would hold its lock: without it, the create
      script still finds the record whose cancel deleted the lock. */
  lemma OthersKeepUnowned(config: Config, sys: System, step: Step, c: Client, due: int)
    requires Enabled(sys, step) && (config.lockTTL <= config.rideTTL || Fresh(config, sys, step))
    requires c.ClaimDriver? && LockIsOwn(sys.store, c) && sys.store.OwnerOf(c.driver).None?
    requires step.Run? ==> Distinct(c, sys.clients[step.index]) && RiderHolds(config, sys, sys.clients[step.index], due)
    ensures Apply(config, sys, step).store.OwnerOf(c.driver).None?
  {
    if Sent(sys, step).Some? {
      SendsOwnId(sys.clients[step.index]);
      CreateNeedsRoom(config, sys.store, Sent(sys, step).value, c.driver);
    }
  }

  /** No ride comes to be en route under an ID that only this request could record. */
  lemma StaysOffRoute(config: Config, sys: System, step: Step, c: Client)
    requires Enabled(sys, step) && Finding(c) && !sys.store.EnRouteNow(c.request.id)
    requires step.Run? ==>
               || Distinct(c, sys.clients[step.index])
               || (c == sys.clients[step.index] && c.request.rider.None?)
    ensures !Apply(config, sys, step).store.EnRouteNow(c.request.id)
  {
    if Sent(sys, step).Some? {
      SendsOwnId(sys.clients[step.index]);
      OnlyCreatesStart(config, sys.store, Sent(sys, step).value, c.request.id);
    }
  }

  lemma OnlyCreatesStart(config: Config, s: Store, command: Command, id: Id)
    requires !s.EnRouteNow(id) && (command.CreateCmd? ==> command.ride.request != id)
    ensures !Execute(config, s, command).0.EnRouteNow(id)
  {
    RideAfter(config, s, command, id);
  }

  lemma OthersKeepLegacySafe(config: Config, sys: System, step: Step, c: Client, id: Id, due: int)
    requires config.Valid() && Enabled(sys, step) && Orderly(sys, step)
    requires config.lockTTL <= config.rideTTL || Fresh(config, sys, step)
    requires LegacySafe(sys.store, c, id) && c in sys.clients
    requires step.Tick? && Claiming(c) ==> step.now < sys.store.locks[c.driver].deadline
    requires step.Run? ==> Distinct(c, sys.clients[step.index]) && RiderHolds(config, sys, sys.clients[step.index], due)
    ensures LegacySafe(Apply(config, sys, step).store, c, id)
  {
    if Finding(c) {
      StaysOffRoute(config, sys, step, c);
      if Claiming(c) { StepKeepsLock(config, sys, step, c); }
      if c.ClaimDriver? { OthersKeepUnowned(config, sys, step, c, due); }
    }
  }

  lemma OwnKeepsLegacySafe(config: Config, sys: System, step: Step, id: Id)
    requires config.Valid() && Enabled(sys, step) && step.Run?
    requires LegacySafe(sys.store, sys.clients[step.index], id)
    ensures LegacySafe(Apply(config, sys, step).store, NextClient(config, sys, step), id)
  {
    NextRequestIsKept(config, sys, step);
    if Finding(NextClient(config, sys, step)) {
      StaysOffRoute(config, sys, step, sys.clients[step.index]);
    }
  }

  /** Step `k` admits a legacy request with this ID. */
  predicate AdmitsLegacy(t: Trace, k: nat, id: Id) {
    && k < |t.steps| && k < |t.states| && t.steps[k].Admit? && Finding(t.steps[k].client)
    && t.steps[k].client.request.rider.None? && t.steps[k].client.request.id == id
  }

  /** A run in which a lost lock cannot come back to harm anybody: records outlast locks, or no
      expired ID is created again. */
  ghost predicate RecordsOutlast(config: Config, t: Trace) {
    config.lockTTL <= config.rideTTL || FreshRun(config, t)
  }

  lemma {:induction false} LegacyStaysSafe(config: Config, t: Trace, k: nat, id: Id, n: nat)
    requires config.Valid() && PacedRun(config, t) && RecordsOutlast(config, t)
    requires AdmitsLegacy(t, k, id) && k < n < |t.states| && !t.states[k].store.EnRouteNow(id)
    ensures |t.states[k].clients| < |t.states[n].clients|
    ensures LegacySafe(t.states[n].store, t.states[n].clients[|t.states[k].clients|], id)
  {
    assert StepOf(config, t, n - 1);
    if n > k + 1 {
      LegacyStaysSafe(config, t, k, id, n - 1);
      LegacyStep(config, t, |t.states[k].clients|, id, n - 1);
    }
  }

  lemma LegacyStep(config: Config, t: Trace, i: nat, id: Id, n: nat)
    requires config.Valid() && PacedRun(config, t) && RecordsOutlast(config, t)
    requires n < |t.steps| && i < |t.states[n].clients| && LegacySafe(t.states[n].store, t.states[n].clients[i], id)
    ensures i < |t.states[n + 1].clients| && LegacySafe(t.states[n + 1].store, t.states[n + 1].clients[i], id)
  {
    assert StepOf(config, t, n) && OrderlyAt(t, n) && (FreshRun(config, t) ==> FreshAt(config, t, n));
    var sys, step := t.states[n], t.steps[n];
    PacedRunIsInTime(config, t, n);
    if step.Run? && step.index == i {
      OwnKeepsLegacySafe(config, sys, step, id);
    } else {
      if step.Run? { OthersAreDistinct(sys, step, i); }
      if step.Tick? && Claiming(sys.clients[i]) { TicksInTime(config, t, n, i); }
      OthersKeepLegacySafe(config, sys, step, sys.clients[i], id, if step.Run? then Due(t, step.index, n) else 0);
    }
  }

  /** The legacy request admitted at step `k` is told at step `i` that it has got `driver`. */
  ghost predicate LegacySuccess(config: Config, t: Trace, k: nat, id: Id, i: nat, driver: Id) {
    && AdmitsLegacy(t, k, id) && k < i < |t.steps| && |t.states| == |t.steps| + 1
    && StepOf(config, t, i)
    && t.steps[i].Run? && t.steps[i].index == |t.states[k].clients|
    && NextClient(config, t.states[i], t.steps[i]) == Finished(Assigned(driver))
  }

  /** A legacy request whose ID had no en-route ride when it came in takes only drivers without a
      live durable owner, and its lock is its own at that moment. */
  lemma LegacyTakesUnowned(config: Config, t: Trace, k: nat, id: Id, i: nat, driver: Id)
    requires config.Valid() && PacedRun(config, t) && RecordsOutlast(config, t)
    requires LegacySuccess(config, t, k, id, i, driver) && !t.states[k].store.EnRouteNow(id)
    ensures t.states[i + 1].store.OwnerOf(driver).None?
    ensures t.states[i + 1].store.LockOf(driver) == Some(id)
  {
    LegacyStaysSafe(config, t, k, id, i);
    OnlyClaimsSucceed(config, t.states[i], t.steps[i], driver);
  }

  /** A driver is assigned by a successful claim or a recorded ride, and by nothing else. */
  lemma OnlyClaimsSucceed(config: Config, sys: System, step: Step, driver: Id)
    requires Enabled(sys, step) && step.Run? && NextClient(config, sys, step) == Finished(Assigned(driver))
    ensures var c := sys.clients[step.index];
            && step.fate == Answered && c.driver == driver
            && (c.RecordRide? || (c.ClaimDriver? && c.request.rider.None?))
  {
  }
}
