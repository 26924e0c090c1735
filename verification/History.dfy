/** What a run keeps true when expired request IDs are not created again: records never change
    their trip, settle at most once, and a reset never strips a ride that is still en route. */
module History {
  import opened Keyspace
  import opened Clients
  import opened Ownership
  import opened System

  predicate SameTrip(a: Assignment, b: Assignment) {
    a.(status := EnRoute) == b.(status := EnRoute)
  }

  /** The ride a client read earlier is the one created under its ID. */
  predicate Known(sys: System, ride: Assignment) {
    ride.request in sys.ledger && SameTrip(ride, sys.ledger[ride.request])
  }

  predicate Settled(sys: System, request: Id) {
    request in sys.ledger && !sys.store.EnRouteNow(request)
  }

  ghost predicate Recorded(sys: System) {
    forall r :: sys.store.RideOf(r).Some? ==>
                  sys.store.RideOf(r).value.request == r && Known(sys, sys.store.RideOf(r).value)
  }

  predicate ClientSound(sys: System, c: Client) {
    match c
    case CancelSend(ride) => Known(sys, ride)
    case ArriveLocate(ride) => Known(sys, ride)
    case ArriveSend(ride) => Known(sys, ride)
    case ResetRead(_, id) => id in sys.ledger
    case ResetClearRider(_, id) => Settled(sys, id) && sys.store.RideOf(id).None?
    case ResetCancelRead(_, ride) => Known(sys, ride)
    case ResetCancelSend(_, ride, copy) => Known(sys, ride) && Known(sys, copy) && ride.request == copy.request
    case ResetClearBoth(_, ride) => Settled(sys, ride.request)
    case _ => true
  }

  ghost predicate Sound(sys: System) {
    && Backed(sys.store)
    && Exclusive(sys.store)
    && Recorded(sys)
    && forall i :: 0 <= i < |sys.clients| ==> ClientSound(sys, sys.clients[i])
  }

  // ---- the order on histories ----

  predicate Progress(before: RideStatus, after: RideStatus) {
    before == after || before == EnRoute
  }

  ghost predicate RideLater(a: System, b: System, r: Id) {
    r in a.ledger ==>
      && r in b.ledger && b.ledger[r] == a.ledger[r]
      && (b.store.RideOf(r).Some? ==>
            && a.store.RideOf(r).Some?
            && SameTrip(a.store.RideOf(r).value, b.store.RideOf(r).value)
            && Progress(a.store.RideOf(r).value.status, b.store.RideOf(r).value.status))
  }

  /** `b` continues `a`: no known record changes its trip, comes back, or leaves a settled status. */
  ghost predicate Later(a: System, b: System) {
    forall r :: RideLater(a, b, r)
  }

  lemma LaterTransitive(a: System, b: System, c: System)
    requires Later(a, b) && Later(b, c)
    ensures Later(a, c)
  {
    forall r ensures RideLater(a, c, r) {
      assert RideLater(a, b, r) && RideLater(b, c, r);
    }
  }

  lemma SettledStays(a: System, b: System, request: Id)
    requires Later(a, b) && Settled(a, request)
    ensures Settled(b, request)
  {
    assert RideLater(a, b, request);
  }

  lemma LaterKeepsClient(a: System, b: System, c: Client)
    requires Later(a, b) && ClientSound(a, c)
    ensures ClientSound(b, c)
  {
    match c
    case CancelSend(ride) => assert RideLater(a, b, ride.request);
    case ArriveLocate(ride) => assert RideLater(a, b, ride.request);
    case ArriveSend(ride) => assert RideLater(a, b, ride.request);
    case ResetRead(_, id) => assert RideLater(a, b, id);
    case ResetClearRider(_, id) => assert RideLater(a, b, id);
    case ResetCancelRead(_, ride) => assert RideLater(a, b, ride.request);
    case ResetCancelSend(_, ride, copy) => assert RideLater(a, b, ride.request);
    case ResetClearBoth(_, ride) => assert RideLater(a, b, ride.request);
    case _ =>
  }

  /** What a command does to any one record. */
  lemma RideAfter(config: Config, s: Store, command: Command, r: Id)
    ensures var before, after := s.RideOf(r), Execute(config, s, command).0.RideOf(r);
            || after == before
            || (command.CreateCmd? && command.ride.request == r && Creates(config, s, command)
                && before.None? && (after.Some? ==> after.value == command.ride.(status := EnRoute)))
            || (command.CancelCmd? && command.request == r && before.Some? && before.value.status == EnRoute
                && (after.Some? ==> after.value == before.value.(status := Cancelled)))
            || (command.ArriveCmd? && command.request == r && before.Some? && before.value.status == EnRoute
                && (after.Some? ==> after.value == before.value.(status := Arrived)))
  {
  }

  lemma StepIsLater(config: Config, sys: System, step: Step)
    requires Enabled(sys, step) && Fresh(config, sys, step)
    ensures Later(sys, Apply(config, sys, step))
  {
    var next := Apply(config, sys, step);
    forall r ensures RideLater(sys, next, r) {
      if Sent(sys, step).Some? {
        RideAfter(config, sys.store, Sent(sys, step).value, r);
      }
    }
  }

  lemma StepKeepsRecorded(config: Config, sys: System, step: Step)
    requires Enabled(sys, step) && Recorded(sys)
    ensures Recorded(Apply(config, sys, step))
  {
    var next := Apply(config, sys, step);
    forall r | next.store.RideOf(r).Some?
      ensures next.store.RideOf(r).value.request == r && Known(next, next.store.RideOf(r).value)
    {
      if Sent(sys, step).Some? {
        RideAfter(config, sys.store, Sent(sys, step).value, r);
        assert sys.store.RideOf(r).Some? ==> Known(sys, sys.store.RideOf(r).value);
      } else {
        assert sys.store.RideOf(r) == next.store.RideOf(r);
      }
    }
  }

  // ---- one step keeps everything ----

  /** Only a reset sends a clearing command, and only for a ride that is no longer en route. */
  lemma ClientClearsOnlySettled(sys: System, c: Client)
    requires !c.Finished? && ClientSound(sys, c)
    ensures ClearsOnlySettled(sys.store, Pending(c))
  {
    assert Clears(Pending(c)) ==> c.ResetClearRider? || c.ResetClearBoth?;
  }

  lemma RiderPointsToLedger(sys: System, rider: Id)
    requires Backed(sys.store) && Recorded(sys) && sys.store.RequestOf(rider).Some?
    ensures sys.store.RequestOf(rider).value in sys.ledger
  {
    assert RiderBacked(sys.store, rider);
    var id := sys.store.RequestOf(rider).value;
    assert sys.store.RideOf(id).value.request == id;
  }

  lemma KnownCancelOutcome(config: Config, sys: System, copy: Assignment)
    requires Exclusive(sys.store) && Recorded(sys) && Known(sys, copy) && sys.store.EnRouteNow(copy.request)
    ensures var code := CancelRide(config, sys.store, copy.request, copy.driver, copy.rider).1;
            && (code == 1 || code == -4)
            && (code == -4 <==>
                sys.store.LockOf(copy.driver).Some? && sys.store.LockOf(copy.driver).value != copy.request)
  {
    var ride := sys.store.RideOf(copy.request).value;
    assert ride.request == copy.request && Known(sys, ride);
    CancelOutcome(config, sys.store, ride);
  }

  /** Refused with a state conflict, the ride a reset tried to cancel is settled. */
  lemma RefusalMeansSettled(config: Config, sys: System, copy: Assignment)
    requires Exclusive(sys.store) && Recorded(sys) && Known(sys, copy)
    requires CancelResult(CancelRide(config, sys.store, copy.request, copy.driver, copy.rider).1, copy) == StateConflict
    ensures Settled(sys, copy.request)
    ensures CancelRide(config, sys.store, copy.request, copy.driver, copy.rider).0 == sys.store
  {
    if sys.store.EnRouteNow(copy.request) {
      KnownCancelOutcome(config, sys, copy);
    }
  }

  predicate Reads(c: Client) {
    c.CancelRead? || c.ArriveRead? || c.ArriveLocate? || c.ResetRead? || c.ResetCancelRead?
  }

  lemma ReadIsSound(config: Config, sys: System, c: Client)
    requires Reads(c) && Recorded(sys) && ClientSound(sys, c)
    ensures Execute(config, sys.store, Pending(c)).0 == sys.store
    ensures ClientSound(sys, Resume(config, c, Execute(config, sys.store, Pending(c)).1))
  {
    if !c.ArriveLocate? {
      var id := Pending(c).request;
      var ride := sys.store.RideOf(id);
      assert ride.Some? ==> ride.value.request == id && Known(sys, ride.value);
    }
  }

  /** A client that read a ride, or was refused, has learnt something that still holds. */
  lemma ReplyIsSound(config: Config, sys: System, c: Client)
    requires !c.Finished? && Backed(sys.store) && Exclusive(sys.store) && Recorded(sys) && ClientSound(sys, c)
    ensures var (store, reply) := Execute(config, sys.store, Pending(c));
            ClientSound(sys.(store := store), Resume(config, c, reply))
  {
    if Reads(c) {
      ReadIsSound(config, sys, c);
    } else if c.ResetStart? {
      if sys.store.RequestOf(c.rider).Some? { RiderPointsToLedger(sys, c.rider); }
    } else if c.ResetCancelSend? {
      var code := CancelRide(config, sys.store, c.copy.request, c.copy.driver, c.copy.rider).1;
      if CancelResult(code, c.copy) == StateConflict { RefusalMeansSettled(config, sys, c.copy); }
    } else {
      OthersHoldNoRide(config, c, Execute(config, sys.store, Pending(c)).1);
    }
  }

  predicate HoldsRide(c: Client) {
    c.CancelSend? || c.ArriveLocate? || c.ArriveSend? || c.ResetRead? || c.ResetClearRider?
    || c.ResetCancelRead? || c.ResetCancelSend? || c.ResetClearBoth?
  }

  lemma OthersHoldNoRide(config: Config, c: Client, reply: Reply)
    requires !c.Finished? && !Reads(c) && !c.ResetStart? && !c.ResetCancelSend?
    ensures !HoldsRide(Resume(config, c, reply))
  {
  }

  lemma FailureIsSound(config: Config, sys: System, c: Client)
    requires !c.Finished? && ClientSound(sys, c)
    ensures ClientSound(sys, Resume(config, c, Error))
  {
  }

  lemma NextClientIsSound(config: Config, sys: System, step: Step)
    requires Enabled(sys, step) && Fresh(config, sys, step) && step.Run? && Sound(sys)
    ensures ClientSound(Apply(config, sys, step), NextClient(config, sys, step))
  {
    var c := sys.clients[step.index];
    var next := Apply(config, sys, step);
    assert ClientSound(sys, c);
    StepIsLater(config, sys, step);
    match step.fate
    case Answered =>
      ReplyIsSound(config, sys, c);
      AnsweredLedger(config, sys, step);
    case ReplyLost =>
      FailureIsSound(config, sys, c);
      LaterKeepsClient(sys, next, Resume(config, c, Error));
    case NotSent => FailureIsSound(config, sys, c);
    case Resent => LaterKeepsClient(sys, next, c);
  }

  /** The ledger only grows under a create, after which the client holds no ride. */
  lemma AnsweredLedger(config: Config, sys: System, step: Step)
    requires Enabled(sys, step) && step.Run? && step.fate == Answered
    requires ClientSound(sys.(store := NextStore(config, sys, step)), NextClient(config, sys, step))
    ensures ClientSound(Apply(config, sys, step), NextClient(config, sys, step))
  {
  }

  lemma StepKeepsSound(config: Config, sys: System, step: Step)
    requires Enabled(sys, step) && Fresh(config, sys, step) && Sound(sys)
    ensures Sound(Apply(config, sys, step))
  {
    var next := Apply(config, sys, step);
    StepIsLater(config, sys, step);
    StepKeepsRecorded(config, sys, step);
    match Sent(sys, step) {
      case Some(command) =>
        ClientClearsOnlySettled(sys, sys.clients[step.index]);
        ExecuteKeepsBacked(config, sys.store, command);
        ExecuteKeepsExclusive(config, sys.store, command);
      case None =>
        if step.Tick? { TickKeepsBacked(sys.store, step.now); }
    }
    forall i | 0 <= i < |next.clients| ensures ClientSound(next, next.clients[i]) {
      if step.Run? && i == step.index {
        NextClientIsSound(config, sys, step);
      } else if i < |sys.clients| {
        LaterKeepsClient(sys, next, sys.clients[i]);
      }
    }
  }

  lemma {:induction false} FreshRunIsSound(config: Config, t: Trace, n: nat)
    requires FreshRun(config, t) && n < |t.states|
    ensures Sound(t.states[n])
  {
    if n == 0 {
      EmptyIsSound();
    } else {
      FreshRunIsSound(config, t, n - 1);
      assert StepOf(config, t, n - 1) && FreshAt(config, t, n - 1);
      StepKeepsSound(config, t.states[n - 1], t.steps[n - 1]);
    }
  }

  // ---- main results, in every run ----

  lemma {:induction false} RunIsRecorded(config: Config, t: Trace, n: nat)
    requires IsRun(config, t) && n < |t.states|
    ensures Recorded(t.states[n])
  {
    if n > 0 {
      RunIsRecorded(config, t, n - 1);
      assert StepOf(config, t, n - 1);
      StepKeepsRecorded(config, t.states[n - 1], t.steps[n - 1]);
    }
  }

  /** The command of step `i` strips an en-route ride of a pointer. */
  ghost predicate StripsAt(t: Trace, i: nat)
    requires i < |t.steps| && i < |t.states|
  {
    Enabled(t.states[i], t.steps[i]) && Sent(t.states[i], t.steps[i]).Some?
    && Strips(t.states[i].store, Sent(t.states[i], t.steps[i]).value)
  }

  /** A run is exclusive throughout exactly if no clearing script ever reaches a ride that is en
      route, whatever IDs are used again. */
  lemma ExclusiveExactly(config: Config, t: Trace)
    requires IsRun(config, t)
    ensures (forall n: nat :: n < |t.states| ==> Exclusive(t.states[n].store)) <==>
            forall i: nat :: i < |t.steps| ==> !StripsAt(t, i)
  {
    if forall i: nat :: i < |t.steps| ==> !StripsAt(t, i) {
      forall n: nat | n < |t.states| ensures Exclusive(t.states[n].store) { ExclusiveSoFar(config, t, n); }
    } else {
      var i: nat :| i < |t.steps| && StripsAt(t, i);
      if Exclusive(t.states[i].store) {
        StepIsExclusive(config, t, i);
        assert i + 1 < |t.states|;
      }
    }
  }

  lemma StepIsExclusive(config: Config, t: Trace, i: nat)
    requires IsRun(config, t) && i < |t.steps| && Exclusive(t.states[i].store)
    ensures Exclusive(t.states[i + 1].store) <==> !StripsAt(t, i)
  {
    assert StepOf(config, t, i);
    ReachableIsBacked(config, t, i);
    var sys, step := t.states[i], t.steps[i];
    match Sent(sys, step)
    case Some(command) => ExclusiveUnlessStripped(config, sys.store, command);
    case None => if step.Tick? { TickKeepsBacked(sys.store, step.now); }
  }

  lemma {:induction false} ExclusiveSoFar(config: Config, t: Trace, n: nat)
    requires IsRun(config, t) && n < |t.states|
    requires forall i: nat :: i < n ==> !StripsAt(t, i)
    ensures Exclusive(t.states[n].store)
  {
    if n == 0 {
      EmptyIsSound();
    } else {
      ExclusiveSoFar(config, t, n - 1);
      StepIsExclusive(config, t, n - 1);
    }
  }

  /** The record is live at every moment from `i` to `j`. */
  ghost predicate LivesThrough(t: Trace, i: nat, j: nat, r: Id) {
    j < |t.states| && forall m: nat :: i <= m <= j ==> t.states[m].store.RideOf(r).Some?
  }

  /** While it lives, a record keeps its trip and moves only out of en route. */
  lemma {:induction false} RecordIsMonotone(config: Config, t: Trace, i: nat, j: nat, r: Id)
    requires IsRun(config, t) && i <= j && LivesThrough(t, i, j, r)
    ensures var before, after := t.states[i].store.RideOf(r).value, t.states[j].store.RideOf(r).value;
            SameTrip(before, after) && Progress(before.status, after.status)
    decreases j
  {
    if i < j {
      RecordIsMonotone(config, t, i, j - 1, r);
      assert t.states[j - 1].store.RideOf(r).Some? && t.states[j].store.RideOf(r).Some?;
      RideAfterStep(config, t, j - 1, r);
    }
  }

  lemma RideAfterStep(config: Config, t: Trace, i: nat, r: Id)
    requires IsRun(config, t) && i < |t.steps|
    requires t.states[i].store.RideOf(r).Some? && t.states[i + 1].store.RideOf(r).Some?
    ensures var before, after := t.states[i].store.RideOf(r).value, t.states[i + 1].store.RideOf(r).value;
            SameTrip(before, after) && Progress(before.status, after.status)
  {
    assert StepOf(config, t, i);
    if Sent(t.states[i], t.steps[i]).Some? {
      RideAfter(config, t.states[i].store, Sent(t.states[i], t.steps[i]).value, r);
    }
  }

  /** A cancel or arrive that succeeds finds the ride en route, and leaves it settled or expired. */
  lemma SettlingIsFinal(config: Config, t: Trace, i: nat, request: Id)
    requires IsRun(config, t) && i < |t.steps| && SettlesAt(config, t, i, request)
    ensures t.states[i].store.EnRouteNow(request) && !t.states[i + 1].store.EnRouteNow(request)
  {
    assert StepOf(config, t, i);
  }

  /** At most one cancel or arrive script succeeds in a record's life: between two that do, the
      record was gone. */
  lemma SettledOncePerLife(config: Config, t: Trace, i: nat, j: nat, request: Id)
    requires IsRun(config, t) && i < j < |t.steps|
    requires SettlesAt(config, t, i, request) && SettlesAt(config, t, j, request)
    ensures exists m: nat :: i < m < j && t.states[m].store.RideOf(request).None?
  {
    SettlingIsFinal(config, t, i, request);
    SettlingIsFinal(config, t, j, request);
    if forall m: nat :: i < m < j ==> t.states[m].store.RideOf(request).Some? {
      RecordIsMonotone(config, t, i + 1, j, request);
    }
  }

  /** An active record is held by both of its pointers, as long as itself. */
  ghost predicate HeldByBoth(s: Store, r: Id) {
    s.RideOf(r).Some? && s.RideOf(r).value.status != Cancelled ==>
      var ride := s.RideOf(r).value;
      && s.OwnerOf(ride.driver) == Some(r) && s.driverActive[ride.driver].deadline == s.rides[r].deadline
      && s.RequestOf(ride.rider) == Some(r) && s.riderActive[ride.rider].deadline == s.rides[r].deadline
  }

  /** Step `i` runs a clearing script that names the request. */
  ghost predicate ClearsAt(t: Trace, i: nat, request: Id) {
    && i < |t.steps| && i < |t.states| && Enabled(t.states[i], t.steps[i])
    && Sent(t.states[i], t.steps[i]).Some?
    && match Sent(t.states[i], t.steps[i]).value
       case ClearRiderCmd(_, r) => r == request
       case ClearResetCmd(_, _, r) => r == request
       case _ => false
  }

  lemma CreateHoldsBoth(config: Config, s: Store, ride: Assignment)
    requires config.Valid() && CreateRide(config, s, ride).1 == 1
    ensures HeldByBoth(CreateRide(config, s, ride).0, ride.request)
  {
  }

  lemma CreateKeepsBoth(config: Config, s: Store, ride: Assignment, r: Id)
    requires HeldByBoth(s, r) && s.RideOf(r).Some?
    ensures HeldByBoth(CreateRide(config, s, ride).0, r)
  {
  }

  lemma CancelKeepsBoth(config: Config, s: Store, request: Id, driver: Id, rider: Id, r: Id)
    requires HeldByBoth(s, r) && s.RideOf(r).Some?
    ensures HeldByBoth(CancelRide(config, s, request, driver, rider).0, r)
  {
  }

  lemma ArriveKeepsBoth(config: Config, s: Store, request: Id, rider: Id, driver: Id, r: Id)
    requires config.Valid() && Backed(s) && HeldByBoth(s, r) && s.RideOf(r).Some?
    ensures HeldByBoth(ArriveRide(config, s, request, rider, driver).0, r)
  {
    assert RiderBacked(s, rider) && OwnerBacked(s, driver);
  }

  lemma ClearKeepsBoth(s: Store, rider: Id, driver: Id, request: Id, r: Id)
    requires HeldByBoth(s, r) && request != r
    ensures HeldByBoth(ClearRider(s, rider, request), r) && HeldByBoth(ClearReset(s, rider, driver, request), r)
  {
  }

  lemma CommandKeepsBoth(config: Config, s: Store, command: Command, r: Id)
    requires config.Valid() && Backed(s) && HeldByBoth(s, r) && s.RideOf(r).Some?
    requires Clears(command) ==> command.request != r
    ensures HeldByBoth(Execute(config, s, command).0, r)
  {
    match command
    case CreateCmd(ride) => CreateKeepsBoth(config, s, ride, r);
    case CancelCmd(q, d, p) => CancelKeepsBoth(config, s, q, d, p, r);
    case ArriveCmd(q, p, d) => ArriveKeepsBoth(config, s, q, p, d, r);
    case ClearRiderCmd(p, q) => ClearKeepsBoth(s, p, "", q, r);
    case ClearResetCmd(p, d, q) => ClearKeepsBoth(s, p, d, q, r);
    case _ =>
      OthersLeaveRides(config, s, command);
      SameRidesKeepBoth(s, Execute(config, s, command).0, r);
  }

  lemma SameRidesKeepBoth(s: Store, t: Store, r: Id)
    requires SameRides(s, t) && HeldByBoth(s, r)
    ensures HeldByBoth(t, r)
  {
  }

  /** In any run an active record, en route or arrived, has both pointers for as long as it lives
      itself, unless a clearing script has named it in its life. */
  lemma {:induction false} ActiveIsHeld(config: Config, t: Trace, n: nat, r: Id)
    requires config.Valid() && IsRun(config, t) && n < |t.states|
    requires t.states[n].store.RideOf(r).Some? && t.states[n].store.RideOf(r).value.status != Cancelled
    ensures HeldByBoth(t.states[n].store, r) || ClearedBefore(t, n, r)
  {
    assert n > 0;
    if t.states[n - 1].store.RideOf(r).Some? {
      RideAfterStep(config, t, n - 1, r);
      ActiveIsHeld(config, t, n - 1, r);
      StaysClearedOrHeld(config, t, n - 1, r);
    } else {
      BornHeld(config, t, n - 1, r);
    }
  }

  /** A clearing script has named the request in its record's present life. */
  ghost predicate ClearedBefore(t: Trace, n: nat, r: Id) {
    exists m: nat :: m < n && ClearsAt(t, m, r) && LivesThrough(t, m, n, r)
  }

  lemma StaysClearedOrHeld(config: Config, t: Trace, i: nat, r: Id)
    requires config.Valid() && IsRun(config, t) && i < |t.steps|
    requires t.states[i].store.RideOf(r).Some? && t.states[i + 1].store.RideOf(r).Some?
    requires HeldByBoth(t.states[i].store, r) || ClearedBefore(t, i, r)
    ensures HeldByBoth(t.states[i + 1].store, r) || ClearedBefore(t, i + 1, r)
  {
    assert LivesThrough(t, i, i + 1, r);
    if HeldByBoth(t.states[i].store, r) {
      StepKeepsBoth(config, t, i, r);
    } else {
      var m: nat :| m < i && ClearsAt(t, m, r) && LivesThrough(t, m, i, r);
      assert LivesThrough(t, m, i + 1, r);
    }
  }

  lemma StepKeepsBoth(config: Config, t: Trace, i: nat, r: Id)
    requires config.Valid() && IsRun(config, t) && i < |t.steps|
    requires LivesThrough(t, i, i + 1, r) && HeldByBoth(t.states[i].store, r)
    ensures HeldByBoth(t.states[i + 1].store, r) || ClearsAt(t, i, r)
  {
    assert StepOf(config, t, i) && t.states[i].store.RideOf(r).Some? && t.states[i + 1].store.RideOf(r).Some?;
    ReachableIsBacked(config, t, i);
    var sent := Sent(t.states[i], t.steps[i]);
    if sent.Some? && !ClearsAt(t, i, r) {
      CommandKeepsBoth(config, t.states[i].store, sent.value, r);
    }
  }

  lemma BornHeld(config: Config, t: Trace, i: nat, r: Id)
    requires config.Valid() && IsRun(config, t) && i < |t.steps|
    requires t.states[i].store.RideOf(r).None? && t.states[i + 1].store.RideOf(r).Some?
    ensures HeldByBoth(t.states[i + 1].store, r)
  {
    assert StepOf(config, t, i);
    if Sent(t.states[i], t.steps[i]).Some? {
      var command := Sent(t.states[i], t.steps[i]).value;
      RideAfter(config, t.states[i].store, command, r);
      CreateHoldsBoth(config, t.states[i].store, command.ride);
    }
  }

  // ---- main results, where no ID is created again ----

  /** In every reachable state each en-route record holds its driver and its rider, so no driver
      and no rider has two en-route rides. */
  lemma RunsAreExclusive(config: Config, t: Trace, n: nat)
    requires FreshRun(config, t) && n < |t.states|
    ensures Exclusive(t.states[n].store)
    ensures forall r1, r2 :: t.states[n].store.EnRouteNow(r1) && t.states[n].store.EnRouteNow(r2) && r1 != r2 ==>
                               && t.states[n].store.RideOf(r1).value.driver != t.states[n].store.RideOf(r2).value.driver
                               && t.states[n].store.RideOf(r1).value.rider != t.states[n].store.RideOf(r2).value.rider
  {
    FreshRunIsSound(config, t, n);
    var s := t.states[n].store;
    forall r1, r2 | s.EnRouteNow(r1) && s.EnRouteNow(r2) && r1 != r2
      ensures s.RideOf(r1).value.driver != s.RideOf(r2).value.driver
      ensures s.RideOf(r1).value.rider != s.RideOf(r2).value.rider
    {
      EnRouteRidesAreDisjoint(s, r1, r2);
    }
  }

  /** Record history is monotone over a run, from any moment to any later one: a record that is
      gone does not come back either. */
  lemma {:induction false} RunIsMonotone(config: Config, t: Trace, i: nat, j: nat)
    requires FreshRun(config, t) && i <= j < |t.states|
    ensures Later(t.states[i], t.states[j])
    decreases j
  {
    if i == j {
      forall r ensures RideLater(t.states[i], t.states[j], r) {
        FreshRunIsSound(config, t, i);
      }
    } else {
      RunIsMonotone(config, t, i, j - 1);
      assert StepOf(config, t, j - 1) && FreshAt(config, t, j - 1);
      StepIsLater(config, t.states[j - 1], t.steps[j - 1]);
      LaterTransitive(t.states[i], t.states[j - 1], t.states[j]);
    }
  }

  /** Step `i` runs a cancel or arrive script on `request`, and the script succeeds. */
  ghost predicate SettlesAt(config: Config, t: Trace, i: nat, request: Id)
    requires IsRun(config, t) && i < |t.steps|
  {
    assert StepOf(config, t, i);
    match Sent(t.states[i], t.steps[i])
    case Some(CancelCmd(r, d, p)) => r == request && CancelRide(config, t.states[i].store, r, d, p).1 == 1
    case Some(ArriveCmd(r, p, d)) => r == request && ArriveRide(config, t.states[i].store, r, p, d).1 == 1
    case _ => false
  }

  lemma SettlingEnds(config: Config, t: Trace, i: nat, request: Id)
    requires FreshRun(config, t) && i < |t.steps| && SettlesAt(config, t, i, request)
    ensures t.states[i].store.EnRouteNow(request) && Settled(t.states[i + 1], request)
  {
    assert StepOf(config, t, i) && FreshAt(config, t, i);
    FreshRunIsSound(config, t, i);
    var sys := t.states[i];
    assert sys.store.RideOf(request).value.request == request && Known(sys, sys.store.RideOf(request).value);
  }

  /** At most one cancel-or-arrive script ever succeeds on a request ID. */
  lemma SettledOnce(config: Config, t: Trace, i: nat, j: nat, request: Id)
    requires FreshRun(config, t) && i < |t.steps| && j < |t.steps|
    requires SettlesAt(config, t, i, request) && SettlesAt(config, t, j, request)
    ensures i == j
  {
    if i != j {
      var first, second := if i < j then i else j, if i < j then j else i;
      SettlingEnds(config, t, first, request);
      SettlingEnds(config, t, second, request);
      RunIsMonotone(config, t, first + 1, second);
      SettledStays(t.states[first + 1], t.states[second], request);
    }
  }

  /** A reset racing with cancel, arrive and expiry: when its clearing script reaches the store,
      the ride is no longer en route, and every en-route ride keeps both pointers. */
  lemma ResetNeverStrips(config: Config, t: Trace, i: nat, request: Id)
    requires FreshRun(config, t) && i < |t.steps| && Enabled(t.states[i], t.steps[i])
    requires var sent := Sent(t.states[i], t.steps[i]); sent.Some? && Clears(sent.value)
    ensures !t.states[i].store.EnRouteNow(Sent(t.states[i], t.steps[i]).value.request)
    ensures t.states[i].store.EnRouteNow(request) ==>
              var ride := t.states[i].store.RideOf(request).value;
              && t.states[i + 1].store.OwnerOf(ride.driver) == Some(request)
              && t.states[i + 1].store.RequestOf(ride.rider) == Some(request)
  {
    assert StepOf(config, t, i);
    FreshRunIsSound(config, t, i);
    ClientClearsOnlySettled(t.states[i], t.states[i].clients[t.steps[i].index]);
    if t.states[i].store.EnRouteNow(request) {
      ClearKeepsHeld(config, t.states[i].store, Sent(t.states[i], t.steps[i]).value, request);
    }
  }

  lemma ClearKeepsHeld(config: Config, s: Store, command: Command, request: Id)
    requires Backed(s) && Exclusive(s) && Clears(command) && ClearsOnlySettled(s, command) && s.EnRouteNow(request)
    ensures var t, ride := Execute(config, s, command).0, s.RideOf(request).value;
            && t.OwnerOf(ride.driver) == Some(request) && t.RequestOf(ride.rider) == Some(request)
  {
    ExecuteKeepsExclusive(config, s, command);
    RideAfter(config, s, command, request);
    assert Held(Execute(config, s, command).0, request);
  }

  /** When a rider's record was found missing, its pointer is already gone too: the clearing
      script of that branch never deletes anything. */
  lemma ClearRiderFindsNothing(config: Config, t: Trace, i: nat)
    requires FreshRun(config, t) && i < |t.steps| && Enabled(t.states[i], t.steps[i])
    requires var sent := Sent(t.states[i], t.steps[i]); sent.Some? && sent.value.ClearRiderCmd?
    ensures t.states[i + 1].store == t.states[i].store
  {
    assert StepOf(config, t, i);
    FreshRunIsSound(config, t, i);
    var sys := t.states[i];
    var command := Sent(sys, t.steps[i]).value;
    assert ClientSound(sys, sys.clients[t.steps[i].index]);
    assert RiderBacked(sys.store, command.rider);
  }

  /** Whatever it read and however long it waited, a cancel that reaches a live en-route record
      is refused only because another request holds the driver's lock. */
  lemma CancelReaches(config: Config, t: Trace, i: nat)
    requires FreshRun(config, t) && i < |t.steps| && Enabled(t.states[i], t.steps[i])
    requires var sent := Sent(t.states[i], t.steps[i]); sent.Some? && sent.value.CancelCmd?
    requires t.states[i].store.EnRouteNow(Sent(t.states[i], t.steps[i]).value.request)
    ensures var s, command := t.states[i].store, Sent(t.states[i], t.steps[i]).value;
            var code := CancelRide(config, s, command.request, command.driver, command.rider).1;
            && (code == 1 || code == -4)
            && (code == -4 <==> s.LockOf(command.driver).Some? && s.LockOf(command.driver).value != command.request)
  {
    FreshRunIsSound(config, t, i);
    var sys := t.states[i];
    var c := sys.clients[t.steps[i].index];
    assert ClientSound(sys, c);
    KnownCancelOutcome(config, sys, if c.CancelSend? then c.ride else c.copy);
  }

  /** Once a cancel script succeeds, the ride's rider, driver and lock are free, and a ride under
      any ID without a record can be created for the same pair. */
  lemma CancelFrees(config: Config, t: Trace, i: nat, next: Assignment)
    requires config.Valid() && FreshRun(config, t) && i < |t.steps| && Enabled(t.states[i], t.steps[i])
    requires var sent := Sent(t.states[i], t.steps[i]); sent.Some? && sent.value.CancelCmd?
    requires var command := Sent(t.states[i], t.steps[i]).value;
             && CancelRide(config, t.states[i].store, command.request, command.driver, command.rider).1 == 1
             && next.driver == command.driver && next.rider == command.rider
             && t.states[i].store.RideOf(next.request).None?
    ensures var command, after := Sent(t.states[i], t.steps[i]).value, t.states[i + 1].store;
            && after.OwnerOf(command.driver).None? && after.RequestOf(command.rider).None?
            && after.LockOf(command.driver).None?
            && CreateRide(config, after, next).1 == 1
  {
    assert StepOf(config, t, i);
    FreshRunIsSound(config, t, i);
    var s, command := t.states[i].store, Sent(t.states[i], t.steps[i]).value;
    var ride := s.RideOf(command.request).value;
    assert ride.request == command.request && Known(t.states[i], ride);
    CancelFreesBoth(config, s, ride, next);
  }

  /** An arrive that reaches a live en-route record is refused only because the driver is not busy. */
  lemma ArriveReaches(config: Config, t: Trace, i: nat)
    requires FreshRun(config, t) && i < |t.steps| && Enabled(t.states[i], t.steps[i])
    requires var sent := Sent(t.states[i], t.steps[i]); sent.Some? && sent.value.ArriveCmd?
    requires t.states[i].store.EnRouteNow(Sent(t.states[i], t.steps[i]).value.request)
    ensures var s, command := t.states[i].store, Sent(t.states[i], t.steps[i]).value;
            var code := ArriveRide(config, s, command.request, command.rider, command.driver).1;
            && (code == 1 || code == -2)
            && (code == 1 <==> s.StatusOf(command.driver) == Some(Busy))
  {
    FreshRunIsSound(config, t, i);
    var sys := t.states[i];
    var command := Sent(sys, t.steps[i]).value;
    var ride := sys.store.RideOf(command.request).value;
    assert ClientSound(sys, sys.clients[t.steps[i].index]);
    assert ride.request == command.request && Known(sys, ride);
    ArriveOutcome(config, sys.store, ride);
  }

  // ---- arrival is gated by position ----

  /** At some moment up to `n` the driver's stored position was within the threshold. */
  ghost predicate WasNear(config: Config, t: Trace, n: nat, driver: Id, pickup: Position) {
    exists k: nat :: k <= n && k < |t.states| && NearNow(config, t.states[k].store, driver, pickup)
  }

  predicate NearNow(config: Config, s: Store, driver: Id, pickup: Position) {
    driver in s.positions && !(config.distance(s.positions[driver], pickup) > config.threshold)
  }

  ghost predicate GatedRides(config: Config, t: Trace, n: nat)
    requires n < |t.states|
  {
    forall r :: t.states[n].store.RideOf(r).Some? && t.states[n].store.RideOf(r).value.status == Arrived ==>
                  var ride := t.states[n].store.RideOf(r).value;
                  WasNear(config, t, n, ride.driver, ride.pickup)
  }

  ghost predicate GatedClient(config: Config, t: Trace, n: nat, c: Client) {
    c.ArriveSend? ==> WasNear(config, t, n, c.ride.driver, c.ride.pickup)
  }

  lemma WasNearStays(config: Config, t: Trace, n: nat, driver: Id, pickup: Position)
    requires WasNear(config, t, n, driver, pickup)
    ensures WasNear(config, t, n + 1, driver, pickup)
  {
    var k: nat :| k <= n && k < |t.states| && NearNow(config, t.states[k].store, driver, pickup);
  }

  lemma ClientStaysGated(config: Config, t: Trace, n: nat, step: Step)
    requires n < |t.states| && Enabled(t.states[n], step) && step.Run?
    requires GatedClient(config, t, n, t.states[n].clients[step.index])
    ensures GatedClient(config, t, n + 1, NextClient(config, t.states[n], step))
  {
    var c := t.states[n].clients[step.index];
    var next := NextClient(config, t.states[n], step);
    if next.ArriveSend? {
      if c.ArriveSend? {
        WasNearStays(config, t, n, c.ride.driver, c.ride.pickup);
      } else {
        assert NearNow(config, t.states[n].store, next.ride.driver, next.ride.pickup);
      }
    }
  }

  lemma {:induction false} RunIsGated(config: Config, t: Trace, n: nat)
    requires FreshRun(config, t) && n < |t.states|
    ensures GatedRides(config, t, n)
    ensures forall i :: 0 <= i < |t.states[n].clients| ==> GatedClient(config, t, n, t.states[n].clients[i])
  {
    if n > 0 {
      var sys, step, next := t.states[n - 1], t.steps[n - 1], t.states[n];
      assert StepOf(config, t, n - 1) && FreshAt(config, t, n - 1);
      RunIsGated(config, t, n - 1);
      FreshRunIsSound(config, t, n - 1);
      forall i | 0 <= i < |next.clients| ensures GatedClient(config, t, n, next.clients[i]) {
        if step.Run? && i == step.index {
          ClientStaysGated(config, t, n - 1, step);
        } else if i < |sys.clients| && sys.clients[i].ArriveSend? {
          WasNearStays(config, t, n - 1, sys.clients[i].ride.driver, sys.clients[i].ride.pickup);
        }
      }
      forall r | next.store.RideOf(r).Some? && next.store.RideOf(r).value.status == Arrived
        ensures WasNear(config, t, n, next.store.RideOf(r).value.driver, next.store.RideOf(r).value.pickup)
      {
        ArrivedIsGated(config, t, n - 1, r);
      }
    }
  }

  lemma ArrivedIsGated(config: Config, t: Trace, n: nat, r: Id)
    requires FreshRun(config, t) && n < |t.steps| && Sound(t.states[n]) && GatedRides(config, t, n)
    requires Enabled(t.states[n], t.steps[n]) && t.states[n + 1] == Apply(config, t.states[n], t.steps[n])
    requires forall i :: 0 <= i < |t.states[n].clients| ==> GatedClient(config, t, n, t.states[n].clients[i])
    requires t.states[n + 1].store.RideOf(r).Some? && t.states[n + 1].store.RideOf(r).value.status == Arrived
    ensures var ride := t.states[n + 1].store.RideOf(r).value;
            WasNear(config, t, n + 1, ride.driver, ride.pickup)
  {
    var sys, step := t.states[n], t.steps[n];
    var ride := t.states[n + 1].store.RideOf(r).value;
    if Sent(sys, step).Some? {
      RideAfter(config, sys.store, Sent(sys, step).value, r);
    } else {
      assert sys.store.RideOf(r) == Some(ride);
    }
    if sys.store.RideOf(r) != Some(ride) {
      var c := sys.clients[step.index];
      assert ClientSound(sys, c) && GatedClient(config, t, n, c);
      assert Known(sys, sys.store.RideOf(r).value);
    }
    WasNearStays(config, t, n, ride.driver, ride.pickup);
  }

  /** Every record that is ever arrived had its driver within the threshold of its pickup at
      some earlier moment of the run. */
  lemma ArrivedWasNear(config: Config, t: Trace, n: nat, r: Id)
    requires FreshRun(config, t) && n < |t.states|
    requires t.states[n].store.RideOf(r).Some? && t.states[n].store.RideOf(r).value.status == Arrived
    ensures var ride := t.states[n].store.RideOf(r).value;
            exists k: nat :: && k <= n && ride.driver in t.states[k].store.positions
                             && config.distance(t.states[k].store.positions[ride.driver], ride.pickup)
                                <= config.threshold
  {
    RunIsGated(config, t, n);
    var ride := t.states[n].store.RideOf(r).value;
    assert WasNear(config, t, n, ride.driver, ride.pickup);
    var k: nat :| k <= n && k < |t.states| && NearNow(config, t.states[k].store, ride.driver, ride.pickup);
  }
}
