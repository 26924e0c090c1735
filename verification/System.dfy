/** All clients against one store, in every interleaving. A step moves the clock, admits a
    client, or lets one client's pending command happen: answered, answered with the reply lost,
    not sent at all, or sent once more by the driver library. A client that is never scheduled
    again has crashed. */
module System {
  import opened Keyspace
  import opened Clients
  import opened Ownership

  datatype Fate = Answered | ReplyLost | NotSent | Resent

  datatype Step = Tick(now: int) | Admit(client: Client) | Run(index: nat, fate: Fate)

  /** `ledger` is history: the ride each request ID was last created with. */
  datatype System = System(store: Store, clients: seq<Client>, ledger: map<Id, Assignment>)

  const INITIAL := System(EMPTY, [], map[])

  predicate Enabled(sys: System, step: Step) {
    match step
    case Tick(now) => sys.store.now <= now
    case Admit(client) => Starts(client)
    case Run(index, _) => index < |sys.clients| && !sys.clients[index].Finished?
  }

  /** The command that reaches the store in a step, if any. */
  function Sent(sys: System, step: Step): Option<Command>
    requires Enabled(sys, step)
  {
    if step.Run? && step.fate != NotSent then Some(Pending(sys.clients[step.index])) else None
  }

  function Creates(config: Config, s: Store, command: Command): bool {
    command.CreateCmd? && CreateRide(config, s, command.ride).1 == 1
  }

  function NextClient(config: Config, sys: System, step: Step): Client
    requires Enabled(sys, step) && step.Run?
  {
    var c := sys.clients[step.index];
    match step.fate
    case Answered => Resume(config, c, Execute(config, sys.store, Pending(c)).1)
    case ReplyLost => Resume(config, c, Error)
    case NotSent => Resume(config, c, Error)
    case Resent => c
  }

  function NextStore(config: Config, sys: System, step: Step): Store
    requires Enabled(sys, step)
  {
    match Sent(sys, step)
    case Some(command) => Execute(config, sys.store, command).0
    case None => if step.Tick? then sys.store.(now := step.now) else sys.store
  }

  function NextLedger(config: Config, sys: System, step: Step): map<Id, Assignment>
    requires Enabled(sys, step)
  {
    match Sent(sys, step)
    case Some(command) =>
      if Creates(config, sys.store, command) then sys.ledger[command.ride.request := command.ride] else sys.ledger
    case None => sys.ledger
  }

  function Apply(config: Config, sys: System, step: Step): System
    requires Enabled(sys, step)
  {
    System(
      NextStore(config, sys, step),
      match step {
        case Tick(_) => sys.clients
        case Admit(client) => sys.clients + [client]
        case Run(index, _) => sys.clients[index := NextClient(config, sys, step)]
      },
      NextLedger(config, sys, step))
  }

  /** The one assumption on request IDs, used only where stated: a ride is not created under an
      ID that already had one. */
  predicate Fresh(config: Config, sys: System, step: Step)
    requires Enabled(sys, step)
  {
    match Sent(sys, step)
    case Some(command) => Creates(config, sys.store, command) ==> command.ride.request !in sys.ledger
    case None => true
  }

  // ---- runs ----

  datatype Trace = Trace(states: seq<System>, steps: seq<Step>)

  ghost predicate StepOf(config: Config, t: Trace, i: nat)
    requires i < |t.steps| && |t.states| == |t.steps| + 1
  {
    Enabled(t.states[i], t.steps[i]) && t.states[i + 1] == Apply(config, t.states[i], t.steps[i])
  }

  ghost predicate IsRun(config: Config, t: Trace) {
    && |t.states| == |t.steps| + 1
    && t.states[0] == INITIAL
    && forall i: nat :: i < |t.steps| ==> StepOf(config, t, i)
  }

  ghost predicate FreshAt(config: Config, t: Trace, i: nat)
    requires i < |t.steps| && |t.states| == |t.steps| + 1
  {
    Enabled(t.states[i], t.steps[i]) ==> Fresh(config, t.states[i], t.steps[i])
  }

  ghost predicate FreshRun(config: Config, t: Trace) {
    IsRun(config, t) && forall i: nat :: i < |t.steps| ==> FreshAt(config, t, i)
  }

  lemma EmptyIsSound()
    ensures Keyed(EMPTY) && Backed(EMPTY) && Exclusive(EMPTY)
  {
    forall d ensures OwnerBacked(EMPTY, d) {}
    forall p ensures RiderBacked(EMPTY, p) {}
    forall r ensures Held(EMPTY, r) {}
  }

  /** No dangling ownership in any reachable state, even when request IDs are reused. */
  lemma {:induction false} ReachableIsBacked(config: Config, t: Trace, n: nat)
    requires IsRun(config, t) && n < |t.states|
    ensures Keyed(t.states[n].store) && Backed(t.states[n].store)
  {
    if n == 0 {
      EmptyIsSound();
    } else {
      ReachableIsBacked(config, t, n - 1);
      assert StepOf(config, t, n - 1);
      StepKeepsBacked(config, t.states[n - 1], t.steps[n - 1]);
    }
  }

  lemma StepKeepsBacked(config: Config, sys: System, step: Step)
    requires Enabled(sys, step) && Keyed(sys.store) && Backed(sys.store)
    ensures Keyed(Apply(config, sys, step).store) && Backed(Apply(config, sys, step).store)
  {
    match Sent(sys, step)
    case Some(command) =>
      ExecuteKeepsKeyed(config, sys.store, command);
      ExecuteKeepsBacked(config, sys.store, command);
    case None =>
      if step.Tick? {
        TickKeepsBacked(sys.store, step.now);
      }
  }

  /** A location update that asks who owns the driver, in any run, even with request IDs reused:
      it is done exactly when there is a live owner, and then the driver is busy; otherwise it
      goes on without having changed anything. */
  lemma LocationSeesOwner(config: Config, t: Trace, i: nat)
    requires config.Valid() && IsRun(config, t) && i < |t.steps| && StepOf(config, t, i)
    requires t.steps[i].Run? && t.steps[i].fate == Answered
    requires t.states[i].clients[t.steps[i].index].LocationRefresh?
    ensures var driver := t.states[i].clients[t.steps[i].index].driver;
            var next := t.states[i + 1].clients[t.steps[i].index];
            && (next == Finished(Done) <==> t.states[i].store.OwnerOf(driver).Some?)
            && (next == Finished(Done) ==> t.states[i + 1].store.StatusOf(driver) == Some(Busy))
            && (next != Finished(Done) ==>
                  next == LocationHeartbeat(driver) && t.states[i + 1].store == t.states[i].store)
  {
    ReachableIsBacked(config, t, i);
    RefreshOutcome(config, t.states[i].store, t.states[i].clients[t.steps[i].index].driver);
  }

  predicate IsLocating(c: Client) {
    c.LocationStore? || c.LocationRefresh? || c.LocationHeartbeat? || c.LocationRevive?
  }

  /** Step `k` admits client `i`, with a location of this driver. */
  predicate AdmitsLocation(t: Trace, k: nat, i: nat, driver: Id) {
    && k < |t.steps| && k < |t.states| && t.steps[k].Admit? && t.steps[k].client.LocationStore?
    && t.steps[k].client.driver == driver && |t.states[k].clients| == i
  }

  lemma {:induction false} LocationWasAdmitted(config: Config, t: Trace, n: nat, i: nat)
    requires IsRun(config, t) && n < |t.states| && i < |t.states[n].clients| && IsLocating(t.states[n].clients[i])
    ensures exists k: nat :: k < n && AdmitsLocation(t, k, i, t.states[n].clients[i].driver)
  {
    assert StepOf(config, t, n - 1);
    var sys := t.states[n - 1];
    if i < |sys.clients| {
      LocationContinues(config, sys, t.steps[n - 1], i);
      LocationWasAdmitted(config, t, n - 1, i);
    } else {
      assert AdmitsLocation(t, n - 1, i, t.states[n].clients[i].driver);
    }
  }

  lemma LocationContinues(config: Config, sys: System, step: Step, i: nat)
    requires Enabled(sys, step) && i < |sys.clients| && IsLocating(Apply(config, sys, step).clients[i])
    ensures IsLocating(sys.clients[i]) && sys.clients[i].driver == Apply(config, sys, step).clients[i].driver
  {
    if step.Run? && step.index == i {
      LocatingIsKept(config, sys.clients[i], Execute(config, sys.store, Pending(sys.clients[i])).1);
      LocatingIsKept(config, sys.clients[i], Error);
    }
  }

  lemma LocatingIsKept(config: Config, c: Client, reply: Reply)
    requires !c.Finished?
    ensures IsLocating(Resume(config, c, reply)) ==> IsLocating(c) && c.driver == Resume(config, c, reply).driver
  {
  }

  /** A location update gets to the point of lengthening or reviving a status only after it has seen,
      since it came in, that the driver had no owner: in any run, even with request IDs reused. */
  lemma {:induction false} LocationAskedFirst(config: Config, t: Trace, n: nat, i: nat)
    requires IsRun(config, t) && n < |t.states| && i < |t.states[n].clients|
    requires t.states[n].clients[i].LocationHeartbeat? || t.states[n].clients[i].LocationRevive?
    ensures var driver := t.states[n].clients[i].driver;
            exists k: nat, m: nat ::
              k < m < n && AdmitsLocation(t, k, i, driver) && t.states[m].store.OwnerOf(driver).None?
  {
    assert StepOf(config, t, n - 1);
    var sys, step := t.states[n - 1], t.steps[n - 1];
    var driver := t.states[n].clients[i].driver;
    LocationContinues(config, sys, step, i);
    if sys.clients[i].LocationHeartbeat? || sys.clients[i].LocationRevive? {
      LocationAskedFirst(config, t, n - 1, i);
    } else {
      LocationWasAdmitted(config, t, n - 1, i);
      ReachableIsBacked(config, t, n - 1);
      LocationLearnsOwner(config, sys, step, i);
      var k: nat :| k < n - 1 && AdmitsLocation(t, k, i, driver);
      assert t.states[n - 1].store.OwnerOf(driver).None?;
    }
  }

  lemma LocationLearnsOwner(config: Config, sys: System, step: Step, i: nat)
    requires Backed(sys.store) && Enabled(sys, step) && i < |sys.clients|
    requires sys.clients[i].LocationStore? || sys.clients[i].LocationRefresh?
    requires var c := Apply(config, sys, step).clients[i]; c.LocationHeartbeat? || c.LocationRevive?
    ensures sys.store.OwnerOf(sys.clients[i].driver).None?
  {
    assert OwnerBacked(sys.store, sys.clients[i].driver);
  }

  // ---- the interleavings leave nothing out ----

  /** Any request may come in at any time, and the clock may move on by any amount. */
  lemma AnythingMayComeIn(
    sys: System, now: int, request: Request, nearby: seq<Id>, id: Id, position: Position,
    status: Option<DriverStatus>, drivers: set<Id>)
    ensures Enabled(sys, Tick(now)) <==> sys.store.now <= now
    ensures StartFind(request, nearby).Finished? <==> request.rider.None? && nearby == []
    ensures !StartFind(request, nearby).Finished? ==> Enabled(sys, Admit(StartFind(request, nearby)))
    ensures Enabled(sys, Admit(CancelRead(id))) && Enabled(sys, Admit(ArriveRead(id)))
    ensures Enabled(sys, Admit(ResetStart(id)))
    ensures Enabled(sys, Admit(LocationStore(id, position))) && Enabled(sys, Admit(PutStatus(id, status)))
    ensures Enabled(sys, Admit(Beat(id))) && Enabled(sys, Admit(FreeLocks(drivers)))
    ensures Enabled(sys, Admit(Extend(id, request.id)))
  {
  }

  /** Whoever has not finished may move, and its command may meet any fate. */
  lemma AnybodyMayMove(config: Config, sys: System, i: nat)
    requires i < |sys.clients| && !sys.clients[i].Finished?
    ensures forall fate :: Enabled(sys, Run(i, fate))
    ensures var c := sys.clients[i];
            var (done, reply) := Execute(config, sys.store, Pending(c));
            && Apply(config, sys, Run(i, Answered)).store == done
            && Apply(config, sys, Run(i, Answered)).clients == sys.clients[i := Resume(config, c, reply)]
            && Apply(config, sys, Run(i, ReplyLost)).store == done
            && Apply(config, sys, Run(i, ReplyLost)).clients == sys.clients[i := Resume(config, c, Error)]
            && Apply(config, sys, Run(i, NotSent)).store == sys.store
            && Apply(config, sys, Run(i, NotSent)).clients == sys.clients[i := Resume(config, c, Error)]
            && Apply(config, sys, Run(i, Resent)).store == done
            && Apply(config, sys, Run(i, Resent)).clients == sys.clients
  {
  }
}
