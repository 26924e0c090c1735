/** The WebSocket hub: which connection speaks for an ID after any history of registrations, and
    what fan-out appends to the riders' send buffers. */
module Realtime {

  type Id = string

  const SEND_BUFFER := 256

  /** `number` identifies a broadcast by how many the hub handled before it. */
  datatype Message = DriverLocation(number: nat, driver: Id, payload: string) | Reply(text: string)

  datatype SendResult = Queued | HubClosed | BufferFull

  /** Broadcasts among the messages come in the order the hub handled them, each at most once. */
  ghost predicate Ordered(messages: seq<Message>, handled: nat) {
    && (forall i :: 0 <= i < |messages| && messages[i].DriverLocation? ==> messages[i].number < handled)
    && (forall i, j :: 0 <= i < j < |messages| && messages[i].DriverLocation? && messages[j].DriverLocation?
                       ==> messages[i].number < messages[j].number)
  }

  lemma OrderedAppend(messages: seq<Message>, handled: nat, m: Message, after: nat)
    requires Ordered(messages, handled) && handled <= after
    requires m.DriverLocation? ==> handled <= m.number < after
    ensures Ordered(messages, after) && Ordered(messages + [m], after)
  {
  }

  class Client {
    const id: Id
    const isDriver: bool
    var subscribed: set<Id>
    var send: seq<Message>
    var done: bool
    /** Everything the writer has taken from the buffer, in order. */
    ghost var delivered: seq<Message>

    constructor (id: Id, isDriver: bool)
      ensures this.id == id && this.isDriver == isDriver
      ensures subscribed == {} && send == [] && delivered == [] && !done
    {
      this.id, this.isDriver := id, isDriver;
      subscribed, send, done, delivered := {}, [], false, [];
    }

    /** Everything ever queued for the peer, in order. */
    ghost function Accepted(): seq<Message>
      reads this`send, this`delivered
    {
      delivered + send
    }

    ghost predicate InOrder(handled: nat)
      reads this`send, this`delivered
    {
      |send| <= SEND_BUFFER && Ordered(Accepted(), handled)
    }

    /** What a send leads to. On a closed client with room both cases of the select are ready, and
        `chance` decides between them. */
    function Outcome(chance: bool): SendResult
      reads this
    {
      if done && (chance || |send| >= SEND_BUFFER) then HubClosed
      else if |send| < SEND_BUFFER then Queued
      else BufferFull
    }

    method SendBytes(data: Message, chance: bool) returns (result: SendResult)
      modifies this`send
      ensures result == old(Outcome(chance))
      ensures !done && |old(send)| < 256 ==> result == Queued
      ensures !done && |old(send)| >= 256 ==> result == BufferFull
      ensures done && |old(send)| >= 256 ==> result == HubClosed
      ensures done && |old(send)| < 256 ==> result == if chance then HubClosed else Queued
      ensures send == if result == Queued then old(send) + [data] else old(send)
      ensures data.Reply? ==> forall n: nat :: old(InOrder(n)) ==> InOrder(n)
      ensures data.DriverLocation? && old(InOrder(data.number)) ==> InOrder(data.number + 1)
    {
      assert delivered + (send + [data]) == Accepted() + [data];
      var canSend := |send| < SEND_BUFFER;
      if done && (chance || !canSend) {
        return HubClosed;
      }
      if canSend {
        send := send + [data];
        return Queued;
      }
      return BufferFull;
    }

    /** Closing again changes nothing. */
    method Close()
      modifies this`done
      ensures done
    {
      done := true;
    }

    /** WritePump takes the oldest message. */
    method Deliver() returns (message: Message)
      requires send != []
      modifies this`send, this`delivered
      ensures message == old(send)[0] && send == old(send)[1..] && delivered == old(delivered) + [message]
      ensures Accepted() == old(Accepted())
      ensures forall n: nat :: old(InOrder(n)) ==> InOrder(n)
    {
      message := send[0];
      send := send[1..];
      delivered := delivered + [message];
      assert Accepted() == old(Accepted());
    }

    method HandleSubscribe(driver: Id, chance: bool)
      modifies this`subscribed, this`send
      ensures subscribed == if isDriver then old(subscribed) else old(subscribed) + {driver}
      ensures send == if old(Outcome(chance)) == Queued
                      then old(send) + [Reply(if isDriver then "permission_denied" else "subscribed")] else old(send)
      ensures delivered == old(delivered)
      ensures forall n: nat :: old(InOrder(n)) ==> InOrder(n)
    {
      if !isDriver {
        subscribed := subscribed + {driver};
      }
      var _ := SendBytes(Reply(if isDriver then "permission_denied" else "subscribed"), chance);
    }

    method HandleUnsubscribe(driver: Id, chance: bool)
      modifies this`subscribed, this`send
      ensures subscribed == if isDriver then old(subscribed) else old(subscribed) - {driver}
      ensures send == if old(Outcome(chance)) == Queued
                      then old(send) + [Reply(if isDriver then "permission_denied" else "unsubscribed")] else old(send)
      ensures delivered == old(delivered)
      ensures forall n: nat :: old(InOrder(n)) ==> InOrder(n)
    {
      if !isDriver {
        subscribed := subscribed - {driver};
      }
      var _ := SendBytes(Reply(if isDriver then "permission_denied" else "unsubscribed"), chance);
    }
  }

  // ---- histories ----

  datatype Event = Registered(client: Client) | Unregistered(client: Client) | ShutDown

  predicate SameSlot(a: Client, b: Client) {
    a.id == b.id && a.isDriver == b.isDriver
  }

  /** Events that end a connection's claim to its ID. */
  predicate Ends(e: Event, c: Client) {
    match e
    case Registered(d) => SameSlot(c, d)
    case Unregistered(d) => d == c
    case ShutDown => true
  }

  /** The `i`-th event registered a client and nothing since has ended its claim. */
  ghost predicate Alive(log: seq<Event>, i: int) {
    0 <= i < |log| && log[i].Registered? && forall j :: i < j < |log| ==> !Ends(log[j], log[i].client)
  }

  /** `c` is the last registered client of its ID, not unregistered since. */
  ghost predicate Current(log: seq<Event>, c: Client) {
    exists i :: Alive(log, i) && log[i].client == c
  }

  lemma AliveAfter(log: seq<Event>, e: Event, i: int)
    ensures Alive(log + [e], i) <==>
            (0 <= i < |log| && Alive(log, i) && !Ends(e, log[i].client)) || (i == |log| && e.Registered?)
  {
    var after := log + [e];
    if 0 <= i < |log| && Alive(log, i) && !Ends(e, log[i].client) {
      forall j | i < j < |after| ensures !Ends(after[j], after[i].client) {
        assert j < |log| ==> after[j] == log[j];
      }
    }
    if Alive(after, i) && i < |log| {
      forall j | i < j < |log| ensures !Ends(log[j], log[i].client) {
        assert after[j] == log[j];
      }
      assert !Ends(after[|log|], after[i].client);
    }
  }

  lemma CurrentAfter(log: seq<Event>, e: Event, c: Client)
    ensures Current(log + [e], c) <==> (Current(log, c) && !Ends(e, c)) || e == Registered(c)
  {
    if Current(log + [e], c) {
      var i :| Alive(log + [e], i) && (log + [e])[i].client == c;
      AliveAfter(log, e, i);
    }
    if Current(log, c) && !Ends(e, c) {
      var i :| Alive(log, i) && log[i].client == c;
      AliveAfter(log, e, i);
      assert (log + [e])[i].client == c;
    }
    if e == Registered(c) {
      AliveAfter(log, e, |log|);
      assert (log + [e])[|log|].client == c;
    }
  }

  /** Two current clients never share an ID. */
  lemma CurrentIsUnique(log: seq<Event>, c: Client, d: Client)
    requires Current(log, c) && Current(log, d) && SameSlot(c, d)
    ensures c == d
  {
    var i :| Alive(log, i) && log[i].client == c;
    var j :| Alive(log, j) && log[j].client == d;
    assert i < j ==> Ends(log[j], log[i].client);
    assert j < i ==> Ends(log[i], log[j].client);
  }

  /** The hub's two maps. */
  datatype Registry = Registry(drivers: map<Id, Client>, riders: map<Id, Client>)
  {
    predicate Holds(c: Client) {
      if c.isDriver then c.id in drivers && drivers[c.id] == c else c.id in riders && riders[c.id] == c
    }

    function With(c: Client): Registry {
      if c.isDriver then this.(drivers := drivers[c.id := c]) else this.(riders := riders[c.id := c])
    }

    function Without(c: Client): Registry {
      if !Holds(c) then this
      else if c.isDriver then this.(drivers := drivers - {c.id})
      else this.(riders := riders - {c.id})
    }

    ghost predicate Keyed() {
      && (forall id :: id in drivers ==> drivers[id].id == id && drivers[id].isDriver)
      && (forall id :: id in riders ==> riders[id].id == id && !riders[id].isDriver)
    }
  }

  /** The maps hold exactly the current clients of the history. */
  ghost predicate Faithful(r: Registry, log: seq<Event>) {
    && r.Keyed()
    && (forall id {:trigger Current(log, r.drivers[id])} :: id in r.drivers ==> Current(log, r.drivers[id]))
    && (forall id {:trigger Current(log, r.riders[id])} :: id in r.riders ==> Current(log, r.riders[id]))
    && (forall i :: Alive(log, i) ==> r.Holds(log[i].client))
  }

  lemma FaithfulHolds(r: Registry, log: seq<Event>, c: Client)
    requires Faithful(r, log)
    ensures r.Holds(c) <==> Current(log, c)
  {
    if Current(log, c) {
      var i :| Alive(log, i) && log[i].client == c;
    }
  }

  /** The event leaves `c` connected, or brings it in. */
  predicate Remains(r: Registry, e: Event, c: Client) {
    (r.Holds(c) && !Ends(e, c)) || e == Registered(c)
  }

  lemma FaithfulFrom(r: Registry, log: seq<Event>, next: Registry, e: Event)
    requires Faithful(r, log) && next.Keyed()
    requires forall id :: id in next.drivers ==> Remains(r, e, next.drivers[id])
    requires forall id :: id in next.riders ==> Remains(r, e, next.riders[id])
    requires forall i :: Alive(log, i) && !Ends(e, log[i].client) ==> next.Holds(log[i].client)
    requires e.Registered? ==> next.Holds(e.client)
    ensures Faithful(next, log + [e])
  {
    forall id | id in next.drivers ensures Current(log + [e], next.drivers[id]) {
      FaithfulHolds(r, log, next.drivers[id]);
      CurrentAfter(log, e, next.drivers[id]);
    }
    forall id | id in next.riders ensures Current(log + [e], next.riders[id]) {
      FaithfulHolds(r, log, next.riders[id]);
      CurrentAfter(log, e, next.riders[id]);
    }
    forall i | Alive(log + [e], i) ensures next.Holds((log + [e])[i].client) {
      AliveAfter(log, e, i);
    }
  }

  lemma RegisterIsFaithful(r: Registry, log: seq<Event>, c: Client)
    requires Faithful(r, log)
    ensures Faithful(r.With(c), log + [Registered(c)])
  {
    FaithfulFrom(r, log, r.With(c), Registered(c));
  }

  lemma UnregisterIsFaithful(r: Registry, log: seq<Event>, c: Client)
    requires Faithful(r, log)
    ensures Faithful(r.Without(c), log + [Unregistered(c)])
  {
    FaithfulFrom(r, log, r.Without(c), Unregistered(c));
  }

  lemma ShutDownIsFaithful(r: Registry, log: seq<Event>)
    requires Faithful(r, log)
    ensures Faithful(Registry(map[], map[]), log + [ShutDown])
  {
    FaithfulFrom(r, log, Registry(map[], map[]), ShutDown);
  }

  ghost predicate Known(log: seq<Event>, clients: set<Client>) {
    forall i :: 0 <= i < |log| && log[i].Registered? ==> log[i].client in clients
  }

  lemma RegisterIsKnown(log: seq<Event>, clients: set<Client>, c: Client)
    requires Known(log, clients)
    ensures Known(log + [Registered(c)], clients + {c})
  {
  }

  lemma LeavingIsKnown(log: seq<Event>, clients: set<Client>, e: Event)
    requires Known(log, clients) && !e.Registered?
    ensures Known(log + [e], clients)
  {
  }

  class Hub {
    var drivers: map<Id, Client>
    var riders: map<Id, Client>
    var totalDrivers: nat
    var totalRiders: nat
    var totalMessages: nat
    ghost var log: seq<Event>
    /** Every client ever registered. */
    ghost var everyone: set<Client>

    constructor ()
      ensures Valid() && log == [] && drivers == map[] && riders == map[] && totalMessages == 0 && everyone == {}
    {
      drivers, riders, totalDrivers, totalRiders, totalMessages := map[], map[], 0, 0, 0;
      log, everyone := [], {};
    }

    function Maps(): Registry
      reads this`drivers, this`riders
    {
      Registry(drivers, riders)
    }

    /** Every client that was registered and is no longer connected has been closed. */
    ghost predicate LeaversClosed()
      reads this`everyone, this`drivers, this`riders, everyone`done
    {
      forall c :: c in everyone && !Maps().Holds(c) ==> c.done
    }

    /** The counters are the map sizes. */
    predicate Counted()
      reads this`drivers, this`riders, this`totalDrivers, this`totalRiders
    {
      totalDrivers == |drivers| && totalRiders == |riders|
    }

    ghost predicate AllKnown()
      reads this`log, this`everyone
    {
      Known(log, everyone)
    }

    /** Every client has been queued the broadcasts it was queued in order, each at most once, and
        no more than its buffer holds. */
    ghost predicate AllInOrder()
      reads this`everyone, this`totalMessages, everyone`send, everyone`delivered
    {
      forall c :: c in everyone ==> c.InOrder(totalMessages)
    }

    ghost predicate Valid()
      reads this, everyone
    {
      && Faithful(Maps(), log)
      && AllKnown()
      && LeaversClosed()
      && Counted()
      && AllInOrder()
    }

    lemma ConnectedIsRegistered(c: Client)
      requires Faithful(Maps(), log) && AllKnown() && Maps().Holds(c)
      ensures c in everyone
    {
      FaithfulHolds(Maps(), log, c);
    }

    /** Only the client holding the new one's slot leaves the maps. */
    lemma WithHolds(r: Registry, c: Client, d: Client)
      ensures r.With(c).Holds(d) <==> if SameSlot(c, d) then d == c else r.Holds(d)
    {
    }

    lemma WithoutHolds(r: Registry, c: Client, d: Client)
      requires r.Keyed()
      ensures r.Without(c).Holds(d) <==> r.Holds(d) && d != c
    {
    }

    /** The map and counter updates of registerClient; the connection an ID loses is closed. */
    method Put(client: Client)
      requires Maps().Keyed() && Counted()
      modifies this`drivers, this`riders, this`totalDrivers, this`totalRiders, Displaced(client)`done
      ensures Maps() == old(Maps()).With(client) && Counted()
      ensures forall c :: c in old(Displaced(client)) ==> c.done
    {
      if client.isDriver {
        if client.id in drivers {
          drivers[client.id].Close();
        }
        drivers := drivers[client.id := client];
        totalDrivers := |drivers|;
      } else {
        if client.id in riders {
          riders[client.id].Close();
        }
        riders := riders[client.id := client];
        totalRiders := |riders|;
      }
    }

    /** The connection that holds the client's ID, if any. */
    function Displaced(client: Client): set<Client>
      reads this`drivers, this`riders
    {
      var held := if client.isDriver then drivers else riders;
      if client.id in held then {held[client.id]} else {}
    }

    method Remove(client: Client)
      requires Maps().Keyed() && Counted()
      modifies this`drivers, this`riders, this`totalDrivers, this`totalRiders, client`done
      ensures Maps() == old(Maps()).Without(client) && Counted()
      ensures client.done == (old(client.done) || old(Maps()).Holds(client))
    {
      if client.isDriver {
        if client.id in drivers && drivers[client.id] == client {
          drivers := drivers - {client.id};
          client.Close();
          totalDrivers := |drivers|;
        }
      } else {
        if client.id in riders && riders[client.id] == client {
          riders := riders - {client.id};
          client.Close();
          totalRiders := |riders|;
        }
      }
    }

    lemma DisplacedHolds(client: Client)
      requires Maps().Keyed()
      ensures forall c :: c in Displaced(client) <==> Maps().Holds(c) && SameSlot(c, client)
    {
    }

    lemma DisplacedIsKnown(client: Client)
      requires Faithful(Maps(), log) && AllKnown()
      ensures Displaced(client) <= everyone
    {
      forall c | c in Displaced(client) ensures c in everyone { ConnectedIsRegistered(c); }
    }

    method RegisterClient(client: Client)
      requires Valid() && client.InOrder(totalMessages)
      modifies this`log, this`everyone, this`drivers, this`riders, this`totalDrivers, this`totalRiders, everyone`done
      ensures Valid() && log == old(log) + [Registered(client)] && everyone == old(everyone) + {client}
      ensures Maps() == old(Maps()).With(client)
      ensures forall c :: c in old(everyone) && !SameSlot(c, client) ==> c.done == old(c.done)
    {
      DisplacedIsKnown(client);
      RegisterIsFaithful(Maps(), log, client);
      RegisterIsKnown(log, everyone, client);
      Replace(client);
      log := log + [Registered(client)];
    }

    /** Registering, as far as the connections are concerned. */
    method Replace(client: Client)
      requires Maps().Keyed() && Counted() && LeaversClosed() && AllInOrder() && client.InOrder(totalMessages)
      requires Displaced(client) <= everyone
      modifies this`everyone, this`drivers, this`riders, this`totalDrivers, this`totalRiders, everyone`done
      ensures Maps() == old(Maps()).With(client) && everyone == old(everyone) + {client}
      ensures Counted() && LeaversClosed() && AllInOrder()
      ensures forall c :: c in old(everyone) && !SameSlot(c, client) ==> c.done == old(c.done)
    {
      ghost var before, registered := Maps(), everyone;
      DisplacedHolds(client);
      Put(client);
      everyone := everyone + {client};
      LeaversStayClosed(before, registered, client);
    }

    /** Whoever left before is closed, and so is whoever lost its slot to `client`. */
    lemma LeaversStayClosed(before: Registry, registered: set<Client>, client: Client)
      requires Maps() == before.With(client) && everyone == registered + {client}
      requires forall c :: c in registered && !before.Holds(c) ==> c.done
      requires forall c :: before.Holds(c) && SameSlot(c, client) ==> c.done || c == client
      ensures LeaversClosed()
    {
      forall c | c in everyone && !Maps().Holds(c) ensures c.done { WithHolds(before, client, c); }
    }

    /** A client that no longer holds its ID, because it was replaced or unregistered before, is
        left alone. */
    method UnregisterClient(client: Client)
      requires Valid()
      modifies this`log, this`drivers, this`riders, this`totalDrivers, this`totalRiders, client`done
      ensures Valid() && log == old(log) + [Unregistered(client)]
      ensures Maps() == old(Maps()).Without(client)
      ensures old(Maps().Holds(client)) ==> client.done
      ensures !old(Maps().Holds(client)) ==> client.done == old(client.done)
    {
      UnregisterIsFaithful(Maps(), log, client);
      LeavingIsKnown(log, everyone, Unregistered(client));
      Drop(client);
      log := log + [Unregistered(client)];
    }

    /** Unregistering, as far as the connections are concerned. */
    method Drop(client: Client)
      requires Maps().Keyed() && Counted() && LeaversClosed()
      modifies this`drivers, this`riders, this`totalDrivers, this`totalRiders, client`done
      ensures Maps() == old(Maps()).Without(client) && Counted() && LeaversClosed()
      ensures client.done == (old(client.done) || old(Maps()).Holds(client))
    {
      ghost var before := Maps();
      Remove(client);
      LeaverIsClosed(before, client);
    }

    lemma LeaverIsClosed(before: Registry, client: Client)
      requires before.Keyed() && Maps() == before.Without(client)
      requires forall c :: c in everyone && !before.Holds(c) ==> c.done
      requires before.Holds(client) ==> client.done
      ensures LeaversClosed()
    {
      forall c | c in everyone && !Maps().Holds(c) ensures c.done { WithoutHolds(before, client, c); }
    }

    method CloseAllClients()
      requires Valid()
      modifies this`log, this`drivers, this`riders, this`totalDrivers, this`totalRiders, everyone`done
      ensures Valid() && log == old(log) + [ShutDown]
      ensures drivers == map[] && riders == map[]
      ensures forall c :: c in everyone ==> c.done
    {
      ShutDownIsFaithful(Maps(), log);
      LeavingIsKnown(log, everyone, ShutDown);
      CloseBoth();
      drivers, riders, totalDrivers, totalRiders := map[], map[], 0, 0;
      log := log + [ShutDown];
    }

    /** The two loops of closeAllClients: whoever was connected is closed, so everybody is. */
    method CloseBoth()
      requires Valid()
      modifies everyone`done
      ensures forall c :: c in everyone ==> c.done
    {
      forall id | id in drivers ensures drivers[id] in everyone { ConnectedIsRegistered(drivers[id]); }
      forall id | id in riders ensures riders[id] in everyone { ConnectedIsRegistered(riders[id]); }
      CloseAll(drivers);
      CloseAll(riders);
      forall c | c in everyone ensures c.done { assert Maps().Holds(c) || old(c.done); }
    }

    method CloseAll(clients: map<Id, Client>)
      requires forall id :: id in clients ==> clients[id] in everyone
      modifies everyone`done
      ensures forall id :: id in clients ==> clients[id].done
      ensures forall c :: c in everyone && old(c.done) ==> c.done
    {
      var todo := clients.Keys;
      while todo != {}
        invariant todo <= clients.Keys
        invariant forall id :: id in clients && id !in todo ==> clients[id].done
        invariant forall c :: c in everyone && old(c.done) ==> c.done
        decreases todo
      {
        var id :| id in todo;
        clients[id].Close();
        todo := todo - {id};
      }
    }

    /** What a broadcast leaves in one rider's buffer. */
    function Fanned(c: Client, data: Message, unlucky: set<Client>): seq<Message>
      requires data.DriverLocation?
      reads c
    {
      if data.driver in c.subscribed && c.Outcome(c in unlucky) == Queued then c.send + [data] else c.send
    }

    method FanOut(data: Message, unlucky: set<Client>)
      requires data.DriverLocation? && Maps().Keyed()
      modifies riders.Values`send
      ensures forall id :: id in riders ==> riders[id].send == old(Fanned(riders[id], data, unlucky))
    {
      var todo := riders.Keys;
      while todo != {}
        invariant todo <= riders.Keys
        invariant forall id :: id in todo ==> riders[id].send == old(riders[id].send)
        invariant forall id :: id in riders && id !in todo ==> riders[id].send == old(Fanned(riders[id], data, unlucky))
        decreases todo
      {
        var id :| id in todo;
        var rider := riders[id];
        if data.driver in rider.subscribed {
          var _ := rider.SendBytes(data, rider in unlucky);
        }
        todo := todo - {id};
      }
    }

    /** handleLocationBroadcast, riders visited in any order: every subscribed rider with room is
        queued one copy and nobody else's buffer changes. `unlucky` are the closed riders whose
        select happens to see the close first. */
    method HandleLocationBroadcast(driver: Id, payload: string, unlucky: set<Client>)
      requires Valid()
      modifies this`totalMessages, riders.Values`send
      ensures Valid() && totalMessages == old(totalMessages) + 1
      ensures var data := DriverLocation(old(totalMessages), driver, payload);
              forall id :: id in riders ==> riders[id].send == old(Fanned(riders[id], data, unlucky))
      ensures var data := DriverLocation(old(totalMessages), driver, payload);
              forall id :: id in riders ==>
                             var c, before := riders[id], old(riders[id].send);
                             && (driver !in c.subscribed || |before| >= 256 ==> c.send == before)
                             && (driver in c.subscribed && |before| < 256 && !c.done ==> c.send == before + [data])
                             && (driver in c.subscribed && |before| < 256 && c.done ==>
                                   c.send == if c in unlucky then before else before + [data])
      ensures var data := DriverLocation(old(totalMessages), driver, payload);
              forall c :: c in everyone ==>
                            c.send == old(c.send) || (driver in c.subscribed && c.send == old(c.send) + [data])
    {
      ghost var data := DriverLocation(totalMessages, driver, payload);
      Broadcast(DriverLocation(totalMessages, driver, payload), unlucky);
      forall c | c in everyone
        ensures c.send == old(c.send) || (driver in c.subscribed && c.send == old(c.send) + [data])
      {
        if c in riders.Values {
          var id :| id in riders && riders[id] == c;
          assert riders[id].send == old(Fanned(riders[id], data, unlucky));
        }
      }
    }

    /** The fan-out and its count. */
    method Broadcast(data: Message, unlucky: set<Client>)
      requires data.DriverLocation? && data.number == totalMessages && Maps().Keyed() && AllInOrder()
      modifies this`totalMessages, riders.Values`send
      ensures AllInOrder() && totalMessages == old(totalMessages) + 1
      ensures forall id :: id in riders ==> riders[id].send == old(Fanned(riders[id], data, unlucky))
    {
      FanOutInOrder(data, unlucky);
      totalMessages := totalMessages + 1;
    }

    method FanOutInOrder(data: Message, unlucky: set<Client>)
      requires data.DriverLocation? && Maps().Keyed()
      modifies riders.Values`send
      ensures forall id :: id in riders ==> riders[id].send == old(Fanned(riders[id], data, unlucky))
      ensures forall c :: c in everyone && old(c.InOrder(data.number)) ==> c.InOrder(data.number + 1)
    {
      FanOut(data, unlucky);
      forall c | c in everyone && old(c.InOrder(data.number)) ensures c.InOrder(data.number + 1) {
        assert c.send == old(c.send) || c.send == old(c.send) + [data];
        assert c.Accepted() == old(c.Accepted()) || c.Accepted() == old(c.Accepted()) + [data];
        FanOutKeepsOrder(old(c.Accepted()), data.number, data.driver, data.payload);
      }
    }
  }

  /** A rider's broadcasts stay in order, at most one copy each, whether or not it is queued the
      next one. */
  lemma FanOutKeepsOrder(accepted: seq<Message>, handled: nat, driver: Id, payload: string)
    requires Ordered(accepted, handled)
    ensures Ordered(accepted, handled + 1)
    ensures Ordered(accepted + [DriverLocation(handled, driver, payload)], handled + 1)
  {
    OrderedAppend(accepted, handled, DriverLocation(handled, driver, payload), handled + 1);
  }

  lemma StaysInOrder(c: Client, handled: nat)
    requires c.InOrder(handled)
    ensures c.InOrder(handled + 1)
  {
  }

  // ---- any history ----

  /** What can happen to the hub and its connections, which are known by number. */
  datatype Action =
    | Connect(id: Id, isDriver: bool)
    | Register(n: nat)
    | Unregister(n: nat)
    | Publish(driver: Id, payload: string, unlucky: set<nat>)
    | Subscribe(n: nat, driver: Id, chance: bool)
    | Unsubscribe(n: nat, driver: Id, chance: bool)
    | Tell(n: nat, text: string, chance: bool)
    | Write(n: nat)
    | Stop

  function Published(actions: seq<Action>): nat {
    if actions == [] then 0
    else Published(actions[..|actions| - 1]) + if actions[|actions| - 1].Publish? then 1 else 0
  }

  function Connects(actions: seq<Action>): nat {
    if actions == [] then 0
    else Connects(actions[..|actions| - 1]) + if actions[|actions| - 1].Connect? then 1 else 0
  }

  /** What an action does to who is current. */
  function EventsOf(action: Action, connections: seq<Client>): seq<Event> {
    match action
    case Register(n) => if n < |connections| then [Registered(connections[n])] else []
    case Unregister(n) => if n < |connections| then [Unregistered(connections[n])] else []
    case Stop => [ShutDown]
    case _ => []
  }

  /** The history of registrations that the actions make, each on the connections of its time. */
  function Events(actions: seq<Action>, connections: seq<Client>): seq<Event>
    requires Connects(actions) <= |connections|
  {
    if actions == [] then []
    else
      var before := actions[..|actions| - 1];
      Events(before, connections) + EventsOf(actions[|actions| - 1], connections[..Connects(before)])
  }

  lemma {:induction false} EventsStay(actions: seq<Action>, connections: seq<Client>, more: seq<Client>)
    requires Connects(actions) <= |connections| && connections <= more
    ensures Events(actions, more) == Events(actions, connections)
  {
    if actions != [] {
      var before := actions[..|actions| - 1];
      EventsStay(before, connections, more);
      assert more[..Connects(before)] == connections[..Connects(before)];
    }
  }

  lemma EventsNext(actions: seq<Action>, i: nat, connections: seq<Client>, more: seq<Client>)
    requires i < |actions| && Connects(actions[..i]) == |connections| && connections <= more
    requires |more| == |connections| + if actions[i].Connect? then 1 else 0
    ensures Connects(actions[..i + 1]) == |more|
    ensures Events(actions[..i + 1], more) == Events(actions[..i], connections) + EventsOf(actions[i], connections)
  {
    assert actions[..i + 1][..i] == actions[..i];
    EventsStay(actions[..i], connections, more);
    assert more[..|connections|] == connections;
  }

  lemma PublishedNext(actions: seq<Action>, i: nat)
    requires i < |actions|
    ensures Published(actions[..i + 1]) == Published(actions[..i]) + if actions[i].Publish? then 1 else 0
  {
    assert actions[..i + 1][..i] == actions[..i];
  }

  /** What a client of this number is subscribed to after one more action. */
  function SubscribedAfter(subscribed: set<Id>, isDriver: bool, n: nat, action: Action): set<Id> {
    match action
    case Subscribe(m, driver, _) => if m == n && !isDriver then subscribed + {driver} else subscribed
    case Unsubscribe(m, driver, _) => if m == n && !isDriver then subscribed - {driver} else subscribed
    case _ => subscribed
  }

  /** What it is subscribed to after them all: what it asked for while connected. */
  function Subscriptions(actions: seq<Action>, n: nat, isDriver: bool): set<Id> {
    if actions == [] then {}
    else
      var before := actions[..|actions| - 1];
      if n < Connects(before)
      then SubscribedAfter(Subscriptions(before, n, isDriver), isDriver, n, actions[|actions| - 1])
      else {}
  }

  lemma SubscriptionsNext(actions: seq<Action>, i: nat, n: nat, isDriver: bool)
    requires i < |actions|
    ensures Subscriptions(actions[..i + 1], n, isDriver)
         == if n < Connects(actions[..i])
            then SubscribedAfter(Subscriptions(actions[..i], n, isDriver), isDriver, n, actions[i])
            else {}
  {
    assert actions[..i + 1][..i] == actions[..i];
  }

  /** The message was published by one of the actions, of a driver the client was subscribed to then. */
  predicate HeardAt(actions: seq<Action>, a: nat, n: nat, isDriver: bool, m: Message) {
    && a < |actions| && m.DriverLocation?
    && actions[a].Publish? && actions[a].driver == m.driver && actions[a].payload == m.payload
    && Published(actions[..a]) == m.number
    && m.driver in Subscriptions(actions[..a], n, isDriver)
  }

  ghost predicate Heard(actions: seq<Action>, n: nat, isDriver: bool, m: Message) {
    exists a: nat :: HeardAt(actions, a, n, isDriver, m)
  }

  lemma HeardStays(actions: seq<Action>, i: nat, n: nat, isDriver: bool, m: Message)
    requires i < |actions| && Heard(actions[..i], n, isDriver, m)
    ensures Heard(actions[..i + 1], n, isDriver, m)
  {
    var a: nat :| HeardAt(actions[..i], a, n, isDriver, m);
    assert actions[..i + 1][..a] == actions[..i][..a];
    assert HeardAt(actions[..i + 1], a, n, isDriver, m);
  }

  /** One action queues a client at most one message, and a broadcast only if it is subscribed. */
  predicate Hears(before: seq<Message>, after: seq<Message>, action: Action, number: nat, subscribed: set<Id>) {
    || after == before
    || (|after| == |before| + 1 && after[..|before|] == before && after[|before|].Reply?)
    || (action.Publish? && action.driver in subscribed
        && after == before + [DriverLocation(number, action.driver, action.payload)])
  }

  ghost predicate HeardAll(actions: seq<Action>, n: nat, isDriver: bool, accepted: seq<Message>) {
    forall k :: 0 <= k < |accepted| && accepted[k].DriverLocation? ==> Heard(actions, n, isDriver, accepted[k])
  }

  lemma HeardNext(
    actions: seq<Action>, i: nat, n: nat, isDriver: bool, before: seq<Message>, after: seq<Message>)
    requires i < |actions| && HeardAll(actions[..i], n, isDriver, before)
    requires Hears(before, after, actions[i], Published(actions[..i]), Subscriptions(actions[..i], n, isDriver))
    ensures HeardAll(actions[..i + 1], n, isDriver, after)
  {
    forall k | 0 <= k < |after| && after[k].DriverLocation? ensures Heard(actions[..i + 1], n, isDriver, after[k]) {
      if k < |before| {
        assert after[k] == before[k];
        HeardStays(actions, i, n, isDriver, before[k]);
      } else {
        assert actions[..i + 1][..i] == actions[..i];
        assert HeardAt(actions[..i + 1], i, n, isDriver, after[k]);
      }
    }
  }

  ghost predicate Sound(hub: Hub, connections: seq<Client>)
    reads hub, hub.everyone, connections
  {
    && hub.Valid()
    && (forall c :: c in hub.everyone ==> c in connections)
    && EachInOrder(connections, hub.totalMessages)
    && (forall i, j :: 0 <= i < j < |connections| ==> connections[i] != connections[j])
  }

  ghost predicate EachInOrder(connections: seq<Client>, handled: nat)
    reads connections`send, connections`delivered
  {
    forall c :: c in connections ==> c.InOrder(handled)
  }

  /** One action; those that concern no connection are ignored. */
  method Serve(hub: Hub, connections: seq<Client>, action: Action) returns (more: seq<Client>)
    requires Sound(hub, connections)
    modifies hub, connections
    ensures Sound(hub, more) && forall c :: c in more ==> c in connections || fresh(c)
    ensures connections <= more && |more| == |connections| + if action.Connect? then 1 else 0
    ensures hub.log == old(hub.log) + EventsOf(action, connections)
    ensures hub.totalMessages == old(hub.totalMessages) + if action.Publish? then 1 else 0
    ensures forall j :: 0 <= j < |connections| ==>
                          connections[j].subscribed
                          == SubscribedAfter(old(connections[j].subscribed), connections[j].isDriver, j, action)
    ensures forall j :: 0 <= j < |connections| ==>
                          Hears(old(connections[j].Accepted()), connections[j].Accepted(), action,
                                old(hub.totalMessages), old(connections[j].subscribed))
    ensures action.Connect? ==> more[|connections|].subscribed == {} && more[|connections|].Accepted() == []
  {
    more := connections;
    match action
    case Connect(id, isDriver) => more := ServeConnect(hub, connections, id, isDriver);
    case Register(n) => ServeRegister(hub, connections, n);
    case Unregister(n) => ServeUnregister(hub, connections, n);
    case Publish(driver, payload, unlucky) =>
      var closing := set i | i in unlucky && i < |connections| :: connections[i];
      ServePublish(hub, connections, driver, payload, closing);
    case Subscribe(n, driver, chance) => ServeSubscribe(hub, connections, n, driver, chance);
    case Unsubscribe(n, driver, chance) => ServeUnsubscribe(hub, connections, n, driver, chance);
    case Tell(n, text, chance) => ServeTell(hub, connections, n, text, chance);
    case Write(n) => ServeWrite(hub, connections, n);
    case Stop => ServeStop(hub, connections);
  }

  method ServeConnect(hub: Hub, connections: seq<Client>, id: Id, isDriver: bool) returns (more: seq<Client>)
    requires Sound(hub, connections)
    ensures Sound(hub, more) && forall c :: c in more ==> c in connections || fresh(c)
    ensures connections <= more && |more| == |connections| + 1
    ensures more[|connections|].subscribed == {} && more[|connections|].Accepted() == []
  {
    var client := new Client(id, isDriver);
    more := connections + [client];
  }

  method ServeRegister(hub: Hub, connections: seq<Client>, n: nat)
    requires Sound(hub, connections)
    modifies hub, connections
    ensures Sound(hub, connections) && hub.totalMessages == old(hub.totalMessages)
    ensures hub.log == old(hub.log) + EventsOf(Register(n), connections)
    ensures forall j :: 0 <= j < |connections| ==> connections[j].subscribed == old(connections[j].subscribed)
    ensures forall j :: 0 <= j < |connections| ==> connections[j].Accepted() == old(connections[j].Accepted())
  {
    if n < |connections| {
      hub.RegisterClient(connections[n]);
    }
  }

  method ServeUnregister(hub: Hub, connections: seq<Client>, n: nat)
    requires Sound(hub, connections)
    modifies hub, connections
    ensures Sound(hub, connections) && hub.totalMessages == old(hub.totalMessages)
    ensures hub.log == old(hub.log) + EventsOf(Unregister(n), connections)
    ensures forall j :: 0 <= j < |connections| ==> connections[j].subscribed == old(connections[j].subscribed)
    ensures forall j :: 0 <= j < |connections| ==> connections[j].Accepted() == old(connections[j].Accepted())
  {
    if n < |connections| {
      var client := connections[n];
      assert EventsOf(Unregister(n), connections) == [Unregistered(client)];
      hub.UnregisterClient(client);
      assert EachInOrder(connections, hub.totalMessages);
      assert forall c :: c in hub.everyone ==> c in connections;
    }
  }

  method ServePublish(hub: Hub, connections: seq<Client>, driver: Id, payload: string, unlucky: set<Client>)
    requires Sound(hub, connections)
    modifies hub, connections
    ensures Sound(hub, connections) && hub.totalMessages == old(hub.totalMessages) + 1
    ensures hub.log == old(hub.log)
    ensures forall j :: 0 <= j < |connections| ==> connections[j].subscribed == old(connections[j].subscribed)
    ensures forall j :: 0 <= j < |connections| ==>
                          Hears(old(connections[j].Accepted()), connections[j].Accepted(), Publish(driver, payload, {}),
                                old(hub.totalMessages), old(connections[j].subscribed))
  {
    ghost var data := DriverLocation(hub.totalMessages, driver, payload);
    RidersAreConnected(hub, connections);
    PublishTo(hub, connections, driver, payload, unlucky);
    forall j | 0 <= j < |connections|
      ensures Hears(old(connections[j].Accepted()), connections[j].Accepted(), Publish(driver, payload, {}),
                    old(hub.totalMessages), old(connections[j].subscribed))
    {
      var c := connections[j];
      assert c.delivered + (old(c.send) + [data]) == (c.delivered + old(c.send)) + [data];
    }
  }

  lemma RidersAreConnected(hub: Hub, connections: seq<Client>)
    requires Sound(hub, connections)
    ensures forall c :: c in hub.riders.Values ==> c in connections && c in hub.everyone
  {
    forall id | id in hub.riders ensures hub.riders[id] in hub.everyone { hub.ConnectedIsRegistered(hub.riders[id]); }
  }

  method PublishTo(hub: Hub, connections: seq<Client>, driver: Id, payload: string, unlucky: set<Client>)
    requires Sound(hub, connections)
    modifies hub`totalMessages, hub.riders.Values`send
    ensures Sound(hub, connections) && hub.totalMessages == old(hub.totalMessages) + 1
    ensures var data := DriverLocation(old(hub.totalMessages), driver, payload);
            forall j :: 0 <= j < |connections| ==>
                          var c := connections[j];
                          c.send == old(c.send) || (driver in c.subscribed && c.send == old(c.send) + [data])
  {
    RidersAreConnected(hub, connections);
    forall c | c in connections ensures c.InOrder(hub.totalMessages + 1) { StaysInOrder(c, hub.totalMessages); }
    hub.HandleLocationBroadcast(driver, payload, unlucky);
  }

  method ServeSubscribe(hub: Hub, connections: seq<Client>, n: nat, driver: Id, chance: bool)
    requires Sound(hub, connections)
    modifies hub, connections
    ensures Sound(hub, connections) && hub.totalMessages == old(hub.totalMessages)
    ensures hub.log == old(hub.log)
    ensures forall j :: 0 <= j < |connections| ==>
                          var action := Subscribe(n, driver, chance);
                          connections[j].subscribed
                          == SubscribedAfter(old(connections[j].subscribed), connections[j].isDriver, j, action)
    ensures forall j :: 0 <= j < |connections| ==>
                          Hears(old(connections[j].Accepted()), connections[j].Accepted(), Subscribe(n, driver, chance),
                                old(hub.totalMessages), old(connections[j].subscribed))
  {
    if n < |connections| {
      var c := connections[n];
      c.HandleSubscribe(driver, chance);
      assert c.InOrder(hub.totalMessages);
    }
  }

  method ServeUnsubscribe(hub: Hub, connections: seq<Client>, n: nat, driver: Id, chance: bool)
    requires Sound(hub, connections)
    modifies hub, connections
    ensures Sound(hub, connections) && hub.totalMessages == old(hub.totalMessages)
    ensures hub.log == old(hub.log)
    ensures forall j :: 0 <= j < |connections| ==>
                          var action := Unsubscribe(n, driver, chance);
                          connections[j].subscribed
                          == SubscribedAfter(old(connections[j].subscribed), connections[j].isDriver, j, action)
    ensures forall j :: 0 <= j < |connections| ==>
                          var action := Unsubscribe(n, driver, chance);
                          Hears(old(connections[j].Accepted()), connections[j].Accepted(), action,
                                old(hub.totalMessages), old(connections[j].subscribed))
  {
    if n < |connections| {
      var c := connections[n];
      c.HandleUnsubscribe(driver, chance);
      assert c.InOrder(hub.totalMessages);
    }
  }

  /** Any other message to one client: a heartbeat's answer, an error, or one sent by name. */
  method ServeTell(hub: Hub, connections: seq<Client>, n: nat, text: string, chance: bool)
    requires Sound(hub, connections)
    modifies hub, connections
    ensures Sound(hub, connections) && hub.totalMessages == old(hub.totalMessages)
    ensures hub.log == old(hub.log)
    ensures forall j :: 0 <= j < |connections| ==> connections[j].subscribed == old(connections[j].subscribed)
    ensures forall j :: 0 <= j < |connections| ==>
                          Hears(old(connections[j].Accepted()), connections[j].Accepted(), Tell(n, text, chance),
                                old(hub.totalMessages), old(connections[j].subscribed))
  {
    if n < |connections| {
      var c := connections[n];
      var _ := c.SendBytes(Reply(text), chance);
      assert c.InOrder(hub.totalMessages);
    }
  }

  method ServeWrite(hub: Hub, connections: seq<Client>, n: nat)
    requires Sound(hub, connections)
    modifies hub, connections
    ensures Sound(hub, connections) && hub.totalMessages == old(hub.totalMessages)
    ensures hub.log == old(hub.log)
    ensures forall j :: 0 <= j < |connections| ==> connections[j].subscribed == old(connections[j].subscribed)
    ensures forall j :: 0 <= j < |connections| ==> connections[j].Accepted() == old(connections[j].Accepted())
  {
    if n < |connections| && connections[n].send != [] {
      var c := connections[n];
      var _ := c.Deliver();
      assert c.InOrder(hub.totalMessages);
    }
  }

  method ServeStop(hub: Hub, connections: seq<Client>)
    requires Sound(hub, connections)
    modifies hub, connections
    ensures Sound(hub, connections) && hub.totalMessages == old(hub.totalMessages)
    ensures hub.log == old(hub.log) + [ShutDown]
    ensures forall j :: 0 <= j < |connections| ==> connections[j].subscribed == old(connections[j].subscribed)
    ensures forall j :: 0 <= j < |connections| ==> connections[j].Accepted() == old(connections[j].Accepted())
  {
    hub.CloseAllClients();
  }

  /** The hub and its connections are as these actions leave them. */
  ghost predicate Follows(hub: Hub, connections: seq<Client>, actions: seq<Action>)
    reads hub, hub.everyone, connections
  {
    && Sound(hub, connections)
    && |connections| == Connects(actions) && hub.log == Events(actions, connections)
    && hub.totalMessages == Published(actions)
    && forall j :: 0 <= j < |connections| ==>
                     && connections[j].subscribed == Subscriptions(actions, j, connections[j].isDriver)
                     && HeardAll(actions, j, connections[j].isDriver, connections[j].Accepted())
  }

  method ServeNext(hub: Hub, connections: seq<Client>, actions: seq<Action>, i: nat) returns (more: seq<Client>)
    requires i < |actions| && Follows(hub, connections, actions[..i])
    modifies hub, connections
    ensures Follows(hub, more, actions[..i + 1])
    ensures forall c :: c in more ==> c in connections || fresh(c)
  {
    PublishedNext(actions, i);
    more := Serve(hub, connections, actions[i]);
    EventsNext(actions, i, connections, more);
    forall j | 0 <= j < |more|
      ensures more[j].subscribed == Subscriptions(actions[..i + 1], j, more[j].isDriver)
      ensures HeardAll(actions[..i + 1], j, more[j].isDriver, more[j].Accepted())
    {
      SubscriptionsNext(actions, i, j, more[j].isDriver);
      if j < |connections| {
        assert more[j] == connections[j];
        HeardNext(actions, i, j, more[j].isDriver, old(connections[j].Accepted()), more[j].Accepted());
      }
    }
  }

  /** After any history the maps hold the current clients, whoever left is closed, the counters
      are right, and every connection's broadcasts came in order, each at most once, within 256, and
      of drivers it was subscribed to when they were published. */
  method ServeAll(actions: seq<Action>) returns (hub: Hub, connections: seq<Client>)
    ensures Sound(hub, connections)
    ensures |connections| == Connects(actions) && hub.log == Events(actions, connections)
    ensures hub.totalMessages == Published(actions)
    ensures forall j :: 0 <= j < |connections| ==>
                          && connections[j].subscribed == Subscriptions(actions, j, connections[j].isDriver)
                          && |connections[j].send| <= 256
                          && HeardAll(actions, j, connections[j].isDriver, connections[j].Accepted())
  {
    hub := new Hub();
    connections := [];
    assert actions[..0] == [];
    for i := 0 to |actions|
      invariant fresh(hub) && forall j :: 0 <= j < |connections| ==> fresh(connections[j])
      invariant Follows(hub, connections, actions[..i])
    {
      var more := ServeNext(hub, connections, actions, i);
      forall j | 0 <= j < |more| ensures fresh(more[j]) { assert more[j] in more; }
      connections := more;
    }
    assert actions[..|actions|] == actions;
    forall j | 0 <= j < |connections| ensures |connections[j].send| <= 256 {
      assert connections[j] in connections && connections[j].InOrder(hub.totalMessages);
    }
  }
}
