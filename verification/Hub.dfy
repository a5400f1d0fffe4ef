/** The WebSocket hub of internal/websocket/hub.go and its clients, one step per select case. */
module Hub {
  /** Slots of a client's send channel. */
  const QUEUE_CAPACITY: nat := 256

  datatype Message = Message(kind: string, address: string, data: string)

  /** What travels in a client's send channel: a broadcast put there by the hub, or an acknowledgment. */
  datatype Item = Broadcasted(message: Message) | Ack(action: string)

  /** A client as the hub and its own pumps see it; `taken` is what `writePump` has received so far. */
  datatype ClientView = ClientView(
    registered: bool,
    queue: seq<Item>,
    taken: seq<Item>,
    subscriptions: set<string>,
    closes: nat)

  const NEW_CLIENT := ClientView(false, [], [], {}, 0)

  datatype Event =
    | Register(client: nat)
    | Unregister(client: nat)
    | Broadcast(message: Message)
    | Subscribe(client: nat, address: string)
    | Unsubscribe(client: nat, address: string)
    | SendAck(client: nat, action: string)
    | Take(client: nat)

  // ----- One client's part in a step -----

  predicate Wants(v: ClientView, m: Message) {
    m.address == "" || m.address in v.subscriptions
  }

  function Close(v: ClientView): ClientView {
    v.(registered := false, closes := v.closes + 1)
  }

  function Deliver(v: ClientView, m: Message): ClientView {
    if !v.registered || !Wants(v, m) then v
    else if |v.queue| < QUEUE_CAPACITY then v.(queue := v.queue + [Broadcasted(m)])
    else Close(v)
  }

  /** A full channel blocks the sender of an acknowledgment, and an empty one the receiver. */
  predicate Enabled(v: ClientView, e: Event, c: nat) {
    && (e.SendAck? && e.client == c ==> |v.queue| < QUEUE_CAPACITY && v.closes == 0)
    && (e.Take? && e.client == c ==> v.queue != [])
  }

  function Step(v: ClientView, e: Event, c: nat): ClientView {
    match e
    case Register(d) => if d == c then v.(registered := true) else v
    case Unregister(d) => if d == c && v.registered then Close(v) else v
    case Broadcast(m) => Deliver(v, m)
    case Subscribe(d, a) => if d == c then v.(subscriptions := v.subscriptions + {a}) else v
    case Unsubscribe(d, a) => if d == c then v.(subscriptions := v.subscriptions - {a}) else v
    case SendAck(d, a) => if d == c then v.(queue := v.queue + [Ack(a)]) else v
    case Take(d) => if d == c && v.queue != [] then v.(queue := v.queue[1..], taken := v.taken + v.queue[..1]) else v
  }

  // ----- Runs -----

  ghost function After(run: seq<Event>, c: nat): ClientView {
    if run == [] then NEW_CLIENT else Step(After(Front(run), c), Last(run), c)
  }

  function Front(run: seq<Event>): seq<Event>
    requires run != []
  {
    run[..|run| - 1]
  }

  function Last(run: seq<Event>): Event
    requires run != []
  {
    run[|run| - 1]
  }

  ghost predicate Possible(run: seq<Event>, c: nat) {
    run == [] || (Possible(Front(run), c) && Enabled(After(Front(run), c), Last(run), c))
  }

  function Registrations(run: seq<Event>, c: nat): nat {
    if run == [] then 0 else Registrations(Front(run), c) + (if Last(run) == Register(c) then 1 else 0)
  }

  // ----- What a client is owed, read off the events alone -----

  /** Every event that decides an address's subscription comes from the client itself; the last one counts. */
  function Subscribed(run: seq<Event>, c: nat, address: string): bool {
    if run == [] then false
    else if Last(run) == Subscribe(c, address) then true
    else if Last(run) == Unsubscribe(c, address) then false
    else Subscribed(Front(run), c, address)
  }

  /** The broadcasts since the client's registration that had no address or one it was subscribed to at that moment. */
  function Owed(run: seq<Event>, c: nat): seq<Message> {
    if run == [] then []
    else
      match Last(run)
      case Register(d) => if d == c then [] else Owed(Front(run), c)
      case Broadcast(m) =>
        if m.address == "" || Subscribed(Front(run), c, m.address) then Owed(Front(run), c) + [m] else Owed(Front(run), c)
      case _ => Owed(Front(run), c)
  }

  function MessageOf(item: Item): seq<Message> {
    match item
    case Broadcasted(m) => [m]
    case Ack(_) => []
  }

  function Broadcasts(items: seq<Item>): seq<Message> {
    if items == [] then [] else
      Broadcasts(items[..|items| - 1]) + MessageOf(items[|items| - 1])
  }

  lemma {:induction false} SubscriptionsMatch(run: seq<Event>, c: nat)
    ensures forall a :: a in After(run, c).subscriptions <==> Subscribed(run, c, a)
  {
    if run != [] {
      SubscriptionsMatch(Front(run), c);
    }
  }

  lemma TakeKeepsItems(v: ClientView)
    requires v.queue != []
    ensures v.taken + v.queue[..1] + v.queue[1..] == v.taken + v.queue
  {
  }

  lemma BroadcastsOfNone()
    ensures Broadcasts([]) == []
  {
  }

  lemma BroadcastsSnoc(items: seq<Item>, tail: seq<Item>, i: Item)
    ensures Broadcasts(items + (tail + [i])) == Broadcasts(items + tail) + MessageOf(i)
  {
    var all := items + (tail + [i]);
    assert all[..|all| - 1] == items + tail;
  }

  lemma DeliverAppends(v: ClientView, m: Message)
    ensures var v' := Deliver(v, m);
      if !v.registered || !Wants(v, m) then v' == v
      else if v'.registered then Broadcasts(v'.taken + v'.queue) == Broadcasts(v.taken + v.queue) + [m] && v'.closes == v.closes
      else v' == Close(v)
    ensures |v.queue| <= QUEUE_CAPACITY ==> |Deliver(v, m).queue| <= QUEUE_CAPACITY
  {
    BroadcastsSnoc(v.taken, v.queue, Broadcasted(m));
  }

  /** How far a client's deliveries may lag, and when its channel is closed. */
  ghost predicate Delivered(run: seq<Event>, c: nat) {
    var v := After(run, c);
    && Broadcasts(v.taken + v.queue) <= Owed(run, c)
    && (v.registered ==> Broadcasts(v.taken + v.queue) == Owed(run, c))
    && |v.queue| <= QUEUE_CAPACITY
    && v.closes == (if Registrations(run, c) == 1 && !v.registered then 1 else 0)
    && (Registrations(run, c) == 0 ==> !v.registered && Broadcasts(v.taken + v.queue) == [])
  }

  /**
   * In every run that registers a client at most once: while it is registered, what was taken from its queue
   * followed by what is queued is exactly what it is owed, in order; afterwards a prefix of it. The queue never
   * exceeds its capacity, and the channel is closed once, exactly when the client leaves the hub.
   */
  lemma {:induction false} NothingMissed(run: seq<Event>, c: nat)
    requires Possible(run, c) && Registrations(run, c) <= 1
    ensures Delivered(run, c)
  {
    hide Deliver, Broadcasts, Subscribed;
    if run == [] {
      BroadcastsOfNone();
      assert NEW_CLIENT.taken + NEW_CLIENT.queue == [];
    } else {
      NothingMissed(Front(run), c);
      SubscriptionsMatch(Front(run), c);
      var v, e := After(Front(run), c), Last(run);
      if e.Take? && e.client == c {
        TakeKeepsItems(v);
      } else if e.SendAck? && e.client == c {
        BroadcastsSnoc(v.taken, v.queue, Ack(e.action));
      } else if e.Broadcast? {
        DeliverAppends(v, e.message);
      }
    }
  }

  // ----- When a client leaves, read off the events alone -----

  function Acks(run: seq<Event>, c: nat): nat {
    if run == [] then 0 else Acks(Front(run), c) + (if Last(run).SendAck? && Last(run).client == c then 1 else 0)
  }

  function Takes(run: seq<Event>, c: nat): nat {
    if run == [] then 0 else Takes(Front(run), c) + (if Last(run) == Take(c) then 1 else 0)
  }

  /** What should arrive: every acknowledgment, and since the registration every broadcast the client wants, in one order. */
  function Items(run: seq<Event>, c: nat): seq<Item> {
    if run == [] then []
    else
      match Last(run)
      case Broadcast(m) =>
        if Registrations(Front(run), c) >= 1 && (m.address == "" || Subscribed(Front(run), c, m.address))
        then Items(Front(run), c) + [Broadcasted(m)] else Items(Front(run), c)
      case SendAck(d, a) => if d == c then Items(Front(run), c) + [Ack(a)] else Items(Front(run), c)
      case _ => Items(Front(run), c)
  }

  /** Before the client leaves, its queue holds what should arrive less what was taken; afterwards nothing is added. */
  ghost predicate Arrived(run: seq<Event>, c: nat) {
    var v := After(run, c);
    && |v.taken| == Takes(run, c)
    && v.taken + v.queue <= Items(run, c)
    && (v.closes == 0 ==> v.taken + v.queue == Items(run, c))
    && v.closes == (if Registrations(run, c) == 1 && !v.registered then 1 else 0)
    && (v.registered ==> Registrations(run, c) == 1)
    && (Registrations(run, c) == 1 ==> |Items(run, c)| == |Owed(run, c)| + Acks(run, c))
    && (Registrations(run, c) == 0 ==> |Items(run, c)| == Acks(run, c))
  }

  /**
   * In every run that registers a client at most once, acknowledgments and broadcasts arrive in the order of their events,
   * none of them missing while the client has not left, and nothing but a prefix of them once it has.
   */
  lemma {:induction false} ItemsArrive(run: seq<Event>, c: nat)
    requires Possible(run, c) && Registrations(run, c) <= 1
    ensures Arrived(run, c)
  {
    hide Subscribed;
    if run != [] {
      ItemsArrive(Front(run), c);
      SubscriptionsMatch(Front(run), c);
      var v, e := After(Front(run), c), Last(run);
      if e.Take? && e.client == c {
        TakeKeepsItems(v);
      } else if e.SendAck? && e.client == c {
        assert v.taken + (v.queue + [Ack(e.action)]) == v.taken + v.queue + [Ack(e.action)];
      } else if e.Broadcast? {
        assert v.taken + (v.queue + [Broadcasted(e.message)]) == v.taken + v.queue + [Broadcasted(e.message)];
      }
    }
  }

  /** A client leaves by its own Unregister or at a broadcast it wants while 256 items owed to it are waiting, and not otherwise. */
  lemma LeavesIff(run: seq<Event>, e: Event, c: nat)
    requires Possible(run, c) && Registrations(run, c) <= 1 && After(run, c).registered
    ensures !After(run + [e], c).registered <==>
      || e == Unregister(c)
      || (e.Broadcast? && (e.message.address == "" || Subscribed(run, c, e.message.address))
          && |Owed(run, c)| + Acks(run, c) - Takes(run, c) >= 256)
  {
    ItemsArrive(run, c);
    SubscriptionsMatch(run, c);
    assert Front(run + [e]) == run;
    hide Possible, Owed, Subscribed, Acks, Takes, Items;
  }

  // ----- The hub's objects -----

  class Client {
    var send: seq<Item>
    var subscriptions: set<string>
    ghost var taken: seq<Item>
    ghost var closes: nat

    constructor ()
      ensures send == [] && subscriptions == {} && taken == [] && closes == 0
    {
      send, subscriptions, taken, closes := [], {}, [], 0;
    }

    method IsSubscribed(address: string) returns (r: bool)
      ensures r == (address in subscriptions)
    {
      r := address in subscriptions;
    }

    method Subscribe(address: string)
      modifies this`subscriptions
      ensures subscriptions == old(subscriptions) + {address}
    {
      subscriptions := subscriptions + {address};
    }

    method Unsubscribe(address: string)
      modifies this`subscriptions
      ensures subscriptions == old(subscriptions) - {address}
    {
      subscriptions := subscriptions - {address};
    }

    /** The moment at which the blocking send goes through. */
    method SendAck(action: string)
      requires |send| < QUEUE_CAPACITY && closes == 0
      modifies this`send
      ensures send == old(send) + [Ack(action)]
    {
      send := send + [Ack(action)];
    }

    /** The moment at which `writePump` receives. */
    method Take() returns (item: Item)
      requires send != []
      modifies this`send, this`taken
      ensures item == old(send)[0]
      ensures send == old(send)[1..] && taken == old(taken) + old(send)[..1]
    {
      item := send[0];
      taken := taken + send[..1];
      send := send[1..];
    }
  }

  class HubLoop {
    var clients: set<Client>

    constructor ()
      ensures clients == {}
    {
      clients := {};
    }

    ghost function View(c: Client): ClientView
      reads this, c
    {
      ClientView(c in clients, c.send, c.taken, c.subscriptions, c.closes)
    }

    method OnRegister(client: Client)
      modifies this
      ensures clients == old(clients) + {client}
      ensures View(client) == old(View(client)).(registered := true)
    {
      clients := clients + {client};
    }

    method OnUnregister(client: Client)
      modifies this, client`closes
      ensures clients == old(clients) - {client}
      ensures View(client) == if client in old(clients) then Close(old(View(client))) else old(View(client))
    {
      if client in clients {
        clients := clients - {client};
        CloseChannel(client);
      }
    }

    method CloseChannel(client: Client)
      modifies client`closes
      ensures client.closes == old(client.closes) + 1
    {
      client.closes := client.closes + 1;
    }

    /** One round of the broadcast loop. */
    method Offer(client: Client, message: Message)
      requires client in clients
      modifies this, client`send, client`closes
      ensures clients == old(clients) || clients == old(clients) - {client}
      ensures View(client) == Deliver(old(View(client)), message)
    {
      var subscribed := client.IsSubscribed(message.address);
      if message.address != "" && !subscribed {
        return;
      }
      if |client.send| < QUEUE_CAPACITY {
        client.send := client.send + [Broadcasted(message)];
      } else {
        CloseChannel(client);
        clients := clients - {client};
      }
    }

    /** The broadcast case: every registered client gets the message, or is closed when its queue is full. */
    method OnBroadcast(message: Message)
      modifies this, clients
      ensures clients <= old(clients)
      ensures forall c :: c in old(clients) ==> View(c) == Deliver(old(View(c)), message)
    {
      hide Deliver;
      var todo := clients;
      while todo != {}
        invariant todo <= clients <= old(clients)
        invariant forall c :: c in old(clients) && c !in todo ==> View(c) == Deliver(old(View(c)), message)
        invariant forall c :: c in todo ==> View(c) == old(View(c))
        decreases |todo|
      {
        var client :| client in todo;
        todo := todo - {client};
        Offer(client, message);
      }
    }
  }
}
