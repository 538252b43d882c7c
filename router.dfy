/** The host's router: the table of callers waiting for an RPC reply, the
    stream of telemetry published to subscribers, and the loop that
    dispatches each decoded message to one of them. */
module Routing {
  import opened Messages

  /** The sending half of a one-shot reply slot registered for an id. It is
      `Open` while the caller still holds the receiving half and `Closed` once
      that half was dropped. */
  datatype Waiter = Open | Closed

  /** A reply payload handed to the caller waiting on `id`. */
  datatype Delivery = Delivery(id: u16, payload: RpcPayload)

  /** The listeners as values: the waiter table, every reply handed to a
      waiter so far, every telemetry payload published so far, and the number
      of stream receivers subscribed. */
  datatype Table = Table(rpc: map<u16, Waiter>, delivered: seq<Delivery>,
                         published: seq<StreamPayload>, receivers: nat)

  /** Listeners as they are created: no waiter, nothing delivered or
      published, no stream receiver. */
  const EmptyTable := Table(map[], [], [], 0)

  /** Registering a waiter for `id` in `rpc`: `None` when the id is taken by a
      waiter whose caller still listens. */
  function SubscribeRpcStep(rpc: map<u16, Waiter>, id: u16): (r: Option<map<u16, Waiter>>)
    // Refused exactly when an open waiter holds the id.
    ensures r.None? <==> id in rpc && rpc[id] == Open
    // Accepted: the id now has an open waiter (a vacant id is added, a closed
    // waiter is replaced) and every other id keeps its entry.
    ensures r.Some? ==> id in r.value && r.value[id] == Open
    ensures r.Some? ==> r.value.Keys == rpc.Keys + {id}
    ensures r.Some? ==> forall k :: k in rpc && k != id ==> r.value[k] == rpc[k]
  {
    if id in rpc then
      match rpc[id]
      case Closed => Some(rpc[id := Open])
      case Open => None
    else Some(rpc[id := Open])
  }

  /** One dispatch step of the router for a decoded message. */
  function Dispatch(t: Table, m: Message): (u: Table)
    // A reply removes the entry of its id, and nothing else, from the table;
    // it is handed over only when that entry's caller still listens.
    ensures m.Rpc? ==> u.rpc.Keys == t.rpc.Keys - {m.id}
    ensures m.Rpc? ==> forall k :: k in u.rpc ==> u.rpc[k] == t.rpc[k]
    ensures m.Rpc? ==>
              u.delivered == t.delivered + (if m.id in t.rpc && t.rpc[m.id] == Open then [Delivery(m.id, m.rpc)] else [])
    // An unsolicited reply changes nothing at all.
    ensures m.Rpc? && m.id !in t.rpc ==> u == t
    // Telemetry never touches the waiter table; it is published when anyone
    // subscribed and dropped otherwise.
    ensures m.Stream? ==> u.rpc == t.rpc && u.delivered == t.delivered
    ensures m.Stream? ==> u.published == t.published + (if t.receivers > 0 then [m.stream] else [])
    ensures u.receivers == t.receivers
    ensures m.Rpc? ==> u.published == t.published
  {
    match m
    case Rpc(id, payload) =>
      if id in t.rpc then
        var delivered := if t.rpc[id] == Open then t.delivered + [Delivery(id, payload)] else t.delivered;
        t.(rpc := t.rpc - {id}, delivered := delivered)
      else t
    case Stream(payload) =>
      if t.receivers > 0 then t.(published := t.published + [payload]) else t
  }

  /** What the router reads from the channel: end of stream, a read error or
      a decoded message. */
  type Incoming = Option<Result<Message, CodecError>>

  /** One turn of the router's loop: end of stream and read errors are
      skipped, a message is dispatched. */
  function Route(t: Table, item: Incoming): Table
  {
    match item
    case Some(Ok(m)) => Dispatch(t, m)
    case _ => t
  }

  /** The loop over a prefix of the channel's output. */
  function RouteAll(t: Table, items: seq<Incoming>): Table
    decreases |items|
  {
    if items == [] then t
    else Route(RouteAll(t, items[..|items| - 1]), items[|items| - 1])
  }

  /** The decoded messages among `items`, in order. */
  function Received(items: seq<Incoming>): seq<Message>
    decreases |items|
  {
    if items == [] then []
    else
      var last := items[|items| - 1];
      Received(items[..|items| - 1]) + (if last.Some? && last.value.Ok? then [last.value.value] else [])
  }

  /** Dispatching a sequence of messages in order. */
  function DispatchAll(t: Table, ms: seq<Message>): Table
    decreases |ms|
  {
    if ms == [] then t else Dispatch(DispatchAll(t, ms[..|ms| - 1]), ms[|ms| - 1])
  }

  lemma {:induction false} DispatchAllAppend(t: Table, ms: seq<Message>, m: Message)
    ensures DispatchAll(t, ms + [m]) == Dispatch(DispatchAll(t, ms), m)
  {
    assert (ms + [m])[..|ms + [m]| - 1] == ms;
  }

  /** Errors and end of stream never affect the router: its state after any
      prefix of the channel is the dispatch of exactly the decoded messages. */
  lemma {:induction false} RouteAllSkipsErrors(t: Table, items: seq<Incoming>)
    ensures RouteAll(t, items) == DispatchAll(t, Received(items))
    decreases |items|
  {
    if items != [] {
      var init := items[..|items| - 1];
      var last := items[|items| - 1];
      RouteAllSkipsErrors(t, init);
      if last.Some? && last.value.Ok? {
        DispatchAllAppend(t, Received(init), last.value.value);
      } else {
        assert Received(items) == Received(init) + [] == Received(init);
        assert Route(RouteAll(t, init), last) == RouteAll(t, init);
      }
    }
  }

  /** Number of replies handed to the caller waiting on `id`. */
  function DeliveriesTo(d: seq<Delivery>, id: u16): nat
    decreases |d|
  {
    if d == [] then 0
    else DeliveriesTo(d[..|d| - 1], id) + (if d[|d| - 1].id == id then 1 else 0)
  }

  /** Whether the table holds an open waiter for `id`: one reply still owed. */
  function Owed(t: Table, id: u16): nat
  {
    if id in t.rpc && t.rpc[id] == Open then 1 else 0
  }

  lemma DeliveriesToAppend(d: seq<Delivery>, x: Delivery, id: u16)
    ensures DeliveriesTo(d + [x], id) == DeliveriesTo(d, id) + (if x.id == id then 1 else 0)
  {
    assert (d + [x])[..|d + [x]| - 1] == d;
  }

  /** The router never registers waiters, so without a new subscription each
      waiter receives at most one reply however many carry its id: the table
      only shrinks, keeping its entries, and a reply delivered to `id` uses up
      the open waiter it needs. */
  lemma {:induction false} AtMostOneReplyPerWaiter(t: Table, items: seq<Incoming>, id: u16)
    ensures var u := RouteAll(t, items);
            && (forall k :: k in u.rpc ==> k in t.rpc && u.rpc[k] == t.rpc[k])
            && DeliveriesTo(u.delivered, id) + Owed(u, id) <= DeliveriesTo(t.delivered, id) + Owed(t, id)
    decreases |items|
  {
    if items != [] {
      var init := items[..|items| - 1];
      var last := items[|items| - 1];
      AtMostOneReplyPerWaiter(t, init, id);
      var v := RouteAll(t, init);
      assert RouteAll(t, items) == Route(v, last);
      if last.Some? && last.value.Ok? && last.value.value.Rpc? {
        var m := last.value.value;
        if m.id in v.rpc && v.rpc[m.id] == Open {
          DeliveriesToAppend(v.delivered, Delivery(m.id, m.rpc), id);
        }
      }
    }
  }

  /** The listeners shared by the router and every handle to it. */
  class Listeners {
    var rpc: map<u16, Waiter>
    var delivered: seq<Delivery>
    var published: seq<StreamPayload>
    var receivers: nat

    function Snapshot(): Table
      reads this
    {
      Table(rpc, delivered, published, receivers)
    }

    constructor Default()
      ensures Snapshot() == EmptyTable
    {
      rpc := map[];
      delivered := [];
      published := [];
      receivers := 0;
    }

    /** Removes the waiter of a reply's id and hands the reply to it, or
        publishes a telemetry payload; a failed hand-over or publication is
        ignored. */
    method Deliver(m: Message)
      modifies this
      ensures Snapshot() == Dispatch(old(Snapshot()), m)
    {
      match m {
        case Rpc(id, payload) =>
          if id in rpc {
            var waiter := rpc[id];
            rpc := rpc - {id};
            if waiter == Open {
              delivered := delivered + [Delivery(id, payload)];
            }
          }
        case Stream(payload) =>
          if receivers > 0 {
            published := published + [payload];
          }
      }
    }

    /** The caller waiting on `id` drops its receiver: the waiter, if still
        registered, can no longer be handed anything. */
    method CloseReceiver(id: u16)
      modifies this
      ensures rpc == if id in old(rpc) then old(rpc)[id := Closed] else old(rpc)
      ensures delivered == old(delivered) && published == old(published) && receivers == old(receivers)
    {
      if id in rpc {
        rpc := rpc[id := Closed];
      }
    }
  }

  /** Reads decoded messages and dispatches them to the listeners. */
  class Router {
    const listeners: Listeners

    constructor New()
      ensures fresh(listeners) && listeners.Snapshot() == EmptyTable
    {
      listeners := new Listeners.Default();
    }

    /** The router's loop over the first `incoming.len` items the channel
        produces: errors and end of stream are skipped, messages dispatched. */
    method Run(incoming: seq<Incoming>)
      modifies listeners
      ensures listeners.Snapshot() == RouteAll(old(listeners.Snapshot()), incoming)
    {
      for i := 0 to |incoming|
        invariant listeners.Snapshot() == RouteAll(old(listeners.Snapshot()), incoming[..i])
      {
        assert incoming[..i + 1][..i] == incoming[..i];
        var item := incoming[i];
        if item.Some? && item.value.Ok? {
          listeners.Deliver(item.value.value);
        }
      }
      assert incoming[..|incoming|] == incoming;
    }
  }

  /** A handle through which callers register with a router's listeners. */
  class RouterHandle {
    const listeners: Listeners

    constructor Of(router: Router)
      ensures listeners == router.listeners
    {
      listeners := router.listeners;
    }

    /** Registers a waiter for `id`; `Ok` stands for the receiving half handed
        to the caller. */
    method SubscribeRpc(id: u16) returns (r: Result<(), ()>)
      modifies listeners
      ensures var s := SubscribeRpcStep(old(listeners.rpc), id);
              && (r.Ok? <==> s.Some?)
              && listeners.rpc == (if s.Some? then s.value else old(listeners.rpc))
      ensures listeners.delivered == old(listeners.delivered)
      ensures listeners.published == old(listeners.published)
      ensures listeners.receivers == old(listeners.receivers)
    {
      if id in listeners.rpc && listeners.rpc[id] == Open {
        r := Err(());
      } else {
        listeners.rpc := listeners.rpc[id := Open];
        r := Ok(());
      }
    }

    /** Subscribes a stream receiver; it will see the payloads published from
        index `cursor` on. */
    method SubscribeStream() returns (cursor: nat)
      modifies listeners
      ensures cursor == |listeners.published|
      ensures listeners.receivers == old(listeners.receivers) + 1
      ensures listeners.rpc == old(listeners.rpc)
      ensures listeners.delivered == old(listeners.delivered)
      ensures listeners.published == old(listeners.published)
    {
      listeners.receivers := listeners.receivers + 1;
      cursor := |listeners.published|;
    }
  }

  /** An id is held by one caller at a time: a second registration is refused
      while the first caller listens, and the id is free again once its reply
      was dispatched. */
  method IdExclusivity(reply: RpcPayload) returns (first: Result<(), ()>, second: Result<(), ()>, third: Result<(), ()>)
    ensures first.Ok? && second.Err? && third.Ok?
  {
    var router := new Router.New();
    var handle := new RouterHandle.Of(router);
    first := handle.SubscribeRpc(42);
    second := handle.SubscribeRpc(42);
    router.Run([Some(Ok(Rpc(42, reply)))]);
    third := handle.SubscribeRpc(42);
  }

  /** Replies reach the caller of their own id only; an unsolicited reply and
      a read error in between are dropped. */
  method DispatchByIdentifier(a: RpcPayload, b: RpcPayload, c: RpcPayload) returns (delivered: seq<Delivery>)
    ensures delivered == [Delivery(2, b), Delivery(1, a)]
  {
    var router := new Router.New();
    var handle := new RouterHandle.Of(router);
    var _ := handle.SubscribeRpc(1);
    var _ := handle.SubscribeRpc(2);
    var items: seq<Incoming> := [Some(Ok(Rpc(2, b))), Some(Err(Deserialization)), Some(Ok(Rpc(7, c))), None, Some(Ok(Rpc(1, a)))];
    ghost var t0 := router.listeners.Snapshot();
    assert t0.rpc == map[1 := Open, 2 := Open] && t0.delivered == [];
    assert items[..1][..0] == [];
    ghost var t1 := Dispatch(t0, Rpc(2, b));
    assert RouteAll(t0, items[..1]) == t1;
    assert t1.rpc == map[1 := Open];
    assert t1.delivered == [Delivery(2, b)];
    assert items[..2][..1] == items[..1] && items[..3][..2] == items[..2];
    assert items[..4][..3] == items[..3] && items[..5][..4] == items[..4];
    assert RouteAll(t0, items[..2]) == t1;
    assert RouteAll(t0, items[..3]) == t1;
    assert RouteAll(t0, items[..4]) == t1;
    assert items[..5] == items;
    router.Run(items);
    delivered := router.listeners.delivered;
  }
}
