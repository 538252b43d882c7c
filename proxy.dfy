/** The host's RPC client: a wrapping id counter, the table of remote
    procedures with the reply each one expects, and the fixed sequence of
    steps of one call. */
module Proxying {
  import opened Messages
  import opened HostCodec
  import opened Routing

  /** The remote procedures the device serves. */
  datatype Procedure = Ping | MoveCmd | MoveStatus | MoveCancel | PidParamUpdate | RawTeleOp

  /** The request variant of procedure `p` carrying `body`. */
  function Request(p: Procedure, body: Body): (r: RpcPayload)
    ensures r.body == body
    // A request is never taken for a reply, whichever procedure awaits it.
    ensures forall q :: ExpectedReply(q, r).None?
  {
    match p
    case Ping => PingReq(body)
    case MoveCmd => MoveReq(body)
    case MoveStatus => MoveStatusReq(body)
    case MoveCancel => MoveCancelReq(body)
    case PidParamUpdate => PidParamUpdateReq(body)
    case RawTeleOp => RawTeleOpReq(body)
  }

  /** The reply variant of procedure `p` carrying `body`. */
  function ReplyOf(p: Procedure, body: Body): (r: RpcPayload)
    ensures r.body == body
    // Each reply variant belongs to exactly one procedure.
    ensures forall q :: ExpectedReply(q, r).Some? <==> q == p
  {
    match p
    case Ping => PingRep(body)
    case MoveCmd => MoveRep(body)
    case MoveStatus => MoveStatusRep(body)
    case MoveCancel => MoveCancelRep(body)
    case PidParamUpdate => PidParamUpdateRep(body)
    case RawTeleOp => RawTeleOpRep(body)
  }

  /** The body of `payload` when it is the reply variant procedure `p`
      expects; `None` for any other variant. */
  function ExpectedReply(p: Procedure, payload: RpcPayload): (r: Option<Body>)
  {
    match (p, payload)
    case (Ping, PingRep(b)) => Some(b)
    case (MoveCmd, MoveRep(b)) => Some(b)
    case (MoveStatus, MoveStatusRep(b)) => Some(b)
    case (MoveCancel, MoveCancelRep(b)) => Some(b)
    case (PidParamUpdate, PidParamUpdateRep(b)) => Some(b)
    case (RawTeleOp, RawTeleOpRep(b)) => Some(b)
    case _ => None
  }

  /** The expected reply is recognised exactly when it is `p`'s reply
      variant, and then its body is handed back unchanged. */
  lemma ExpectedReplyMatchesReplyOf(p: Procedure, payload: RpcPayload)
    ensures ExpectedReply(p, payload).Some? <==> payload == ReplyOf(p, payload.body)
    ensures ExpectedReply(p, payload).Some? ==> ExpectedReply(p, payload).value == payload.body
  {
    match p
    case Ping =>
    case MoveCmd =>
    case MoveStatus =>
    case MoveCancel =>
    case PidParamUpdate =>
    case RawTeleOp =>
  }

  /** A 16-bit counter increment that wraps around. */
  function NextId(id: u16): (next: u16)
    ensures id < 0xffff ==> next == id + 1
    ensures id == 0xffff ==> next == 0
  {
    (id + 1) % 0x1_0000
  }

  /** The counter's value after `k` calls, starting from 0. */
  function IdAfter(k: nat): u16
    decreases k
  {
    if k == 0 then 0 else NextId(IdAfter(k - 1))
  }

  /** The `k`-th call uses id `k mod 2^16`: the first id is 1. */
  lemma {:induction false} IdAfterIsModulo(k: nat)
    ensures IdAfter(k) == k % 0x1_0000
    decreases k
  {
    if k > 0 {
      IdAfterIsModulo(k - 1);
    }
  }

  /** Ids repeat with period 2^16 and are pairwise distinct within any 2^16
      consecutive calls. */
  lemma IdsDistinctWithinWindow(i: nat, j: nat)
    ensures i < j < i + 0x1_0000 ==> IdAfter(i) != IdAfter(j)
    ensures IdAfter(i + 0x1_0000) == IdAfter(i)
  {
    IdAfterIsModulo(i);
    IdAfterIsModulo(j);
    IdAfterIsModulo(i + 0x1_0000);
  }

  /** The sending half of the framed channel: messages are encoded into the
      write buffer `wire` and then flushed to the serial port. The flush is
      not modelled as draining `wire`, which therefore keeps every frame
      encoded so far. */
  class Sink {
    const codec: Codec
    const wire: BytesMut
    /** Messages flushed to the device so far. */
    var sent: seq<Message>

    constructor (codec: Codec, wire: BytesMut)
      ensures this.codec == codec && this.wire == wire && sent == []
    {
      this.codec := codec;
      this.wire := wire;
      sent := [];
    }

    /** Encodes and flushes `m`; `ioOk` is whether the port accepts the
        write. */
    method Send(m: Message, ioOk: bool) returns (r: Result<(), CodecError>)
      modifies this, wire
      ensures codec.frame(m).None? ==> r == Err(Serialization) && wire.View() == old(wire.View())
      ensures codec.frame(m).Some? && !ioOk ==> r == Err(IO)
      ensures codec.frame(m).Some? ==> wire.data == old(wire.data) + codec.frame(m).value && wire.ptr == old(wire.ptr)
      ensures r.Ok? <==> codec.frame(m).Some? && ioOk
      ensures sent == if r.Ok? then old(sent) + [m] else old(sent)
    {
      r := codec.Encode(m, wire);
      if r.Ok? {
        if ioOk {
          sent := sent + [m];
        } else {
          r := Err(IO);
        }
      }
    }
  }

  /** Whether `m` would be sent: it serialises and the port accepts it. */
  predicate SendSucceeds(codec: Codec, m: Message, ioOk: bool)
  {
    codec.frame(m).Some? && ioOk
  }

  /** The client object: one counter, the sink and a handle to the router. */
  class ProxyImpl {
    var id: u16
    const sink: Sink
    const router: RouterHandle

    constructor New(sink: Sink, router: RouterHandle)
      ensures id == 0 && this.sink == sink && this.router == router
    {
      id := 0;
      this.sink := sink;
      this.router := router;
    }

    /** Advances the counter, wrapping at 2^16, and returns its new value. */
    method GenId() returns (next: u16)
      modifies this
      ensures next == NextId(old(id)) && id == next
    {
      id := NextId(id);
      next := id;
    }

    /** One remote call of procedure `p` with request `body`. The call
        registers a waiter under a fresh id, sends the request under that same
        id, then awaits the reply. `ioOk` says whether the port takes the
        write. `reply` is what the waiter receives: `Some(payload)` when the
        device answers and the router dispatches the answer, and `None` when
        the waiter is dropped without a value. */
    method Call(p: Procedure, body: Body, ioOk: bool, reply: Option<RpcPayload>)
      returns (r: Result<Body, RpcError>)
      modifies this, sink, sink.wire, router.listeners
      ensures id == NextId(old(id))
      // Telemetry and the stream receivers are never touched by a call.
      ensures router.listeners.published == old(router.listeners.published)
      ensures router.listeners.receivers == old(router.listeners.receivers)
      // Only the reply to this call is ever handed over.
      ensures router.listeners.delivered == old(router.listeners.delivered)
              || (reply.Some? && router.listeners.delivered
                                 == old(router.listeners.delivered) + [Delivery(id, reply.value)])
      // The request is framed into the write buffer only once its waiter is
      // registered, and only when it serialises.
      ensures var msg := Rpc(id, Request(p, body));
              if SubscribeRpcStep(old(router.listeners.rpc), id).None? || sink.codec.frame(msg).None?
              then sink.wire.View() == old(sink.wire.View())
              else sink.wire.data == old(sink.wire.data) + sink.codec.frame(msg).value
                   && sink.wire.ptr == old(sink.wire.ptr)
      ensures var msg := Rpc(id, Request(p, body));
              var sub := SubscribeRpcStep(old(router.listeners.rpc), id);
              // Registration is refused: nothing is sent, nothing changes.
              && (sub.None? ==>
                    && r == Err(TooManyInFlight)
                    && sink.sent == old(sink.sent)
                    && router.listeners.Snapshot() == old(router.listeners.Snapshot()))
              // The send fails: the error is reported and the waiter closed.
              && (sub.Some? && !SendSucceeds(sink.codec, msg, ioOk) ==>
                    && r == Err(Codec(if sink.codec.frame(msg).None? then Serialization else IO))
                    && sink.sent == old(sink.sent)
                    && router.listeners.delivered == old(router.listeners.delivered)
                    && router.listeners.rpc == sub.value[id := Closed])
              // The request went out under the registered id.
              && (sub.Some? && SendSucceeds(sink.codec, msg, ioOk) ==>
                    sink.sent == old(sink.sent) + [msg])
              // No reply arrives.
              && (sub.Some? && SendSucceeds(sink.codec, msg, ioOk) && reply.None? ==>
                    && r == Err(Disconnected)
                    && router.listeners.delivered == old(router.listeners.delivered)
                    && router.listeners.rpc == sub.value[id := Closed])
              // A reply arrives: it is handed to this call's waiter, which
              // leaves the table, and its variant is checked.
              && (sub.Some? && SendSucceeds(sink.codec, msg, ioOk) && reply.Some? ==>
                    && router.listeners.delivered == old(router.listeners.delivered) + [Delivery(id, reply.value)]
                    && router.listeners.rpc == sub.value - {id}
                    && r == match ExpectedReply(p, reply.value)
                            case Some(b) => Ok(b)
                            case None => Err(BadResponse))
    {
      var nid := GenId();
      var message := Rpc(nid, Request(p, body));
      var receiver := router.SubscribeRpc(nid);
      if receiver.Err? {
        return Err(TooManyInFlight);
      }
      var sent := sink.Send(message, ioOk);
      if sent.Err? {
        router.listeners.CloseReceiver(nid);
        return Err(Codec(sent.error));
      }
      if reply.None? {
        router.listeners.CloseReceiver(nid);
        return Err(Disconnected);
      }
      router.listeners.Deliver(Rpc(nid, reply.value));
      var response := reply.value;
      var b := ExpectedReply(p, response);
      if b.Some? {
        r := Ok(b.value);
      } else {
        r := Err(BadResponse);
      }
    }
  }

  /** A ping through a freshly connected client: the request goes out with
      id 1 and the device's ping reply is returned to the caller. */
  method PingRoundTrip(request: Body, answer: Body, frame: Message -> Option<seq<byte>>,
                       parse: seq<byte> -> Option<Message>)
    returns (r: Result<Body, RpcError>, sent: seq<Message>)
    requires frame(Rpc(1, PingReq(request))).Some?
    ensures r == Ok(answer)
    ensures sent == [Rpc(1, PingReq(request))]
  {
    var codec := new Codec.Default(256, parse, frame);
    var wire := new BytesMut(0);
    var sink := new Sink(codec, wire);
    var router := new Router.New();
    var handle := new RouterHandle.Of(router);
    var proxy := new ProxyImpl.New(sink, handle);
    r := proxy.Call(Ping, request, true, Some(PingRep(answer)));
    sent := sink.sent;
  }

  /** A reply of another procedure's variant is refused as a bad response. */
  method MismatchedReply(request: Body, answer: Body, frame: Message -> Option<seq<byte>>,
                         parse: seq<byte> -> Option<Message>)
    returns (r: Result<Body, RpcError>)
    requires frame(Rpc(1, MoveStatusReq(request))).Some?
    ensures r == Err(BadResponse)
  {
    var codec := new Codec.Default(256, parse, frame);
    var wire := new BytesMut(0);
    var sink := new Sink(codec, wire);
    var router := new Router.New();
    var handle := new RouterHandle.Of(router);
    var proxy := new ProxyImpl.New(sink, handle);
    r := proxy.Call(MoveStatus, request, true, Some(MoveRep(answer)));
  }
}
