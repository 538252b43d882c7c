# hdcomm: framed RPC and telemetry between a host and a robot controller

hdcomm connects a host computer to the microcontroller of a small robot car
over a serial line. Every `Message` is serialised compactly, framed with COBS
(Consistent Overhead Byte Stuffing, Cheshire & Baker, IEEE/ACM Transactions on
Networking, 1999) and terminated by a 0x00 delimiter. A message is either an
RPC message (a 16-bit id and a request or reply payload) or a telemetry
stream message (an AHRS sample).

The Dafny model covers the core of both ends:

- `messages.dfy` (module `Messages`): the message catalogue, the codec errors
  and the RPC errors, as one closed set of datatypes.
- `cobs.dfy` (module `Cobs`): the frame accumulator. It buffers a partial
  frame up to a fixed capacity and reports one of four outcomes (`Consumed`,
  `OverFull`, `DeserError`, `Success`). The bytes it hands back are always a
  suffix of the input, located by address, so address differences are
  explicit. The model also proves that a read holding no delimiter, which
  still fits in the buffer, may be joined with the next read without
  changing what is decoded. A read that overflows the buffer is not
  covered: `OverFull` hands back the bytes past the capacity, and the next
  read continues the frame that those bytes start.
- `device.dfy` (module `Device`): the device's 256-byte accumulator with
  `reset`, the `ENCODED_BUFFER_SIZE` bound compared with the COBS worst case,
  and the serialiser flavour that writes into a bounded vector in place.
- `codec.dfy` (module `HostCodec`): the host codec. `decode` maps the
  accumulator outcome to a result and trims the input buffer; `encode`
  appends a framed message. Both the behaviour as written and the corrected
  decode are modelled.
- `router.dfy` (module `Routing`): the waiter table keyed by RPC id.
  - `subscribe_rpc` has three cases.
  - A dispatch step removes a reply's waiter and hands it the payload.
  - Telemetry is published on an append-only log.
  - The loop skips read errors and end of stream.
- `proxy.dfy` (module `Proxying`): the wrapping id counter, the table that
  pairs each procedure with its reply variant, and one call as a sequence of
  steps. The steps are: generate an id, register a waiter, send, await the
  reply, check its variant.
- `motion.dfy` (module `Motion`): the discrete part of move generation and
  the validated update of the motion-profile limits.
  - The discrete part is the turn direction, the turn-table lookup with its
    failure and the steering signal.
  - It also includes the reverse flag and the saturated millisecond setup
    time.

Abstractions:
- The serialisation library's frame parser (COBS decoding followed by
  deserialisation) is the parameter `parse`.
- Its framing serialiser is the parameter `frame` of a codec.
- Whether the serial port accepts a write is the input `ioOk`.
- The reply a caller receives is the input `reply`.

## Model

| member | source | states |
|---|---|---|
| Cobs.FeedStep | hdcomm-host/src/codec.rs:50-64 | feeding never lets the buffer exceed its capacity; every outcome except `Consumed` empties the buffer and hands back a suffix of the input |
| Cobs.FeedStepOutcomes | hdcomm-host/src/codec.rs:50-64 | `Consumed` means the whole chunk was absorbed and it contains no delimiter; a frame is parsed exactly when the first delimiter arrives and the frame fits, and the parser sees the buffered bytes plus the input up to that delimiter; `OverFull` means the frame up to the delimiter would not fit, or, without a delimiter, the bytes that would fill the buffer are dropped |
| Cobs.FeedChunking | hdcomm-host/src/codec.rs:48-71 | feeding a delimiter-free chunk that still fits in the buffer, and then the next chunk of the same stream gives exactly the outcome, remaining bytes and buffer of feeding both at once |
| Cobs.CobsAccumulator.constructor | hdcomm-host/src/codec.rs:74-79 | a new accumulator holds no partial frame |
| Cobs.CobsAccumulator.Feed | hdcomm-host/src/codec.rs:50 | the outcome and the new buffer are FeedStep's for the old buffer and the input; the capacity bound is kept |
| Device.CobsWorstCase | hdcomm-device/src/lib.rs:34-37 | the worst-case COBS encoding of n bytes is longer than n |
| Device.CobsWorstCaseIsCeiling | hdcomm-device/src/lib.rs:37-44 | the worst case is n + ceil(n / 254) for every n > 0 |
| Device.CobsWorstCaseMonotone | hdcomm-device/src/lib.rs:46-49 | a longer message never has a shorter worst-case encoding |
| Device.EncodedBufferSizeIsCobsWorstCase | hdcomm-device/src/lib.rs:38-44 | ENCODED_BUFFER_SIZE equals the COBS worst case of MAX_MESSAGE_LENGTH, 258 |
| Device.EncodedBufferSizeMissesDelimiter | hdcomm-device/src/lib.rs:34-49 | a maximal message framed with its 0x00 delimiter needs more than ENCODED_BUFFER_SIZE bytes |
| Device.FramedBufferSizeSuffices | hdcomm-device/src/lib.rs:46-52 | every message of at most MAX_MESSAGE_LENGTH bytes, framed with its delimiter, fits in FRAMED_BUFFER_SIZE (259) |
| Device.Accumulator.New | hdcomm-device/src/lib.rs:17-19 | a new accumulator has capacity MAX_MESSAGE_LENGTH (256) and no partial frame |
| Device.Accumulator.Reset | hdcomm-device/src/lib.rs:22-24 | after reset the accumulator is in exactly the state `new` produces; any partial frame is discarded |
| Device.Accumulator.Feed | hdcomm-device/src/lib.rs:29-31 | the outcome is the inner accumulator's outcome for the same input |
| Device.HeaplessVec.Push | hdcomm-device/src/lib.rs:83-84 | succeeds iff the vector is below capacity; on success the byte is appended and earlier bytes are unchanged; on failure the byte is handed back and nothing changes |
| Device.HeaplessVec.ExtendFromSlice | hdcomm-device/src/lib.rs:78-79 | appends the whole slice iff it fits in the remaining capacity; otherwise nothing changes |
| Device.HVecRef.Index | hdcomm-device/src/lib.rs:66-68 | reads exactly element idx of the wrapped vector |
| Device.HVecRef.IndexMut | hdcomm-device/src/lib.rs:58-60 | writes exactly element idx; the length and every other element are unchanged |
| Device.HVecRef.TryExtend | hdcomm-device/src/lib.rs:78-80 | succeeds iff the slice fits; on success the vector's contents are the old contents followed by the slice, otherwise they are unchanged |
| Device.HVecRef.TryPush | hdcomm-device/src/lib.rs:83-85 | succeeds iff len < B; the push error is turned into `Err(())` |
| Device.HVecRef.Release | hdcomm-device/src/lib.rs:87-89 | always returns `Ok(())` |
| HostCodec.BytesMut.Advance | hdcomm-host/src/codec.rs:66-68 | drops exactly the first n bytes and moves the start address by n |
| HostCodec.BytesMut.ExtendFromSlice | hdcomm-host/src/codec.rs:31 | appends the slice; existing contents stay as a prefix |
| HostCodec.OffsetFrom | hdcomm-host/src/codec.rs:40-42 | the distance d satisfies p1 + d == p2, and it is only taken when p1 <= p2 |
| HostCodec.Codec.Default | hdcomm-host/src/codec.rs:74-79 | the codec starts with an empty accumulator |
| HostCodec.Codec.Encode | hdcomm-host/src/codec.rs:28-32 | on success dst keeps its contents as a prefix followed by exactly the framed bytes of the item; a serialisation failure returns `Serialization` and leaves dst unchanged |
| HostCodec.Codec.Decode | hdcomm-host/src/codec.rs:48-71 | `Consumed` gives `Ok(None)` and src is not advanced at all; OverFull gives FrameOverflow, DeserError gives Deserialization and Success gives `Ok(Some(data))`, and then src becomes exactly the remaining suffix; decode never yields `IO` |
| HostCodec.Codec.DecodeFixed | hdcomm-host/src/codec.rs:48-71 | like Decode, except that on `Consumed` the whole of src, already absorbed, is trimmed |
| HostCodec.SplitFrameAsWritten | hdcomm-host/src/codec.rs:51 | with a 256-byte codec, a 201-byte frame read as 200 bytes and then 1 byte is reported as FrameOverflow |
| HostCodec.SplitFrameFixed | hdcomm-host/src/codec.rs:66-68 | the same reads through DecodeFixed hand the parser exactly the 201-byte frame |
| Routing.SubscribeRpcStep | hdcomm-host/src/router.rs:100-117 | registration is refused iff an open waiter holds the id; otherwise a vacant id is added or a closed waiter replaced, the id is open and every other id keeps its entry |
| Routing.Dispatch | hdcomm-host/src/router.rs:66-79 | a reply removes its id's entry and nothing else, and is handed over only when that waiter is open; an unsolicited reply changes nothing; telemetry never touches the table and is published only when a receiver exists |
| Routing.RouteAllSkipsErrors | hdcomm-host/src/router.rs:55-64 | after any prefix of the channel's output, the router's state is the dispatch of exactly the decoded messages in order; end of stream and errors have no effect |
| Routing.AtMostOneReplyPerWaiter | hdcomm-host/src/router.rs:70-72 | the router only removes entries, and without a new registration a waiter receives at most one reply, however many replies carry its id |
| Routing.Listeners.Default | hdcomm-host/src/router.rs:21-29 | new listeners have no waiter, nothing delivered or published, and no stream receiver |
| Routing.Listeners.Deliver | hdcomm-host/src/router.rs:66-79 | the new listener state is Dispatch of the old state and the message |
| Routing.Listeners.CloseReceiver | hdcomm-host/src/router.rs:103 | a registered waiter becomes closed, so its id can be registered again; nothing else changes |
| Routing.Router.New | hdcomm-host/src/router.rs:45-50 | a router starts with fresh, empty listeners |
| Routing.Router.Run | hdcomm-host/src/router.rs:54-81 | after a finite prefix of the channel's output, the listener state is RouteAll of the old state over that prefix |
| Routing.RouterHandle.Of | hdcomm-host/src/router.rs:93-97 | the handle shares the router's listeners |
| Routing.RouterHandle.SubscribeRpc | hdcomm-host/src/router.rs:100-117 | returns `Ok` iff SubscribeRpcStep accepts; the table becomes its result, or stays unchanged on `Err`; no delivery or publication changes |
| Routing.RouterHandle.SubscribeStream | hdcomm-host/src/router.rs:120-122 | a new receiver is counted and sees payloads from the current end of the published log; the waiter table is unchanged |
| Routing.IdExclusivity | hdcomm-host/src/router.rs:100-117 | a second registration of an id fails while its first waiter is open, and succeeds after the reply was dispatched |
| Routing.DispatchByIdentifier | hdcomm-host/src/router.rs:66-73 | replies reach the waiters of their own ids in arrival order; an unsolicited reply and a read error are dropped |
| Proxying.Request | hdcomm-host/src/proxy.rs:109-116 | the request variant carries the body and is never accepted as any procedure's reply |
| Proxying.ReplyOf | hdcomm-host/src/proxy.rs:109-116 | each reply variant is the expected reply of exactly one procedure |
| Proxying.ExpectedReplyMatchesReplyOf | hdcomm-host/src/proxy.rs:100-103 | a reply is accepted iff it is the procedure's own reply variant, and its body is returned unchanged |
| Proxying.NextId | hdcomm-host/src/proxy.rs:55-59 | the counter increments by one and wraps from 65535 to 0 |
| Proxying.IdAfterIsModulo | hdcomm-host/src/proxy.rs:50-59 | starting at 0, the k-th call uses id k mod 65536, so the first id is 1 |
| Proxying.IdsDistinctWithinWindow | hdcomm-host/src/proxy.rs:55-59 | ids are pairwise distinct within any 65536 consecutive calls and repeat with period 65536 |
| Proxying.Sink.Send | hdcomm-host/src/proxy.rs:92-95 | a message is sent iff it serialises and the port accepts it; otherwise the error is `Serialization` or `IO` and nothing is recorded as sent |
| Proxying.ProxyImpl.New | hdcomm-host/src/proxy.rs:44-53 | the counter starts at 0 |
| Proxying.ProxyImpl.GenId | hdcomm-host/src/proxy.rs:55-59 | stores and returns the wrapped successor of the counter |
| Proxying.ProxyImpl.Call | hdcomm-host/src/proxy.rs:75-104 | the id in the outgoing message is the id registered with the router; the write buffer is untouched when registration is refused or the request does not serialise, and otherwise gains exactly the request's frame; telemetry and stream receivers are never touched, and nothing is handed over except this call's own reply, only when it arrives; registration comes first, and on refusal the result is TooManyInFlight with nothing sent and the table unchanged; a failed send returns `Codec` and closes the waiter; no reply returns Disconnected; a reply is removed from the table, handed over, and returned as `Ok(body)` when it is the expected variant, otherwise BadResponse |
| Proxying.PingRoundTrip | hdcomm-host/src/proxy.rs:75-104 | a first ping through a new client is sent with id 1 and returns the device's reply body |
| Proxying.MismatchedReply | hdcomm-host/src/proxy.rs:100-103 | a reply of another procedure's variant yields BadResponse |
| Motion.SteeringSetupMs | src/model.rs:79-80 | seconds times 1000, truncated toward zero and saturated into [0, 0xffff] |
| Motion.Model.GenerateMove | src/model.rs:39-111 | fails with RadiusNotSupported iff the radius is nonzero and its wrapped absolute value exceeds the table length; ref_left iff radius <= 0; reverse iff distance < 0; a straight move uses the neutral control; a left turn uses entry radius-1 with its left signal; a right turn uses entry -radius-1 with its right signal |
| Motion.Model.SetMotionProfileLimits | src/model.rs:113-128 | fails with ProfileLimitsNonPositive iff a limit is <= 0, and then nothing changes; otherwise exactly the three limits are set and every other field is untouched |
| Motion.MirroredTurnsShareEntry | src/model.rs:53-56 | radius and -radius select the same table entry, or both fail, and they turn in opposite directions |
| Motion.MostNegativeRadiusRefused | src/model.rs:53-56 | the most negative i32 radius wraps to an index beyond any table of fewer than 2^31 entries and is refused |

## Left out

- Serialisation and COBS byte stuffing are not modelled; they are the parameters `parse` and `frame`. The frame layout is therefore not checked.
- Device.EncodedBufferSizeIsCobsWorstCase: the worst case is a recursive definition of the COBS block structure, not a model of an encoder.
- The `frame` and `into_vec` functions of hdcomm-device/src/lib.rs are calls into the serialisation library and are not modelled; only the flavour `HVecRef`, which `into_vec` writes through, is modelled.
- Proxying.Sink.Send: flushing to the port does not drain the write buffer `wire`; it keeps every frame encoded so far, as a log.
- Serial port I/O, the tokio executor, task wake-ups and the locks around the sink and the listeners are not modelled. Every step runs sequentially.
- Routing.Router.Run: `run` never returns. The model runs the loop over any finite prefix of the channel's output.
- The broadcast channel's capacity of 1024 and its lagging receivers are not modelled, nor is dropping a stream receiver. Telemetry is an append-only log with a receiver count.
- Proxying.ProxyImpl.Call: the reply is an input. When it is present, the router's dispatch of that reply is the one interleaved step before the await completes. Other traffic dispatched while a call waits is not modelled.
- A call's `Disconnected` error cannot be reached while the client lives: its router handle keeps the listeners, and so every waiter's sending half, alive, and the router loop never exits. The model still accepts a missing reply as an input.
- The reply-variant catalogue is one closed datatype with opaque bodies. The repository's payload files disagree with each other and with the client, so no single version is modelled.
- Motion.Model.GenerateMove: the wheel ratio, encoder ticks and s-curve profile are not modelled; they are floating-point computations.
- Motion.UsizeAbs: models a release build on a 64-bit target, where `abs` of the most negative `i32` wraps and the cast sign-extends; a debug build panics there instead (Motion.MostNegativeRadiusRefused states the release behaviour).
- Motion.Model.SetMotionProfileLimits: a NaN limit passes the `<= 0.` test of src/model.rs:119 and is stored; real numbers have no NaN, so the model refuses exactly the limits that are not positive.
- Device.HVecRef.Index, Device.HVecRef.IndexMut, HostCodec.BytesMut.Advance, HostCodec.OffsetFrom: where hdcomm's Rust code panics (an index past the end, advancing past the end, a negative offset) the model has a precondition instead; the panic itself is not modelled.
- Motion.SteeringSetupMs: the rounding of the `f64` product by 1e3 and the NaN case are not modelled; real arithmetic is used.
- `config.rs`, `ahrs.rs`, `stream.rs`, `server.rs` and the binaries are configuration, sensor fusion and service wiring, and are not part of this model.
- The error enum in hdcomm-host/src/error.rs has no `BadResponse` variant, but the client returns one. The model includes it.
- hdcomm-host/src/error.rs says an I/O error requires recreating the channel, but the router's loop skips every error and keeps reading. The model follows the loop.

## Findings

| source | as written | input that shows it | evidently intended | confidence | as-written member | corrected member |
|---|---|---|---|---|---|---|
| hdcomm-host/src/codec.rs:51 | when the accumulator returns `Consumed`, `src` is not advanced, so bytes already absorbed stay in the read buffer and are fed again on the next call | the 256-byte codec of hdcomm-host/src/channel.rs:7 receives a 201-byte frame (200 bytes 0x01, then 0x00) as two reads, 200 bytes then 1 byte; the second decode sees 200 buffered plus 201 new bytes and reports FrameOverflow | every received byte reaches the accumulator once, and the frame is handed to the parser (HostCodec.DecodeFixed, with Cobs.FeedChunking showing that a read without a delimiter that fits in the buffer decodes like the same bytes joined to the next read) | not executed | HostCodec.SplitFrameAsWritten | HostCodec.SplitFrameFixed |
| hdcomm-device/src/lib.rs:34-44 | ENCODED_BUFFER_SIZE is 258, the COBS worst case of a 256-byte message, but that does not include the 0x00 delimiter the framing serialiser appends | a 256-byte message with no zero byte frames to 258 code and data bytes plus the delimiter, 259 bytes | the buffer holds the COBS worst case plus one delimiter byte (FRAMED_BUFFER_SIZE, 259) | not executed | Device.EncodedBufferSizeMissesDelimiter | Device.FramedBufferSizeSuffices |
