/** The protocol's shared vocabulary: bytes, identifiers, the closed message
    catalogue exchanged between host and device, and the host's error enums. */
module Messages {

  /** One octet on the wire. */
  type byte = b: int | 0 <= b < 0x100

  /** An RPC correlation identifier (`u16`). */
  type u16 = x: int | 0 <= x < 0x1_0000

  type u32 = x: int | 0 <= x < 0x1_0000_0000

  type i16 = x: int | -0x8000 <= x < 0x8000

  datatype Option<+T> = None | Some(value: T)

  datatype Result<+T, +E> = Ok(value: T) | Err(error: E)

  /** The fixed-layout body of an RPC payload variant. Its fields are data
      carried by the protocol and are not interpreted by the engine. */
  type Body = seq<byte>

  /** RPC payloads: one request and one reply variant per remote procedure. */
  datatype RpcPayload =
    | PingReq(body: Body) | PingRep(body: Body)
    | MoveReq(body: Body) | MoveRep(body: Body)
    | MoveStatusReq(body: Body) | MoveStatusRep(body: Body)
    | MoveCancelReq(body: Body) | MoveCancelRep(body: Body)
    | PidParamUpdateReq(body: Body) | PidParamUpdateRep(body: Body)
    | RawTeleOpReq(body: Body) | RawTeleOpRep(body: Body)

  /** Three-axis integer sensor reading `[x, y, z]`. */
  datatype Axes = Axes(x: i16, y: i16, z: i16)

  /** Telemetry payloads published by the device. */
  datatype StreamPayload = Ahrs(acc: Axes, gyro: Axes, mag: Axes, timeMs: u32)

  /** A message is exactly one of the two traffic classes, decided by its tag. */
  datatype Message =
    | Rpc(id: u16, rpc: RpcPayload)
    | Stream(stream: StreamPayload)

  /** Errors of the framed channel. Every kind but `IO` is recoverable. */
  datatype CodecError = IO | FrameOverflow | Deserialization | Serialization

  /** Errors of one RPC call as seen by its caller. */
  datatype RpcError =
    | Disconnected
    | TooManyInFlight
    | Codec(cause: CodecError)
    | BadResponse
}
