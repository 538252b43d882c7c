/** Host-side transport codec: turns the serial byte stream into whole
    `Message`s through a COBS accumulator, and frames outgoing `Message`s. */
module HostCodec {
  import opened Messages
  import opened Cobs

  /** A growable byte buffer whose front can be released: the bytes are at
      addresses `ptr`, `ptr + 1`, ... */
  class BytesMut {
    var ptr: nat
    var data: seq<byte>

    function View(): Slice
      reads this
    {
      Slice(ptr, data)
    }

    constructor (ptr: nat)
      ensures this.ptr == ptr && data == []
    {
      this.ptr := ptr;
      data := [];
    }

    /** Releases the first `n` bytes; asking for more than there are panics
        in hdcomm's Rust code. */
    method Advance(n: nat)
      requires n <= |data|
      modifies this
      ensures ptr == old(ptr) + n && data == old(data)[n..]
    {
      ptr := ptr + n;
      data := data[n..];
    }

    method ExtendFromSlice(s: seq<byte>)
      modifies this
      ensures ptr == old(ptr) && data == old(data) + s
    {
      data := data + s;
    }
  }

  /** Distance in bytes from address `p1` up to address `p2`. The subtraction
      is only defined when `p1 <= p2`. */
  function OffsetFrom(p2: nat, p1: nat): (d: nat)
    requires p1 <= p2
    ensures p1 + d == p2
  {
    p2 - p1
  }

  /** The result of one decode: a message, nothing yet, or an error. */
  type Decoded = Result<Option<Message>, CodecError>

  /** The codec of the host's framed serial channel. */
  class Codec {
    const decoder: CobsAccumulator
    /** Serialisation followed by COBS framing, delimiter included; `None`
        when serialisation fails. */
    const frame: Message -> Option<seq<byte>>

    ghost predicate Valid()
      reads this, decoder
    {
      decoder.Valid()
    }

    /** A codec whose decoder buffers up to `capacity` bytes and holds nothing. */
    constructor Default(capacity: nat, parse: seq<byte> -> Option<Message>,
                        frame: Message -> Option<seq<byte>>)
      ensures Valid() && fresh(decoder)
      ensures decoder.capacity == capacity && decoder.parse == parse && decoder.pending == []
      ensures this.frame == frame
    {
      decoder := new CobsAccumulator(capacity, parse);
      this.frame := frame;
    }

    /** Appends the framed bytes of `item` to `dst`. On a serialisation
        failure `dst` is left as it was. */
    method Encode(item: Message, dst: BytesMut) returns (r: Result<(), CodecError>)
      modifies dst
      ensures frame(item).None? ==> r == Err(Serialization) && dst.View() == old(dst.View())
      ensures frame(item).Some? ==>
                r == Ok(()) && dst.data == old(dst.data) + frame(item).value && dst.ptr == old(dst.ptr)
    {
      var buf := frame(item);
      if buf.None? {
        return Err(Serialization);
      }
      dst.ExtendFromSlice(buf.value);
      r := Ok(());
    }

    /** Feeds all of `src` to the accumulator and reports its outcome. When a
        frame was closed, overflowed or failed to parse, `src` is trimmed to the
        bytes the accumulator handed back; on `Consumed`, `src` is not trimmed,
        although the accumulator has absorbed all of it. */
    method Decode(src: BytesMut) returns (r: Decoded)
      requires Valid()
      modifies decoder, src
      ensures Valid()
      ensures var fed := FeedStep(decoder.capacity, decoder.parse, old(decoder.pending), old(src.View()));
              && decoder.pending == fed.pending
              && (fed.result.Consumed? ==> r == Ok(None) && src.View() == old(src.View()))
              && (fed.result.OverFull? ==> r == Err(FrameOverflow))
              && (fed.result.DeserError? ==> r == Err(Deserialization))
              && (fed.result.Success? ==> r == Ok(Some(fed.result.data)))
              && (!fed.result.Consumed? ==> src.View() == fed.result.remaining)
      ensures !(r.Err? && r.error.IO?)
    {
      var input := src.View();
      var trimAt: Option<nat> := None;
      var fr := decoder.Feed(input);
      match fr {
      case Consumed =>
        r := Ok(None);
      case OverFull(remaining) =>
        trimAt := Some(OffsetFrom(remaining.ptr, input.ptr));
        r := Err(FrameOverflow);
      case DeserError(remaining) =>
        trimAt := Some(OffsetFrom(remaining.ptr, input.ptr));
        r := Err(Deserialization);
      case Success(data, remaining) =>
        trimAt := Some(OffsetFrom(remaining.ptr, input.ptr));
        r := Ok(Some(data));
      }
      if trimAt.Some? {
        src.Advance(trimAt.value);
      }
    }

    /** Decode with every byte the accumulator took trimmed from `src`,
        including on `Consumed`: each received byte reaches the accumulator
        exactly once. */
    method DecodeFixed(src: BytesMut) returns (r: Decoded)
      requires Valid()
      modifies decoder, src
      ensures Valid()
      ensures var fed := FeedStep(decoder.capacity, decoder.parse, old(decoder.pending), old(src.View()));
              && decoder.pending == fed.pending
              && (fed.result.Consumed? ==> r == Ok(None) && src.data == [])
              && (fed.result.OverFull? ==> r == Err(FrameOverflow))
              && (fed.result.DeserError? ==> r == Err(Deserialization))
              && (fed.result.Success? ==> r == Ok(Some(fed.result.data)))
              && (!fed.result.Consumed? ==> src.View() == fed.result.remaining)
      ensures !(r.Err? && r.error.IO?)
    {
      var input := src.View();
      var fr := decoder.Feed(input);
      var trimAt: nat;
      match fr {
      case Consumed =>
        trimAt := |input.bytes|;
        r := Ok(None);
      case OverFull(remaining) =>
        trimAt := OffsetFrom(remaining.ptr, input.ptr);
        r := Err(FrameOverflow);
      case DeserError(remaining) =>
        trimAt := OffsetFrom(remaining.ptr, input.ptr);
        r := Err(Deserialization);
      case Success(data, remaining) =>
        trimAt := OffsetFrom(remaining.ptr, input.ptr);
        r := Ok(Some(data));
      }
      src.Advance(trimAt);
    }
  }

  /** `n` non-zero bytes: the body of a frame before its delimiter. */
  function Ones(n: nat): (s: seq<byte>)
    ensures |s| == n && 0 !in s
  {
    seq(n, _ => 1)
  }

  /** A 201-byte frame (200 non-zero bytes and the delimiter) that reaches
      the 256-byte codec of the serial channel in two reads, 200 bytes and
      then 1, is reported as a frame overflow: the first 200 bytes stay in
      the buffer after the first decode and are fed a second time. */
  method SplitFrameAsWritten(parse: seq<byte> -> Option<Message>)
    returns (first: Decoded, second: Decoded)
    ensures first == Ok(None)
    ensures second == Err(FrameOverflow)
  {
    var codec := new Codec.Default(256, parse, _ => None);
    var src := new BytesMut(0);
    src.ExtendFromSlice(Ones(200));
    first := codec.Decode(src);
    src.ExtendFromSlice([0]);
    assert src.data == Ones(200) + [0];
    assert FirstZero(src.data) == Some(200);
    second := codec.Decode(src);
  }

  /** The same two reads through DecodeFixed hand the parser exactly the
      201-byte frame. */
  method SplitFrameFixed(parse: seq<byte> -> Option<Message>)
    returns (first: Decoded, second: Decoded)
    ensures first == Ok(None)
    ensures second == match parse(Ones(200) + [0])
                      case Some(m) => Ok(Some(m))
                      case None => Err(Deserialization)
  {
    var codec := new Codec.Default(256, parse, _ => None);
    var src := new BytesMut(0);
    src.ExtendFromSlice(Ones(200));
    first := codec.DecodeFixed(src);
    src.ExtendFromSlice([0]);
    assert src.data == [0];
    assert codec.decoder.pending == Ones(200);
    assert codec.decoder.pending + src.data[..1] == Ones(200) + [0];
    second := codec.DecodeFixed(src);
  }
}
