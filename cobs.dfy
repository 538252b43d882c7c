/** The COBS frame accumulator shared by device and host: a bounded buffer
    that absorbs chunks of a byte stream until a 0x00 delimiter closes a frame,
    then hands the frame to the frame parser (COBS decoding followed by the
    compact binary deserialisation of a `Message`, kept abstract as `parse`).

    The buffering follows the accumulator of the serialisation library
    hdcomm's Rust code uses; its four outcomes are the ones the host codec and the device
    firmware branch on. */
module Cobs {
  import opened Messages

  /** A borrowed byte slice: the address of its first byte and its contents. */
  datatype Slice = Slice(ptr: nat, bytes: seq<byte>)

  /** The tail of `s` that starts `k` bytes in: same memory, `k` bytes further. */
  function Skip(s: Slice, k: nat): (t: Slice)
    requires k <= |s.bytes|
    ensures IsSuffix(t, s) && |t.bytes| == |s.bytes| - k
  {
    Slice(s.ptr + k, s.bytes[k..])
  }

  /** `t` is a sub-slice of `s` that ends where `s` ends. */
  predicate IsSuffix(t: Slice, s: Slice)
  {
    && |t.bytes| <= |s.bytes|
    && t.ptr == s.ptr + (|s.bytes| - |t.bytes|)
    && t.bytes == s.bytes[|s.bytes| - |t.bytes|..]
  }

  /** Number of bytes of `s` that lie before its suffix `t`. */
  function Taken(t: Slice, s: Slice): nat
    requires IsSuffix(t, s)
  {
    |s.bytes| - |t.bytes|
  }

  /** Outcome of feeding one chunk to the accumulator. */
  datatype FeedResult =
    | Consumed
    | OverFull(remaining: Slice)
    | DeserError(remaining: Slice)
    | Success(data: Message, remaining: Slice)

  /** Index of the first delimiter byte in `s`, if any. */
  function FirstZero(s: seq<byte>): (r: Option<nat>)
    ensures r.None? <==> 0 !in s
    ensures r.Some? ==> r.value < |s| && s[r.value] == 0 && 0 !in s[..r.value]
  {
    if s == [] then None
    else if s[0] == 0 then Some(0)
    else match FirstZero(s[1..])
      case None => None
      case Some(k) =>
        assert s[..k + 1] == [s[0]] + s[1..][..k];
        Some(k + 1)
  }

  /** The accumulator's new buffer together with the outcome of one feed. */
  datatype Fed = Fed(result: FeedResult, pending: seq<byte>)

  /** What feeding `input` to an accumulator of the given `capacity` that
      holds the partial frame `pending` produces: the buffer never outgrows
      the capacity, and every outcome but `Consumed` empties it and hands back
      a suffix of the input (FeedStepOutcomes says which suffix). */
  function FeedStep(capacity: nat, parse: seq<byte> -> Option<Message>,
                    pending: seq<byte>, input: Slice): (f: Fed)
    requires |pending| <= capacity
    ensures |f.pending| <= capacity
    ensures !f.result.Consumed? ==> f.pending == [] && IsSuffix(f.result.remaining, input)
  {
    if input.bytes == [] then Fed(Consumed, pending)
    else match FirstZero(input.bytes)
      case Some(n) => CloseFrame(capacity, parse, pending, input, n)
      case None =>
        if |pending| + |input.bytes| > capacity then
          Fed(OverFull(Skip(input, capacity - |pending|)), [])
        else Fed(Consumed, pending + input.bytes)
  }

  /** The part of FeedStep where the delimiter at index `n` of the input
      closes the frame: the frame is parsed when it fits and dropped when it
      does not, and the bytes after the delimiter are handed back. */
  function CloseFrame(capacity: nat, parse: seq<byte> -> Option<Message>,
                      pending: seq<byte>, input: Slice, n: nat): (f: Fed)
    requires n < |input.bytes|
    ensures f.pending == [] && !f.result.Consumed?
    ensures f.result.remaining == Skip(input, n + 1)
  {
    var release := Skip(input, n + 1);
    if |pending| + (n + 1) <= capacity then
      match parse(pending + input.bytes[..n + 1])
      case Some(m) => Fed(Success(m, release), [])
      case None => Fed(DeserError(release), [])
    else Fed(OverFull(release), [])
  }

  /** The meaning of each outcome of FeedStep. */
  lemma FeedStepOutcomes(capacity: nat, parse: seq<byte> -> Option<Message>,
                         pending: seq<byte>, input: Slice)
    requires |pending| <= capacity
    ensures var f := FeedStep(capacity, parse, pending, input);
      // Consumed: every byte is absorbed and none of them closes a frame.
      && (f.result.Consumed? ==> 0 !in input.bytes && f.pending == pending + input.bytes)
      // A frame is parsed exactly when the first delimiter arrives and the frame fits;
      // the parser sees the buffered bytes and the input up to that delimiter.
      && ((f.result.Success? || f.result.DeserError?) ==>
            var k := Taken(f.result.remaining, input);
            && 0 < k && input.bytes[k - 1] == 0 && 0 !in input.bytes[..k - 1]
            && |pending| + k <= capacity
            && parse(pending + input.bytes[..k])
               == (if f.result.Success? then Some(f.result.data) else None))
      // Overflow: the frame would not fit; the bytes up to the delimiter are dropped,
      // or, with no delimiter in sight, the bytes that would have filled the buffer.
      && (f.result.OverFull? ==>
            var k := Taken(f.result.remaining, input);
            || (0 < k && input.bytes[k - 1] == 0 && 0 !in input.bytes[..k - 1]
                && |pending| + k > capacity)
            || (0 !in input.bytes && |pending| + |input.bytes| > capacity
                && k == capacity - |pending|))
  {
    if input.bytes != [] && FirstZero(input.bytes).Some? {
      var n := FirstZero(input.bytes).value;
      assert input.bytes[..n + 1][..n] == input.bytes[..n];
    }
  }

  /** Feeding a delimiter-free chunk that fits in the buffer and then the
      next chunk of the same stream gives exactly what feeding both at once
      gives. A chunk that overflows the buffer is excluded: the accumulator
      then hands back its tail, which starts a new frame. */
  lemma {:induction false} FeedChunking(capacity: nat, parse: seq<byte> -> Option<Message>,
                                        pending: seq<byte>, a: Slice, b: Slice)
    requires |pending| + |a.bytes| <= capacity
    requires 0 !in a.bytes
    requires b.ptr == a.ptr + |a.bytes|
    ensures var first := FeedStep(capacity, parse, pending, a);
            && first == Fed(Consumed, pending + a.bytes)
            && FeedStep(capacity, parse, first.pending, b)
               == FeedStep(capacity, parse, pending, Slice(a.ptr, a.bytes + b.bytes))
  {
    var whole := Slice(a.ptr, a.bytes + b.bytes);
    var p := pending + a.bytes;
    assert FeedStep(capacity, parse, pending, a) == Fed(Consumed, p) by {
      if a.bytes == [] {
        assert p == pending;
      } else {
        assert FirstZero(a.bytes).None?;
      }
    }
    if b.bytes == [] {
      assert whole == a;
      assert FeedStep(capacity, parse, p, b) == Fed(Consumed, p);
    } else {
      FirstZeroAfterClean(a.bytes, b.bytes);
      if FirstZero(b.bytes).Some? {
        FeedChunkingDelimited(capacity, parse, pending, a, b, FirstZero(b.bytes).value);
      } else {
        FeedChunkingUndelimited(capacity, parse, pending, a, b);
      }
    }
  }

  /** FeedChunking when the second chunk carries a delimiter at `n`. */
  lemma FeedChunkingDelimited(capacity: nat, parse: seq<byte> -> Option<Message>,
                              pending: seq<byte>, a: Slice, b: Slice, n: nat)
    requires |pending| + |a.bytes| <= capacity
    requires b.ptr == a.ptr + |a.bytes|
    requires FirstZero(b.bytes) == Some(n)
    requires FirstZero(a.bytes + b.bytes) == Some(|a.bytes| + n)
    ensures FeedStep(capacity, parse, pending + a.bytes, b)
            == FeedStep(capacity, parse, pending, Slice(a.ptr, a.bytes + b.bytes))
  {
    var whole := Slice(a.ptr, a.bytes + b.bytes);
    CloseFrameAfterPrefix(capacity, parse, pending, a, b, n);
    assert FeedStep(capacity, parse, pending + a.bytes, b)
        == CloseFrame(capacity, parse, pending + a.bytes, b, n);
    assert FeedStep(capacity, parse, pending, whole)
        == CloseFrame(capacity, parse, pending, whole, |a.bytes| + n);
  }

  /** Closing a frame in `b` after `a` was buffered is closing it in the
      concatenated slice: same frame for the parser, same bytes handed back. */
  lemma CloseFrameAfterPrefix(capacity: nat, parse: seq<byte> -> Option<Message>,
                              pending: seq<byte>, a: Slice, b: Slice, n: nat)
    requires b.ptr == a.ptr + |a.bytes| && n < |b.bytes|
    ensures CloseFrame(capacity, parse, pending + a.bytes, b, n)
            == CloseFrame(capacity, parse, pending, Slice(a.ptr, a.bytes + b.bytes), |a.bytes| + n)
  {
    var whole := Slice(a.ptr, a.bytes + b.bytes);
    assert whole.bytes[..|a.bytes| + n + 1] == a.bytes + b.bytes[..n + 1];
    assert pending + whole.bytes[..|a.bytes| + n + 1] == (pending + a.bytes) + b.bytes[..n + 1];
    assert whole.bytes[|a.bytes| + n + 1..] == b.bytes[n + 1..];
  }

  /** FeedChunking when neither chunk carries a delimiter. */
  lemma FeedChunkingUndelimited(capacity: nat, parse: seq<byte> -> Option<Message>,
                                pending: seq<byte>, a: Slice, b: Slice)
    requires |pending| + |a.bytes| <= capacity
    requires b.ptr == a.ptr + |a.bytes| && b.bytes != []
    requires FirstZero(b.bytes).None? && FirstZero(a.bytes + b.bytes).None?
    ensures FeedStep(capacity, parse, pending + a.bytes, b)
            == FeedStep(capacity, parse, pending, Slice(a.ptr, a.bytes + b.bytes))
  {
    var whole := Slice(a.ptr, a.bytes + b.bytes);
    var p := pending + a.bytes;
    if |p| + |b.bytes| > capacity {
      assert Skip(whole, capacity - |pending|) == Skip(b, capacity - |p|);
    } else {
      assert p + b.bytes == pending + whole.bytes;
    }
  }

  /** A delimiter-free prefix only shifts the position of the first delimiter. */
  lemma {:induction false} FirstZeroAfterClean(a: seq<byte>, b: seq<byte>)
    requires 0 !in a
    ensures FirstZero(a + b) == match FirstZero(b)
                                case None => None
                                case Some(n) => Some(|a| + n)
  {
    var r := FirstZero(a + b);
    match FirstZero(b)
    case None =>
      assert 0 !in a + b;
    case Some(n) =>
      assert (a + b)[|a| + n] == 0;
      assert (a + b)[..|a| + n] == a + b[..n];
  }

  /** The accumulator of one end of the link. `pending` holds the bytes of the
      frame received so far; it never grows beyond `capacity`. */
  class CobsAccumulator {
    const capacity: nat
    const parse: seq<byte> -> Option<Message>
    var pending: seq<byte>

    ghost predicate Valid()
      reads this
    {
      |pending| <= capacity
    }

    constructor (capacity: nat, parse: seq<byte> -> Option<Message>)
      ensures Valid()
      ensures this.capacity == capacity && this.parse == parse && pending == []
    {
      this.capacity := capacity;
      this.parse := parse;
      pending := [];
    }

    method Feed(input: Slice) returns (r: FeedResult)
      requires Valid()
      modifies this
      ensures Valid()
      ensures Fed(r, pending) == FeedStep(capacity, parse, old(pending), input)
    {
      if input.bytes == [] {
        r := Consumed;
      } else {
        var zeroPos := FirstZero(input.bytes);
        if zeroPos.Some? {
          var n := zeroPos.value;
          var release := Skip(input, n + 1);
          if |pending| + (n + 1) <= capacity {
            var frame := pending + input.bytes[..n + 1];
            var parsed := parse(frame);
            if parsed.Some? {
              r := Success(parsed.value, release);
            } else {
              r := DeserError(release);
            }
            pending := [];
          } else {
            pending := [];
            r := OverFull(release);
          }
        } else if |pending| + |input.bytes| > capacity {
          var newStart := capacity - |pending|;
          pending := [];
          r := OverFull(Skip(input, newStart));
        } else {
          pending := pending + input.bytes;
          r := Consumed;
        }
      }
    }
  }
}
