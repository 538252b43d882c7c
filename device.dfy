/** Device-side framing helpers: the fixed-capacity accumulator, the size of
    the buffer a framed message is written to, and the serialiser output
    flavour that pushes bytes into a bounded vector in place. */
module Device {
  import opened Messages
  import Cobs

  /** Largest serialised `Message`, in bytes, shared by both ends. */
  const MAX_MESSAGE_LENGTH: nat := 256

  /** Buffer size the device reserves for one COBS-framed message: the
      message length plus one COBS code byte per started block of 254. */
  const ENCODED_BUFFER_SIZE: nat :=
    MAX_MESSAGE_LENGTH + MAX_MESSAGE_LENGTH / 254 + (if MAX_MESSAGE_LENGTH % 254 > 0 then 1 else 0)

  /** Length of the COBS encoding (Cheshire & Baker, IEEE/ACM ToN 1999) of
      `n` bytes none of which is zero, which is its worst case: every block
      carries at most 254 data bytes behind one code byte. The 0x00 frame
      delimiter is not included. */
  function CobsWorstCase(n: nat): (len: nat)
    ensures len > n
    decreases n
  {
    if n <= 254 then n + 1 else 255 + CobsWorstCase(n - 254)
  }

  /** The COBS worst case is the message length plus ceil(n / 254) code bytes. */
  lemma {:induction false} CobsWorstCaseIsCeiling(n: nat)
    requires n > 0
    ensures CobsWorstCase(n) == n + (n + 253) / 254
    decreases n
  {
    if n > 254 {
      CobsWorstCaseIsCeiling(n - 254);
      assert (n + 253) / 254 == (n - 254 + 253) / 254 + 1;
    }
  }

  /** A longer message never has a shorter worst-case encoding. */
  lemma {:induction false} CobsWorstCaseMonotone(m: nat, n: nat)
    requires m <= n
    ensures CobsWorstCase(m) <= CobsWorstCase(n)
    decreases n
  {
    if n > 254 {
      if m > 254 {
        CobsWorstCaseMonotone(m - 254, n - 254);
      } else {
        CobsWorstCaseMonotone(m, 254);
      }
    }
  }

  /** ENCODED_BUFFER_SIZE is exactly the worst-case COBS encoding of a
      message of MAX_MESSAGE_LENGTH bytes, 258 bytes. */
  lemma EncodedBufferSizeIsCobsWorstCase()
    ensures ENCODED_BUFFER_SIZE == CobsWorstCase(MAX_MESSAGE_LENGTH) == 258
  {
    CobsWorstCaseIsCeiling(MAX_MESSAGE_LENGTH);
  }

  /** As written, ENCODED_BUFFER_SIZE leaves no room for the 0x00 delimiter
      that terminates every frame: a frame of a maximal message takes 259. */
  lemma EncodedBufferSizeMissesDelimiter()
    ensures ENCODED_BUFFER_SIZE < CobsWorstCase(MAX_MESSAGE_LENGTH) + 1
  {
    EncodedBufferSizeIsCobsWorstCase();
  }

  /** Buffer size that holds any framed message: the COBS worst case plus the
      delimiter byte. */
  const FRAMED_BUFFER_SIZE: nat := ENCODED_BUFFER_SIZE + 1

  /** Every message of at most MAX_MESSAGE_LENGTH bytes, framed with its
      delimiter, fits in FRAMED_BUFFER_SIZE bytes. */
  lemma {:induction false} FramedBufferSizeSuffices(n: nat)
    requires n <= MAX_MESSAGE_LENGTH
    ensures CobsWorstCase(n) + 1 <= FRAMED_BUFFER_SIZE
  {
    CobsWorstCaseMonotone(n, MAX_MESSAGE_LENGTH);
    EncodedBufferSizeIsCobsWorstCase();
  }

  /** An accumulator that turns received bytes into `Message`s, with a buffer
      of MAX_MESSAGE_LENGTH bytes. */
  class Accumulator {
    var inner: Cobs.CobsAccumulator

    ghost predicate Valid()
      reads this, inner
    {
      inner.Valid() && inner.capacity == MAX_MESSAGE_LENGTH
    }

    /** A new accumulator holds no partial frame. `parse` is the frame parser
        of the serialisation library. */
    constructor New(parse: seq<byte> -> Option<Message>)
      ensures Valid() && fresh(inner)
      ensures inner.capacity == MAX_MESSAGE_LENGTH && inner.pending == [] && inner.parse == parse
    {
      inner := new Cobs.CobsAccumulator(MAX_MESSAGE_LENGTH, parse);
    }

    /** Discards any partial frame: afterwards the accumulator is in exactly
        the state New produces. */
    method Reset()
      requires Valid()
      modifies this
      ensures Valid() && fresh(inner)
      ensures inner.capacity == MAX_MESSAGE_LENGTH && inner.pending == [] && inner.parse == old(inner.parse)
    {
      inner := new Cobs.CobsAccumulator(MAX_MESSAGE_LENGTH, inner.parse);
    }

    /** Pure delegation: the outcome is the inner accumulator's for `buf`. */
    method Feed(buf: Cobs.Slice) returns (r: Cobs.FeedResult)
      requires Valid()
      modifies inner
      ensures Valid() && inner == old(inner)
      ensures Cobs.Fed(r, inner.pending)
              == Cobs.FeedStep(MAX_MESSAGE_LENGTH, inner.parse, old(inner.pending), buf)
    {
      r := inner.Feed(buf);
    }
  }

  /** A bounded vector of at most `buf.Length` bytes (the `B` of hdcomm's Rust code);
      its contents are the first `len` cells of `buf`. */
  class HeaplessVec {
    const buf: array<byte>
    var len: nat

    ghost predicate Valid()
      reads this
    {
      len <= buf.Length
    }

    function Contents(): seq<byte>
      reads this, buf
      requires Valid()
    {
      buf[..len]
    }

    constructor (capacity: nat)
      ensures Valid() && fresh(buf) && buf.Length == capacity && Contents() == []
    {
      buf := new byte[capacity];
      len := 0;
    }

    /** Appends `x` if there is room; otherwise hands `x` back. */
    method Push(x: byte) returns (r: Result<(), byte>)
      requires Valid()
      modifies this, buf
      ensures Valid()
      ensures r.Ok? <==> old(len) < buf.Length
      ensures r.Err? ==> r.error == x
      ensures Contents() == if r.Ok? then old(Contents()) + [x] else old(Contents())
    {
      if len < buf.Length {
        buf[len] := x;
        len := len + 1;
        r := Ok(());
      } else {
        r := Err(x);
      }
    }

    /** Appends all of `data` if it fits in the remaining capacity; otherwise
        changes nothing and fails. */
    method ExtendFromSlice(data: seq<byte>) returns (r: Result<(), ()>)
      requires Valid()
      modifies this, buf
      ensures Valid()
      ensures r.Ok? <==> old(len) + |data| <= buf.Length
      ensures Contents() == if r.Ok? then old(Contents()) + data else old(Contents())
    {
      if len + |data| > buf.Length {
        return Err(());
      }
      ghost var before := Contents();
      var i := 0;
      while i < |data|
        invariant 0 <= i <= |data|
        invariant len == old(len) + i && len <= buf.Length
        invariant buf[..len] == before + data[..i]
      {
        buf[len] := data[i];
        len := len + 1;
        assert data[..i + 1] == data[..i] + [data[i]];
        i := i + 1;
      }
      assert data[..i] == data;
      r := Ok(());
    }
  }

  /** The serialiser output flavour that writes into a borrowed bounded vector. */
  class HVecRef {
    const vec: HeaplessVec

    ghost predicate Valid()
      reads this, vec
    {
      vec.Valid()
    }

    constructor (vec: HeaplessVec)
      requires vec.Valid()
      ensures this.vec == vec && Valid()
    {
      this.vec := vec;
    }

    /** Reads element `idx`; indexing past the length is a panic in hdcomm's Rust code. */
    method Index(idx: nat) returns (b: byte)
      requires Valid() && idx < vec.len
      ensures b == vec.Contents()[idx]
    {
      b := vec.buf[idx];
    }

    /** Writes `value` through the mutable reference to element `idx`; no
        other element and not the length changes. */
    method IndexMut(idx: nat, value: byte)
      requires Valid() && idx < vec.len
      modifies vec.buf
      ensures Valid() && vec.len == old(vec.len)
      ensures vec.Contents() == old(vec.Contents())[idx := value]
    {
      vec.buf[idx] := value;
    }

    method TryExtend(data: seq<byte>) returns (r: Result<(), ()>)
      requires Valid()
      modifies vec, vec.buf
      ensures Valid()
      ensures r.Ok? <==> old(vec.len) + |data| <= vec.buf.Length
      ensures vec.Contents() == if r.Ok? then old(vec.Contents()) + data else old(vec.Contents())
    {
      r := vec.ExtendFromSlice(data);
    }

    method TryPush(data: byte) returns (r: Result<(), ()>)
      requires Valid()
      modifies vec, vec.buf
      ensures Valid()
      ensures r.Ok? <==> old(vec.len) < vec.buf.Length
      ensures vec.Contents() == if r.Ok? then old(vec.Contents()) + [data] else old(vec.Contents())
    {
      var pushed := vec.Push(data);
      r := if pushed.Ok? then Ok(()) else Err(());
    }

    /** Finishing the flavour never fails and yields nothing: the caller owns
        the vector that was written. */
    method Release() returns (r: Result<(), ()>)
      ensures r == Ok(())
    {
      r := Ok(());
    }
  }
}
