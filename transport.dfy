/**
 * The message transport every component talks through, reduced to what
 * the protocols observe: a socket delivers the frames of multi-part
 * messages in order, each with its "more" bit, and records what is sent.
 */
module Transport {
  import opened Wire

  /** A frame carries raw bytes (a header, an identity, an ACK) or feature values. */
  datatype Body = Bytes(bytes: seq<byte>) | Values(values: seq<int>)

  /** One part of a multi-part message; `more` is ZMQ_SNDMORE / ZMQ_RCVMORE. */
  datatype Frame = Frame(body: Body, more: bool)

  /** The size of a frame in bytes, feature values being 4 bytes wide. */
  function FrameSize(f: Frame): nat {
    match f.body
    case Bytes(b) => |b|
    case Values(v) => 4 * |v|
  }

  /**
   * The bytes a header buffer of n bytes holds after receiving frame f: the
   * frame's bytes, read as zero past their end.
   */
  function HeaderBytes(f: Frame, n: nat): (h: seq<byte>)
    ensures |h| >= n
    ensures f.body.Bytes? && |f.body.bytes| >= n ==> h == f.body.bytes
  {
    var b := if f.body.Bytes? then f.body.bytes else [];
    if |b| >= n then b else b + Zeros(n - |b|)
  }

  /** The length of an n-byte header buffer after receiving f: n, or the frame's length when longer. */
  function HeaderLen(f: Frame, n: nat): nat {
    if f.body.Bytes? && |f.body.bytes| >= n then |f.body.bytes| else n
  }

  /** The received header buffer holds HeaderLen bytes, byte j being HeaderByte(f, j). */
  lemma HeaderBytesAt(f: Frame, n: nat)
    ensures |HeaderBytes(f, n)| == HeaderLen(f, n)
    ensures forall j | 0 <= j < HeaderLen(f, n) :: HeaderBytes(f, n)[j] == HeaderByte(f, j)
  {
  }

  /** Byte j of a received header, zero past the frame's bytes. */
  function HeaderByte(f: Frame, j: nat): byte {
    if f.body.Bytes? && j < |f.body.bytes| then f.body.bytes[j] else 0
  }

  /** Slot k of a received header, read as `parse<unsigned>` reads it. */
  function HeaderSlot(f: Frame, k: nat): u32 {
    HeaderByte(f, 4 * k) as int + 256 * HeaderByte(f, 4 * k + 1) as int
      + 65536 * HeaderByte(f, 4 * k + 2) as int + 16777216 * HeaderByte(f, 4 * k + 3) as int
  }

  /** Reading a slot straight from the frame agrees with reading the received header buffer. */
  lemma HeaderSlotIs(f: Frame, n: nat, k: nat)
    requires 4 * k + 4 <= n
    ensures ParseSlot(HeaderBytes(f, n), k) == HeaderSlot(f, k)
  {
    var h := HeaderBytes(f, n);
    forall j | 4 * k <= j < 4 * k + 4 ensures h[j] == HeaderByte(f, j) {
    }
  }

  /** The feature values a frame carries (none for a byte frame). */
  function ValuesOf(f: Frame): seq<int> {
    if f.body.Values? then f.body.values else []
  }

  /** Value u of a payload, read as zero past its end. */
  function ValueAt(vs: seq<int>, u: nat): int {
    if u < |vs| then vs[u] else 0
  }

  /** An empty message: the ACK / confirm frames of the protocols. */
  const EMPTY: Body := Bytes([])

  /**
   * One end of a ZMQ socket. The frames that will arrive are fixed when the
   * socket is made; `pos` counts those received so far.
   */
  class Socket {
    /** Every frame that arrives on this socket, in arrival order. */
    const incoming: seq<Frame>
    /** How many of them have been received. */
    var pos: nat
    /** Frames sent so far, in order. */
    var outbox: seq<Frame>
    /** ZMQ_RCVMORE: the more bit of the last frame received. */
    var rcvMore: bool

    predicate Valid()
      reads this
    {
      pos <= |incoming|
    }

    constructor (frames: seq<Frame>)
      ensures Valid() && incoming == frames && pos == 0 && outbox == [] && !rcvMore
    {
      incoming := frames;
      pos := 0;
      outbox := [];
      rcvMore := false;
    }

    /** socket.send(msg, more ? ZMQ_SNDMORE : 0) */
    method Send(body: Body, more: bool := false)
      modifies this
      ensures outbox == old(outbox) + [Frame(body, more)]
      ensures pos == old(pos) && rcvMore == old(rcvMore)
    {
      outbox := outbox + [Frame(body, more)];
    }

    /**
     * socket.recv(&msg): the next frame, or false when none is left (where
     * the real socket would block or fail).
     */
    method Recv() returns (ok: bool, f: Frame)
      requires Valid()
      modifies this
      ensures Valid()
      ensures ok <==> old(pos) < |incoming|
      ensures ok ==> f == incoming[old(pos)] && pos == old(pos) + 1 && rcvMore == f.more
      ensures !ok ==> f == Frame(EMPTY, false) && pos == old(pos) && rcvMore == old(rcvMore)
      ensures outbox == old(outbox)
    {
      if pos == |incoming| {
        ok, f := false, Frame(EMPTY, false);
      } else {
        ok, f := true, incoming[pos];
        pos := pos + 1;
        rcvMore := f.more;
      }
    }
  }
}
