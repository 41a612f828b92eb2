/**
 * The lambda side of the named-tensor protocol
 * (src/funcs/john-gcn/ops/network_ops.cpp): requesting tensors by name,
 * receiving them one (header, payload) pair at a time, pushing results back
 * and reading the server's ACK.
 *
 * Received frames are named by their position in the socket's incoming
 * stream: a specification function takes the stream and the position of the
 * next frame to be received, and says where reading stops.
 */
module Protocol {
  import opened Wire
  import opened Headers
  import opened Transport
  import opened ChunkHeader
  import opened Seqs

  /** A named matrix as it travels: name, dimensions and row-major elements. */
  datatype Tensor = Tensor(name: Name, rows: u32, cols: u32, data: seq<int>)

  /** Matrix::empty() */
  predicate Empty(t: Tensor) {
    t.rows == 0 || t.cols == 0
  }

  /** The payload holds exactly rows * cols elements. */
  predicate WellFormed(t: Tensor) {
    |t.data| == t.rows as int * t.cols as int
  }

  /** A default-constructed Matrix: no name, 0 x 0, no data. */
  const NO_TENSOR: Tensor := Tensor("", 0, 0, [])

  // ---------------------------------------------------------------------------
  // recvTensor
  // ---------------------------------------------------------------------------

  /** What recvTensor returns, the matrix it leaves behind, and where reading stops. */
  datatype Received = Received(ret: int, mat: Tensor, next: nat)

  /**
   * The name parseName reads from a received tensor header, the C string
   * from byte j on, read straight from the frame.
   */
  function HeaderName(f: Frame, j: nat): Name
    requires j <= HeaderLen(f, TENSOR_HDR_SIZE)
    decreases HeaderLen(f, TENSOR_HDR_SIZE) - j
  {
    if j == HeaderLen(f, TENSOR_HDR_SIZE) || HeaderByte(f, j) == 0 then []
    else [HeaderByte(f, j) as char] + HeaderName(f, j + 1)
  }

  /** HeaderName is parseName applied to the received header buffer. */
  lemma HeaderNameIs(f: Frame)
    ensures ParseName(HeaderBytes(f, TENSOR_HDR_SIZE)) == HeaderName(f, SLOT_SIZE)
  {
    HeaderBytesAt(f, TENSOR_HDR_SIZE);
    CStringFrom(f, SLOT_SIZE);
  }

  lemma {:induction false} CStringFrom(f: Frame, j: nat)
    requires j <= HeaderLen(f, TENSOR_HDR_SIZE)
    requires |HeaderBytes(f, TENSOR_HDR_SIZE)| == HeaderLen(f, TENSOR_HDR_SIZE)
    requires forall k | 0 <= k < HeaderLen(f, TENSOR_HDR_SIZE) :: HeaderBytes(f, TENSOR_HDR_SIZE)[k] == HeaderByte(f, k)
    ensures ToChars(CStringAt(HeaderBytes(f, TENSOR_HDR_SIZE), j)) == HeaderName(f, j)
    decreases HeaderLen(f, TENSOR_HDR_SIZE) - j
  {
    var h := HeaderBytes(f, TENSOR_HDR_SIZE);
    if j < |h| && h[j] != 0 {
      CStringFrom(f, j + 1);
      ToCharsCons(h[j], CStringAt(h, j + 1));
    }
  }

  /** The tensor decoded from a header frame and the payload frame after it. */
  function TensorOf(header: Frame, payload: Frame): Tensor {
    Tensor(HeaderName(header, SLOT_SIZE), HeaderSlot(header, 3), HeaderSlot(header, 4), ValuesOf(payload))
  }

  /**
   * recvTensor with frames[p..] still to come: a failed receive returns 0
   * and leaves the matrix unset; an error header returns -1 and reads no
   * payload; otherwise the header and payload become the matrix.
   */
  function RecvTensorSpec(frames: seq<Frame>, p: nat): (r: Received)
    requires p <= |frames|
    ensures p <= r.next <= |frames| && r.next <= p + 2
    ensures r.ret == -1 <==> p < |frames| && HeaderSlot(frames[p], 0) == ERR_HEADER_FIELD
    ensures r.ret == -1 ==> r.mat == NO_TENSOR && r.next == p + 1
    ensures r.ret != -1 ==> r.ret == 0
    ensures r.next == p + 2 ==> r.mat == TensorOf(frames[p], frames[p + 1])
    ensures r.next < p + 2 ==> r.mat == NO_TENSOR
  {
    if p == |frames| then Received(0, NO_TENSOR, p)
    else if HeaderSlot(frames[p], 0) == ERR_HEADER_FIELD then Received(-1, NO_TENSOR, p + 1)
    else if p + 1 == |frames| then Received(0, NO_TENSOR, p + 1)
    else Received(0, TensorOf(frames[p], frames[p + 1]), p + 2)
  }

  /** recvTensor(socket, mat) */
  method RecvTensor(sock: Socket) returns (ret: int, mat: Tensor)
    requires sock.Valid()
    modifies sock
    ensures sock.Valid()
    ensures var r := RecvTensorSpec(sock.incoming, old(sock.pos));
      ret == r.ret && mat == r.mat && sock.pos == r.next &&
      sock.rcvMore == (if r.next == old(sock.pos) then old(sock.rcvMore) else sock.incoming[r.next - 1].more)
    ensures sock.outbox == old(sock.outbox)
  {
    mat := NO_TENSOR;
    var ok, header := sock.Recv();
    if !ok {
      return 0, mat;
    }
    var h := HeaderBytes(header, TENSOR_HDR_SIZE);
    var resp := ParseSlot(h, 0);
    HeaderSlotIs(header, TENSOR_HDR_SIZE, 0);
    if resp == ERR_HEADER_FIELD {
      return -1, mat;
    }
    var name := ParseName(h);
    HeaderNameIs(header);
    var ok2, tensorData := sock.Recv();
    if !ok2 {
      return 0, mat;
    }
    var rows := ParseSlot(h, 3);
    var cols := ParseSlot(h, 4);
    HeaderSlotIs(header, TENSOR_HDR_SIZE, 3);
    HeaderSlotIs(header, TENSOR_HDR_SIZE, 4);
    var data := ValuesOf(tensorData);
    mat := mat.(name := name);
    mat := mat.(rows := rows);
    mat := mat.(cols := cols);
    mat := mat.(data := data);
    ret := 0;
  }

  // ---------------------------------------------------------------------------
  // The receive loop of reqTensors
  // ---------------------------------------------------------------------------

  /**
   * The outcome of one round of receiving: the matrices kept, whether an error
   * header or an empty tensor ended it, and where reading stopped.
   */
  datatype Reply = Reply(tensors: seq<Tensor>, error: bool, sawEmpty: bool, next: nat)

  /**
   * Receive tensors until one arrives without "more". An error header or an
   * empty tensor discards everything collected so far.
   */
  function ReceiveReply(frames: seq<Frame>, p: nat): (r: Reply)
    requires p <= |frames|
    ensures p <= r.next <= |frames|
    decreases |frames| - p
  {
    var rt := RecvTensorSpec(frames, p);
    if rt.ret == -1 then Reply([], true, false, rt.next)
    else if Empty(rt.mat) then Reply([], false, true, rt.next)
    else if !frames[p + 1].more then Reply([rt.mat], false, false, p + 2)
    else
      var rest := ReceiveReply(frames, p + 2);
      if rest.error || rest.sawEmpty then Reply([], rest.error, rest.sawEmpty, rest.next)
      else Reply([rt.mat] + rest.tensors, false, false, rest.next)
  }

  /**
   * An error and an empty tensor exclude each other, either one discards the
   * matrices, and a successful round keeps at least one matrix.
   */
  lemma {:induction false} ReplyKept(frames: seq<Frame>, p: nat)
    requires p <= |frames|
    ensures var r := ReceiveReply(frames, p);
      !(r.error && r.sawEmpty) &&
      (r.error || r.sawEmpty ==> r.tensors == []) &&
      (!r.error && !r.sawEmpty ==> |r.tensors| >= 1)
    decreases |frames| - p
  {
    var rt := RecvTensorSpec(frames, p);
    if rt.ret != -1 && !Empty(rt.mat) && frames[p + 1].more {
      ReplyKept(frames, p + 2);
    }
  }

  /** No matrix in ts is empty. */
  predicate NoneEmpty(ts: seq<Tensor>) {
    forall i | 0 <= i < |ts| :: !Empty(ts[i])
  }

  /** A successful round keeps no empty matrix. */
  lemma {:induction false} ReplyNoEmpty(frames: seq<Frame>, p: nat)
    requires p <= |frames|
    ensures var r := ReceiveReply(frames, p);
      !r.error && !r.sawEmpty ==> NoneEmpty(r.tensors)
    decreases |frames| - p
  {
    var r := ReceiveReply(frames, p);
    var rt := RecvTensorSpec(frames, p);
    if rt.ret != -1 && !Empty(rt.mat) && frames[p + 1].more {
      var rest := ReceiveReply(frames, p + 2);
      ReplyNoEmpty(frames, p + 2);
      if !rest.error && !rest.sawEmpty {
        assert r.tensors == [rt.mat] + rest.tensors;
      }
    }
  }

  /** The reply of a whole round, given the matrices kept so far and the reply to the rest. */
  function Combine(acc: seq<Tensor>, rest: Reply): Reply {
    if rest.error || rest.sawEmpty then Reply([], rest.error, rest.sawEmpty, rest.next)
    else Reply(acc + rest.tensors, false, false, rest.next)
  }

  /** A successful round reads exactly one (header, payload) pair per matrix kept. */
  lemma {:induction false} ReplyLength(frames: seq<Frame>, p: nat)
    requires p <= |frames|
    ensures var r := ReceiveReply(frames, p);
      !r.error && !r.sawEmpty ==> r.next == p + 2 * |r.tensors|
    decreases |frames| - p
  {
    var rt := RecvTensorSpec(frames, p);
    if rt.ret != -1 && !Empty(rt.mat) && frames[p + 1].more {
      ReplyLength(frames, p + 2);
    }
  }

  /** The i-th matrix of a successful round is the (header, payload) pair at frames p + 2i and p + 2i + 1. */
  lemma {:induction false} ReplyAt(frames: seq<Frame>, p: nat, i: nat)
    requires p <= |frames|
    requires var r := ReceiveReply(frames, p); !r.error && !r.sawEmpty && i < |r.tensors|
    ensures p + 2 * i + 1 < |frames|
    ensures ReceiveReply(frames, p).tensors[i] == TensorOf(frames[p + 2 * i], frames[p + 2 * i + 1])
    decreases i
  {
    var r := ReceiveReply(frames, p);
    var rt := RecvTensorSpec(frames, p);
    assert r.tensors[0] == rt.mat;
    if i > 0 {
      var rest := ReceiveReply(frames, p + 2);
      assert r.tensors[i] == rest.tensors[i - 1];
      ReplyAt(frames, p + 2, i - 1);
      assert p + 2 + 2 * (i - 1) == p + 2 * i;
    }
  }

  /** Within a successful round only the last payload frame lacks "more". */
  lemma {:induction false} ReplyMoreAt(frames: seq<Frame>, p: nat, i: nat)
    requires p <= |frames|
    requires var r := ReceiveReply(frames, p); !r.error && !r.sawEmpty && i < |r.tensors|
    ensures p + 2 * i + 1 < |frames|
    ensures frames[p + 2 * i + 1].more == (i < |ReceiveReply(frames, p).tensors| - 1)
    decreases i
  {
    var rt := RecvTensorSpec(frames, p);
    if frames[p + 1].more {
      ReplyKept(frames, p + 2);
      if i > 0 {
        ReplyMoreAt(frames, p + 2, i - 1);
        assert p + 2 + 2 * (i - 1) == p + 2 * i;
      }
    }
  }

  /**
   * A successful round keeps every received matrix, in arrival order: the
   * i-th is the (header, payload) pair at frames p + 2i and p + 2i + 1, and
   * only the last payload lacks "more".
   */
  lemma ReplyInArrivalOrder(frames: seq<Frame>, p: nat)
    requires p <= |frames|
    ensures var r := ReceiveReply(frames, p);
      !r.error && !r.sawEmpty ==>
        r.next == p + 2 * |r.tensors| &&
        (forall i | 0 <= i < |r.tensors| :: r.tensors[i] == TensorOf(frames[p + 2 * i], frames[p + 2 * i + 1])) &&
        (forall i | 0 <= i < |r.tensors| :: frames[p + 2 * i + 1].more == (i < |r.tensors| - 1))
  {
    var r := ReceiveReply(frames, p);
    if !r.error && !r.sawEmpty {
      ReplyLength(frames, p);
      forall i | 0 <= i < |r.tensors|
        ensures r.tensors[i] == TensorOf(frames[p + 2 * i], frames[p + 2 * i + 1])
        ensures frames[p + 2 * i + 1].more == (i < |r.tensors| - 1)
      {
        ReplyAt(frames, p, i);
        ReplyMoreAt(frames, p, i);
      }
    }
  }

  /** An error header as the first reply frame ends the round with nothing kept. */
  lemma ErrorFirstDiscards(frames: seq<Frame>, p: nat)
    requires p < |frames| && HeaderSlot(frames[p], 0) == ERR_HEADER_FIELD
    ensures ReceiveReply(frames, p) == Reply([], true, false, p + 1)
  {
  }

  /** One step of the loop: a non-empty tensor with "more" is kept and the round goes on. */
  lemma ReplyStep(frames: seq<Frame>, p: nat, acc: seq<Tensor>)
    requires p + 2 <= |frames|
    requires RecvTensorSpec(frames, p).ret == 0 && !Empty(RecvTensorSpec(frames, p).mat) && frames[p + 1].more
    ensures Combine(acc, ReceiveReply(frames, p)) ==
            Combine(acc + [RecvTensorSpec(frames, p).mat], ReceiveReply(frames, p + 2))
  {
    var m := RecvTensorSpec(frames, p).mat;
    var rest := ReceiveReply(frames, p + 2);
    if !rest.error && !rest.sawEmpty {
      AppendAssoc(acc, [m], rest.tensors);
    }
  }

  /** The last tensor of a round: kept, and the round ends. */
  lemma ReplyLast(frames: seq<Frame>, p: nat, acc: seq<Tensor>)
    requires p + 2 <= |frames|
    requires RecvTensorSpec(frames, p).ret == 0 && !Empty(RecvTensorSpec(frames, p).mat) && !frames[p + 1].more
    ensures Combine(acc, ReceiveReply(frames, p)) == Reply(acc + [RecvTensorSpec(frames, p).mat], false, false, p + 2)
  {
  }

  /** An error header or an empty tensor ends the round with nothing kept. */
  lemma ReplyStops(frames: seq<Frame>, p: nat, acc: seq<Tensor>)
    requires p <= |frames|
    requires RecvTensorSpec(frames, p).ret == -1 || Empty(RecvTensorSpec(frames, p).mat)
    ensures var rt := RecvTensorSpec(frames, p);
      Combine(acc, ReceiveReply(frames, p)) == Reply([], rt.ret == -1, rt.ret != -1, rt.next)
  {
  }

  /** reqTensors' inner `while (more && !empty)` loop. */
  method ReceiveTensors(sock: Socket) returns (matrices: seq<Tensor>, error: bool, empty: bool)
    requires sock.Valid()
    modifies sock
    ensures sock.Valid()
    ensures var r := ReceiveReply(sock.incoming, old(sock.pos));
      matrices == r.tensors && error == r.error && empty == r.sawEmpty && sock.pos == r.next
    ensures sock.outbox == old(sock.outbox)
  {
    ghost var frames := sock.incoming;
    ghost var goal := ReceiveReply(frames, sock.pos);
    matrices := [];
    error := false;
    var more := true;
    empty := false;
    while more && !empty
      invariant sock.Valid() && sock.outbox == old(sock.outbox)
      invariant !error
      invariant more && !empty ==> goal == Combine(matrices, ReceiveReply(frames, sock.pos))
      invariant !(more && !empty) ==> goal == Reply(matrices, false, empty, sock.pos)
      decreases |frames| - sock.pos + (if more && !empty then 1 else 0)
    {
      ghost var p := sock.pos;
      var ret, result := RecvTensor(sock);
      if ret == -1 {
        ReplyStops(frames, p, matrices);
        matrices := [];
        return matrices, true, false;
      }
      if Empty(result) {
        ReplyStops(frames, p, matrices);
        empty := true;
        matrices := [];
        more := sock.rcvMore;
      } else {
        if frames[p + 1].more {
          ReplyStep(frames, p, matrices);
        } else {
          ReplyLast(frames, p, matrices);
        }
        matrices := matrices + [result];
        more := sock.rcvMore;
      }
    }
  }

  // ---------------------------------------------------------------------------
  // reqTensors: request frames, retries and backoff
  // ---------------------------------------------------------------------------

  /** 5 ms, the first retry delay, in microseconds. */
  const INIT_PERIOD: nat := 5 * 1000
  /** 500 ms, the largest retry delay. */
  const MAX_PERIOD: nat := 500 * 1000

  /** `sleepPeriod *= 1.5` (truncated back to unsigned), then `min(sleepPeriod, MAX_PERIOD)`. */
  function NextSleep(p: nat): (q: nat)
    ensures q <= MAX_PERIOD
    ensures p <= MAX_PERIOD ==> p <= q
  {
    var grown := p * 3 / 2;
    if grown < MAX_PERIOD then grown else MAX_PERIOD
  }

  /** The named request header: op slot = the chunk's localId, the name, fields 0. */
  function NameRequest(localId: u32, name: Name): seq<byte> {
    NamedHeader(Zeros(TENSOR_HDR_SIZE), localId, name, 0, 0, 0, 0)
  }

  /** The frames of one request: a PULL chunk header, then one named header per name. */
  function RequestFrames(chunkBytes: seq<byte>, localId: u32, names: seq<Name>): seq<Frame>
    requires SLOT_SIZE + |chunkBytes| <= HEADER_SIZE
  {
    [Frame(Bytes(ChunkHeaderMsg(Code(PULL), chunkBytes)), true)] + NameFrames(localId, names)
  }

  /** One named header per name, in order; all but the last carry "more". */
  function NameFrames(localId: u32, names: seq<Name>): (fs: seq<Frame>)
    ensures |fs| == |names|
  {
    if names == [] then []
    else [Frame(Bytes(NameRequest(localId, names[0])), |names| > 1)] + NameFrames(localId, names[1..])
  }

  /**
   * A named request header carries the chunk's localId in its op slot, then
   * the name and four zero fields; a name shorter than 8 bytes reads back whole.
   */
  lemma NameRequestFields(localId: u32, name: Name)
    ensures var h := NameRequest(localId, name);
      |h| == TENSOR_HDR_SIZE && ParseSlot(h, 0) == localId &&
      ParseSlot(h, 3) == 0 && ParseSlot(h, 4) == 0 && ParseSlot(h, 5) == 0 && ParseSlot(h, 6) == 0 &&
      (|name| < TENSOR_NAME_SIZE && ByteString(name) && NoNul(name) ==> ParseName(h) == name)
  {
    var z := Zeros(TENSOR_HDR_SIZE);
    NamedHeaderLayout(z, localId, name, 0, 0, 0, 0);
    if |name| < TENSOR_NAME_SIZE && ByteString(name) && NoNul(name) {
      ParseNamedHeaderName(z, localId, name, 0, 0, 0, 0);
    }
  }

  /**
   * A request is one PULL chunk header and then one named header per name,
   * in order; every frame but the last carries "more".
   */
  lemma RequestFramesShape(chunkBytes: seq<byte>, localId: u32, names: seq<Name>)
    requires SLOT_SIZE + |chunkBytes| <= HEADER_SIZE
    ensures var fs := RequestFrames(chunkBytes, localId, names);
      |fs| == 1 + |names| &&
      fs[0] == Frame(Bytes(ChunkHeaderMsg(Code(PULL), chunkBytes)), true) &&
      (forall i | 0 <= i < |names| :: fs[i + 1] == Frame(Bytes(NameRequest(localId, names[i])), i < |names| - 1))
  {
    var fs := RequestFrames(chunkBytes, localId, names);
    forall i | 0 <= i < |names|
      ensures fs[i + 1] == Frame(Bytes(NameRequest(localId, names[i])), i < |names| - 1)
    {
      NameFramesAt(localId, names, i);
    }
  }

  /** Frame i of the named headers asks for names[i]. */
  lemma {:induction false} NameFramesAt(localId: u32, names: seq<Name>, i: nat)
    requires i < |names|
    ensures NameFrames(localId, names)[i] == Frame(Bytes(NameRequest(localId, names[i])), i < |names| - 1)
    decreases i
  {
    if i > 0 {
      NameFramesAt(localId, names[1..], i - 1);
      assert names[1..][i - 1] == names[i];
    }
  }

  /** The frames sent by `n` request attempts. */
  function Repeat(fs: seq<Frame>, n: nat): seq<Frame> {
    if n == 0 then [] else Repeat(fs, n - 1) + fs
  }

  lemma RepeatNext(fs: seq<Frame>, n: nat)
    ensures Repeat(fs, n) + fs == Repeat(fs, n + 1)
  {
  }

  /** The outcome of reqTensors: matrices, attempts made, delays slept, where reading stopped. */
  datatype Outcome = Outcome(tensors: seq<Tensor>, attempts: nat, sleeps: seq<nat>, next: nat)

  /**
   * reqTensors' outer loop: after an empty round it sleeps and retries when
   * `resend` holds; `fuel` bounds the attempts, since the source would retry
   * without bound.
   */
  function Attempts(frames: seq<Frame>, p: nat, resend: bool, fuel: nat, period: nat): Outcome
    requires p <= |frames| && fuel >= 1
    decreases fuel
  {
    var r := ReceiveReply(frames, p);
    if resend && r.sawEmpty && fuel > 1 then
      var rest := Attempts(frames, r.next, resend, fuel - 1, NextSleep(period));
      Outcome(rest.tensors, 1 + rest.attempts, [period] + rest.sleeps, rest.next)
    else Outcome(r.tensors, 1, [], r.next)
  }

  /**
   * At least one attempt and at most `fuel`, one sleep between two attempts,
   * and reading never goes back or past the end.
   */
  lemma {:induction false} AttemptsCounts(frames: seq<Frame>, p: nat, resend: bool, fuel: nat, period: nat)
    requires p <= |frames| && fuel >= 1
    ensures var o := Attempts(frames, p, resend, fuel, period);
      1 <= o.attempts <= fuel && |o.sleeps| == o.attempts - 1 && p <= o.next <= |frames|
    decreases fuel
  {
    var r := ReceiveReply(frames, p);
    if resend && r.sawEmpty && fuel > 1 {
      AttemptsCounts(frames, r.next, resend, fuel - 1, NextSleep(period));
    }
  }

  /** Without RESEND (its default) reqTensors makes exactly one attempt and returns its reply. */
  lemma NoResendOneAttempt(frames: seq<Frame>, p: nat, fuel: nat, period: nat)
    requires p <= |frames| && fuel >= 1
    ensures var r := ReceiveReply(frames, p);
      Attempts(frames, p, false, fuel, period) == Outcome(r.tensors, 1, [], r.next)
  {
  }

  /** What reqTensors returns is either nothing or a list of non-empty matrices. */
  lemma {:induction false} AttemptsKeepNonEmpty(frames: seq<Frame>, p: nat, resend: bool, fuel: nat, period: nat)
    requires p <= |frames| && fuel >= 1
    ensures var o := Attempts(frames, p, resend, fuel, period);
      o.tensors == [] || NoneEmpty(o.tensors)
    decreases fuel
  {
    var r := ReceiveReply(frames, p);
    if resend && r.sawEmpty && fuel > 1 {
      AttemptsKeepNonEmpty(frames, r.next, resend, fuel - 1, NextSleep(period));
    } else {
      ReplyKept(frames, p);
      ReplyNoEmpty(frames, p);
    }
  }

  /**
   * The retry delays start at the initial period, never decrease, and stay
   * within [INIT_PERIOD, MAX_PERIOD].
   */
  lemma {:induction false} SleepsBounded(frames: seq<Frame>, p: nat, resend: bool, fuel: nat, period: nat)
    requires p <= |frames| && fuel >= 1 && INIT_PERIOD <= period <= MAX_PERIOD
    ensures var s := Attempts(frames, p, resend, fuel, period).sleeps;
      (s != [] ==> s[0] == period) &&
      (forall i | 0 <= i < |s| :: INIT_PERIOD <= s[i] <= MAX_PERIOD) &&
      (forall i | 0 <= i < |s| - 1 :: s[i] <= s[i + 1])
    decreases fuel
  {
    var r := ReceiveReply(frames, p);
    if resend && r.sawEmpty && fuel > 1 {
      SleepsBounded(frames, r.next, resend, fuel - 1, NextSleep(period));
    }
  }

  /** The outcome of the whole call, given what the earlier attempts did and the outcome of the rest. */
  function Shift(o: Outcome, attempts: nat, sleeps: seq<nat>): Outcome {
    Outcome(o.tensors, attempts + o.attempts, sleeps + o.sleeps, o.next)
  }

  /** One retry: the attempt's reply was empty, it sleeps `period` and goes on with the rest of the frames. */
  lemma RetryStep(frames: seq<Frame>, p: nat, resend: bool, fuel: nat, period: nat, attempts: nat, sleeps: seq<nat>)
    requires p <= |frames| && fuel > 1 && resend && ReceiveReply(frames, p).sawEmpty
    ensures Shift(Attempts(frames, p, resend, fuel, period), attempts, sleeps) ==
      Shift(Attempts(frames, ReceiveReply(frames, p).next, resend, fuel - 1, NextSleep(period)),
            attempts + 1, sleeps + [period])
  {
    var rest := Attempts(frames, ReceiveReply(frames, p).next, resend, fuel - 1, NextSleep(period));
    AppendAssoc(sleeps, [period], rest.sleeps);
  }

  /** The last attempt: its reply is the outcome. */
  lemma FinalStep(frames: seq<Frame>, p: nat, resend: bool, fuel: nat, period: nat, attempts: nat, sleeps: seq<nat>)
    requires p <= |frames| && fuel >= 1 && !(resend && ReceiveReply(frames, p).sawEmpty && fuel > 1)
    ensures var r := ReceiveReply(frames, p);
      Shift(Attempts(frames, p, resend, fuel, period), attempts, sleeps) ==
      Outcome(r.tensors, attempts + 1, sleeps, r.next)
  {
  }

  /** reqTensors(socket, chunk, tensorRequests) */
  method ReqTensors(sock: Socket, chunkBytes: seq<byte>, chunk: Chunk, names: seq<Name>,
                    resend: bool := RESEND, maxAttempts: nat := 1)
    returns (matrices: seq<Tensor>, sleeps: seq<nat>)
    requires sock.Valid()
    requires SLOT_SIZE + |chunkBytes| <= HEADER_SIZE && names != [] && maxAttempts >= 1
    modifies sock
    ensures sock.Valid()
    ensures var o := Attempts(sock.incoming, old(sock.pos), resend, maxAttempts, INIT_PERIOD);
      matrices == o.tensors && sleeps == o.sleeps && sock.pos == o.next &&
      sock.outbox == old(sock.outbox) + Repeat(RequestFrames(chunkBytes, chunk.localId, names), o.attempts)
  {
    ghost var goal := Attempts(sock.incoming, sock.pos, resend, maxAttempts, INIT_PERIOD);
    ghost var out0 := sock.outbox;
    ghost var made: nat := 0;
    var sleepPeriod := INIT_PERIOD;
    var fuel := maxAttempts;
    sleeps := [];
    matrices := [];
    while true
      invariant sock.Valid() && 1 <= fuel && made + fuel == maxAttempts
      invariant sock.outbox == out0 + Repeat(RequestFrames(chunkBytes, chunk.localId, names), made)
      invariant goal == Shift(Attempts(sock.incoming, sock.pos, resend, fuel, sleepPeriod), made, sleeps)
      decreases fuel
    {
      var got, retry := Round(sock, chunkBytes, chunk.localId, names, resend, fuel, sleepPeriod, made, sleeps, out0);
      if retry {
        sleeps := sleeps + [sleepPeriod];
        sleepPeriod := NextSleep(sleepPeriod);
        fuel := fuel - 1;
        made := made + 1;
      } else {
        matrices := got;
        return;
      }
    }
  }

  /**
   * One pass of reqTensors' outer loop: send the request, receive the reply,
   * and decide whether to retry (`RESEND` and an empty tensor, with attempts
   * left). The outcome of the whole call is unchanged by the step.
   */
  method Round(sock: Socket, chunkBytes: seq<byte>, localId: u32, names: seq<Name>, resend: bool,
               fuel: nat, period: nat, ghost attempts: nat, ghost sleeps: seq<nat>, ghost out0: seq<Frame>)
    returns (got: seq<Tensor>, retry: bool)
    requires sock.Valid()
    requires SLOT_SIZE + |chunkBytes| <= HEADER_SIZE && names != [] && fuel >= 1
    requires sock.outbox == out0 + Repeat(RequestFrames(chunkBytes, localId, names), attempts)
    modifies sock
    ensures sock.Valid()
    ensures retry ==> (fuel > 1 &&
      Shift(Attempts(sock.incoming, old(sock.pos), resend, fuel, period), attempts, sleeps) ==
      Shift(Attempts(sock.incoming, sock.pos, resend, fuel - 1, NextSleep(period)), attempts + 1, sleeps + [period]))
    ensures !retry ==>
      Shift(Attempts(sock.incoming, old(sock.pos), resend, fuel, period), attempts, sleeps) ==
      Outcome(got, attempts + 1, sleeps, sock.pos)
    ensures sock.outbox == out0 + Repeat(RequestFrames(chunkBytes, localId, names), attempts + 1)
  {
    ghost var p := sock.pos;
    SendRequest(sock, chunkBytes, localId, names);
    ghost var req := RequestFrames(chunkBytes, localId, names);
    AppendAssoc(out0, Repeat(req, attempts), req);
    RepeatNext(req, attempts);
    var error, empty;
    got, error, empty := ReceiveTensors(sock);
    ReplyKept(sock.incoming, p);
    retry := !error && resend && empty && fuel > 1;
    if retry {
      RetryStep(sock.incoming, p, resend, fuel, period, attempts, sleeps);
    } else {
      FinalStep(sock.incoming, p, resend, fuel, period, attempts, sleeps);
    }
  }

  /** Sends the request frames of one attempt. */
  method SendRequest(sock: Socket, chunkBytes: seq<byte>, localId: u32, names: seq<Name>)
    requires SLOT_SIZE + |chunkBytes| <= HEADER_SIZE && names != []
    modifies sock
    ensures sock.outbox == old(sock.outbox) + RequestFrames(chunkBytes, localId, names)
    ensures sock.pos == old(sock.pos) && sock.rcvMore == old(sock.rcvMore)
  {
    ghost var out0 := sock.outbox;
    ghost var req := RequestFrames(chunkBytes, localId, names);
    RequestFramesShape(chunkBytes, localId, names);
    var header := NewBuffer(HEADER_SIZE);
    PopulateChunkHeader(header, Code(PULL), chunkBytes);
    sock.Send(Bytes(header[..]), true);
    var numTensors := |names|;
    var u := 0;
    while u < |names|
      invariant 0 <= u <= |names|
      invariant sock.outbox == out0 + req[..1 + u]
      invariant sock.pos == old(sock.pos) && sock.rcvMore == old(sock.rcvMore)
    {
      var tensorHeader := NewBuffer(TENSOR_HDR_SIZE);
      PopulateNamedHeader(tensorHeader, localId, names[u]);
      if u < numTensors - 1 {
        sock.Send(Bytes(tensorHeader[..]), true);
      } else {
        sock.Send(Bytes(tensorHeader[..]));
      }
      PrefixStep1(req, 1 + u);
      AppendAssoc(out0, req[..1 + u], [req[1 + u]]);
      u := u + 1;
    }
    assert req[..1 + |names|] == req;
  }

  // ---------------------------------------------------------------------------
  // sendTensors, sendFinMsg and the ACK
  // ---------------------------------------------------------------------------

  /** The named push header of one matrix: (PUSH, name, layer, rows, cols). */
  function PushHeader(layer: u32, m: Tensor): seq<byte> {
    NamedHeader(Zeros(TENSOR_HDR_SIZE), Code(PUSH), m.name, layer, m.rows, m.cols, 0)
  }

  /** The header and payload frames of the matrices of a push, in order. */
  function PushTensorFrames(layer: u32, ms: seq<Tensor>): (fs: seq<Frame>)
    ensures |fs| == 2 * |ms|
  {
    if ms == [] then []
    else [Frame(Bytes(PushHeader(layer, ms[0])), true), Frame(Values(ms[0].data), |ms| > 1)]
         + PushTensorFrames(layer, ms[1..])
  }

  /** Frames 2u and 2u+1 announce and carry matrix u; only the last payload lacks "more". */
  lemma {:induction false} PushTensorFramesAt(layer: u32, ms: seq<Tensor>, u: nat)
    requires u < |ms|
    ensures PushTensorFrames(layer, ms)[2 * u] == Frame(Bytes(PushHeader(layer, ms[u])), true)
    ensures PushTensorFrames(layer, ms)[2 * u + 1] == Frame(Values(ms[u].data), u < |ms| - 1)
    decreases u
  {
    if u > 0 {
      PushTensorFramesAt(layer, ms[1..], u - 1);
      assert ms[1..][u - 1] == ms[u];
    }
  }

  /** The frames of sendTensors: a PUSH chunk header, then a header and payload per matrix. */
  function PushFrames(chunkBytes: seq<byte>, layer: u32, ms: seq<Tensor>): seq<Frame>
    requires SLOT_SIZE + |chunkBytes| <= HEADER_SIZE
  {
    [Frame(Bytes(ChunkHeaderMsg(Code(PUSH), chunkBytes)), true)] + PushTensorFrames(layer, ms)
  }

  /**
   * A push header carries (PUSH, name, layer, rows, cols, 0), each readable
   * back from its slot, and a name shorter than 8 bytes reads back whole.
   */
  lemma PushHeaderFields(layer: u32, m: Tensor)
    ensures var h := PushHeader(layer, m);
      |h| == TENSOR_HDR_SIZE &&
      ParseSlot(h, 0) == Code(PUSH) && ParseSlot(h, 3) == layer &&
      ParseSlot(h, 4) == m.rows && ParseSlot(h, 5) == m.cols && ParseSlot(h, 6) == 0 &&
      (|m.name| < TENSOR_NAME_SIZE && ByteString(m.name) && NoNul(m.name) ==> ParseName(h) == m.name)
  {
    var z := Zeros(TENSOR_HDR_SIZE);
    NamedHeaderLayout(z, Code(PUSH), m.name, layer, m.rows, m.cols, 0);
    if |m.name| < TENSOR_NAME_SIZE && ByteString(m.name) && NoNul(m.name) {
      ParseNamedHeaderName(z, Code(PUSH), m.name, layer, m.rows, m.cols, 0);
    }
  }

  /**
   * A push is the PUSH chunk header, then for each matrix in order its
   * header and its elements; only the last payload is sent without "more".
   */
  lemma PushFramesShape(chunkBytes: seq<byte>, layer: u32, ms: seq<Tensor>)
    requires SLOT_SIZE + |chunkBytes| <= HEADER_SIZE
    ensures var fs := PushFrames(chunkBytes, layer, ms);
      |fs| == 1 + 2 * |ms| &&
      fs[0] == Frame(Bytes(ChunkHeaderMsg(Code(PUSH), chunkBytes)), true) &&
      (forall u | 0 <= u < |ms| ::
        fs[1 + 2 * u] == Frame(Bytes(PushHeader(layer, ms[u])), true) &&
        fs[2 + 2 * u] == Frame(Values(ms[u].data), u < |ms| - 1))
  {
    var fs := PushFrames(chunkBytes, layer, ms);
    var ts := PushTensorFrames(layer, ms);
    forall u | 0 <= u < |ms|
      ensures fs[1 + 2 * u] == Frame(Bytes(PushHeader(layer, ms[u])), true)
      ensures fs[2 + 2 * u] == Frame(Values(ms[u].data), u < |ms| - 1)
    {
      PushTensorFramesAt(layer, ms, u);
      assert fs[1 + 2 * u] == ts[2 * u] && fs[2 + 2 * u] == ts[2 * u + 1];
    }
  }

  /**
   * The ACK value when frames[p] is the next frame: the first int when the
   * ACK is exactly three ints long, otherwise 0 (also when no ACK arrives).
   */
  function AckValue(frames: seq<Frame>, p: nat): int {
    if p < |frames| && frames[p].body.Bytes? && |frames[p].body.bytes| == 3 * SLOT_SIZE
    then I32OfBits(ParseSlot(frames[p].body.bytes, 0)) as int
    else 0
  }

  /** An ACK of three ints is read back as its first int. */
  lemma AckRoundTrip(v: i32, b: u32, c: u32, buf: seq<byte>, more: bool)
    requires |buf| == 3 * SLOT_SIZE
    ensures AckValue([Frame(Bytes(WriteSlots(buf, 0, [I32Bits(v), b, c])), more)], 0) == v as int
  {
    WriteSlotsLayout(buf, 0, [I32Bits(v), b, c]);
    assert [I32Bits(v), b, c][0] == I32Bits(v);
    I32RoundTrip(v);
  }

  /** An ACK that is not exactly 12 bytes reads as 0. */
  lemma AckOtherSize(frames: seq<Frame>, p: nat)
    requires p < |frames| && frames[p].body.Bytes? && |frames[p].body.bytes| != 3 * SLOT_SIZE
    ensures AckValue(frames, p) == 0
  {
  }

  /** sendTensors(socket, chunk, matrices, ack = false) */
  method SendTensors(sock: Socket, chunkBytes: seq<byte>, chunk: Chunk, matrices: seq<Tensor>,
                     ack: bool := ACK_DEFAULT)
    returns (ret: int)
    requires sock.Valid()
    requires SLOT_SIZE + |chunkBytes| <= HEADER_SIZE
    requires forall u | 0 <= u < |matrices| :: WellFormed(matrices[u])
    modifies sock
    ensures sock.Valid()
    ensures sock.outbox == old(sock.outbox) + PushFrames(chunkBytes, chunk.layer, matrices)
    ensures ret == (if ack then AckValue(sock.incoming, old(sock.pos)) else 0)
    ensures sock.pos == (if ack && old(sock.pos) < |sock.incoming| then old(sock.pos) + 1 else old(sock.pos))
  {
    var header := NewBuffer(HEADER_SIZE);
    PopulateChunkHeader(header, Code(PUSH), chunkBytes);
    sock.Send(Bytes(header[..]), true);
    SendMatrices(sock, chunk.layer, matrices);
    AppendAssoc(old(sock.outbox), [Frame(Bytes(header[..]), true)], PushTensorFrames(chunk.layer, matrices));
    ret := 0;
    if ack {
      ret := RecvAck(sock);
    }
  }

  /** sendTensors' loop: a header and a payload frame per matrix. */
  method SendMatrices(sock: Socket, layer: u32, matrices: seq<Tensor>)
    modifies sock
    ensures sock.outbox == old(sock.outbox) + PushTensorFrames(layer, matrices)
    ensures sock.pos == old(sock.pos) && sock.rcvMore == old(sock.rcvMore)
  {
    ghost var out0 := sock.outbox;
    ghost var ts := PushTensorFrames(layer, matrices);
    var u := 0;
    while u < |matrices|
      invariant 0 <= u <= |matrices|
      invariant sock.outbox == out0 + ts[..2 * u]
      invariant sock.pos == old(sock.pos) && sock.rcvMore == old(sock.rcvMore)
    {
      PushTensorFramesAt(layer, matrices, u);
      var m := matrices[u];
      var tensorHeader := NewBuffer(TENSOR_HDR_SIZE);
      PopulateNamedHeader(tensorHeader, Code(PUSH), m.name, layer, m.rows, m.cols);
      var tensorData := m.data;
      sock.Send(Bytes(tensorHeader[..]), true);
      if u < |matrices| - 1 {
        sock.Send(Values(tensorData), true);
      } else {
        sock.Send(Values(tensorData));
      }
      PrefixStep2(ts, 2 * u);
      AppendTwo(out0, ts[..2 * u], ts[2 * u], ts[2 * u + 1]);
      u := u + 1;
    }
    assert ts[..2 * |matrices|] == ts;
  }

  /** Waits for the ACK and reads its value: the first int of a 12-byte ACK, else 0. */
  method RecvAck(sock: Socket) returns (ret: int)
    requires sock.Valid()
    modifies sock
    ensures sock.Valid()
    ensures ret == AckValue(sock.incoming, old(sock.pos))
    ensures sock.pos == if old(sock.pos) < |sock.incoming| then old(sock.pos) + 1 else old(sock.pos)
    ensures sock.outbox == old(sock.outbox)
  {
    ret := 0;
    var ok, ackMsg := sock.Recv();
    if ok && ackMsg.body.Bytes? && |ackMsg.body.bytes| == 3 * SLOT_SIZE {
      ret := I32OfBits(ParseSlot(ackMsg.body.bytes, 0)) as int;
    }
  }

  /** sendFinMsg(socket, chunk): a FIN chunk header alone, then the ACK. */
  method SendFinMsg(sock: Socket, finOp: u32, chunkBytes: seq<byte>) returns (ret: int)
    requires sock.Valid()
    requires SLOT_SIZE + |chunkBytes| <= HEADER_SIZE
    modifies sock
    ensures sock.Valid()
    ensures sock.outbox == old(sock.outbox) + [Frame(Bytes(ChunkHeaderMsg(finOp, chunkBytes)), false)]
    ensures ret == AckValue(sock.incoming, old(sock.pos))
    ensures sock.pos == if old(sock.pos) < |sock.incoming| then old(sock.pos) + 1 else old(sock.pos)
  {
    var header := NewBuffer(HEADER_SIZE);
    PopulateChunkHeader(header, finOp, chunkBytes);
    sock.Send(Bytes(header[..]));
    ret := RecvAck(sock);
  }
}
