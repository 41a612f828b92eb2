/**
 * The weight server's worker (src/weight-server/serverworker.cpp): the
 * `work` loop reads an identity frame and a control header, dispatches on
 * the opcode, and each handler answers on the same socket and updates the
 * state it shares with the weight server.
 *
 * The handlers are specified by functions on a `WorkerState` value; the
 * `ServerWorker` class holds the same state in fields and its methods are
 * proved to produce exactly the state those functions describe.
 *
 * A receive past the end of the socket's stream ends the loop: that is the
 * context termination the source catches around `work`, so a handler whose
 * receive fails does nothing more.
 */
module WeightWorker {
  import opened Wire
  import opened Headers
  import opened Transport
  import opened Protocol
  import opened Seqs
  import opened Wrappers

  /** `(unsigned) -1`: slot 1 of the reply to a forward pull while an update is pending. */
  const UNAVAILABLE: u32 := 0xFFFF_FFFF

  /** `x++` on an unsigned counter. */
  function Inc(x: u32): (y: u32)
    ensures x < 0xFFFF_FFFF ==> y == x + 1
    ensures x == 0xFFFF_FFFF ==> y == 0
  {
    (x + 1) % 0x1_0000_0000
  }

  /**
   * What a worker can change or observe: the weight and update matrices, the
   * named store, the lambda counters, the weight server's
   * `servers_updates_done` flag, the layers passed to `applyUpdate` (whose
   * body is not part of this model) in call order, the `finished` flag, and
   * the socket's read position and sent frames.
   */
  datatype WorkerState = WorkerState(
    weightMats: seq<Tensor>, updateMats: seq<Tensor>, store: map<Name, Tensor>,
    numLambdas: u32, lambdaRecved: u32, updatesDone: bool,
    applied: seq<u32>, finished: bool, pos: nat, out: seq<Frame>)

  /** The identity frame a reply starts with, which routes it back to the client. */
  function Route(id: Frame): Frame {
    Frame(id.body, true)
  }

  /** The empty confirm message that ACKs a request. */
  const CONFIRM: Frame := Frame(EMPTY, false)

  // ---------------------------------------------------------------------------
  // sendWeights
  // ---------------------------------------------------------------------------

  /** A forward pull of layer 0 while `servers_updates_done` is false is answered "unavailable". */
  predicate Pending(layer: u32, forward: bool, updatesDone: bool) {
    forward && layer == 0 && !updatesDone
  }

  /** The RESP header of an "unavailable" reply. */
  function UnavailableHeader(): seq<byte> {
    ControlHeader(Zeros(HEADER_SIZE), Code(RESP), UNAVAILABLE, 0, 0, 0)
  }

  /** The RESP header announcing a weight matrix: 0, rows, cols. */
  function WeightsHeader(w: Tensor): seq<byte> {
    ControlHeader(Zeros(HEADER_SIZE), Code(RESP), 0, w.rows, w.cols, 0)
  }

  /** The frames after the identity in the reply to a weight pull. */
  function WeightsFrames(weightMats: seq<Tensor>, layer: u32, forward: bool, updatesDone: bool): seq<Frame>
    requires layer < |weightMats| || Pending(layer, forward, updatesDone)
  {
    if Pending(layer, forward, updatesDone) then [Frame(Bytes(UnavailableHeader()), false)]
    else [Frame(Bytes(WeightsHeader(weightMats[layer])), true), Frame(Values(weightMats[layer].data), false)]
  }

  /**
   * The reply to a weight pull: a single RESP header with slot 1 =
   * (unsigned) -1 while pending, otherwise RESP (0, rows, cols) followed by
   * the layer's values.
   */
  lemma WeightsFramesLayout(weightMats: seq<Tensor>, layer: u32, forward: bool, updatesDone: bool)
    requires layer < |weightMats| || Pending(layer, forward, updatesDone)
    ensures var fs := WeightsFrames(weightMats, layer, forward, updatesDone);
      fs[0].body.Bytes? && |fs[0].body.bytes| == HEADER_SIZE && ParseSlot(fs[0].body.bytes, 0) == Code(RESP) &&
      (Pending(layer, forward, updatesDone) ==>
        |fs| == 1 && !fs[0].more && ParseSlot(fs[0].body.bytes, 1) == UNAVAILABLE) &&
      (!Pending(layer, forward, updatesDone) ==>
        |fs| == 2 && fs[0].more && ParseSlot(fs[0].body.bytes, 1) == 0 &&
        ParseSlot(fs[0].body.bytes, 2) == weightMats[layer].rows &&
        ParseSlot(fs[0].body.bytes, 3) == weightMats[layer].cols &&
        fs[1] == Frame(Values(weightMats[layer].data), false))
  {
    if Pending(layer, forward, updatesDone) {
      ControlHeaderLayout(Zeros(HEADER_SIZE), Code(RESP), UNAVAILABLE, 0, 0, 0);
    } else {
      var w := weightMats[layer];
      ControlHeaderLayout(Zeros(HEADER_SIZE), Code(RESP), 0, w.rows, w.cols, 0);
    }
  }

  /** sendWeights(client_id, layer, forward) */
  function SendWeightsSpec(s: WorkerState, id: Frame, layer: u32, forward: bool): WorkerState
    requires layer < |s.weightMats| || Pending(layer, forward, s.updatesDone)
  {
    s.(out := s.out + [Route(id)] + WeightsFrames(s.weightMats, layer, forward, s.updatesDone))
  }

  // ---------------------------------------------------------------------------
  // recvUpdate / recvUpdateTensor: the accumulators
  // ---------------------------------------------------------------------------

  /** `updateSum[u] += updateNew[u]` for every element of the accumulator; the update reads as zero past its end. */
  function AddUpdate(sum: seq<int>, upd: seq<int>): (r: seq<int>)
    ensures |r| == |sum|
  {
    seq(|sum|, i requires 0 <= i < |sum| => sum[i] + ValueAt(upd, i))
  }

  /** Each element of the accumulator grows by the matching element of the update. */
  lemma AddUpdateAt(sum: seq<int>, upd: seq<int>, i: nat)
    requires i < |sum|
    ensures AddUpdate(sum, upd)[i] == sum[i] + ValueAt(upd, i)
  {
  }

  /** Two updates give the same sum whichever arrives first. */
  lemma AddUpdateCommutes(sum: seq<int>, a: seq<int>, b: seq<int>)
    ensures AddUpdate(AddUpdate(sum, a), b) == AddUpdate(AddUpdate(sum, b), a)
  {
    var x := AddUpdate(AddUpdate(sum, a), b);
    var y := AddUpdate(AddUpdate(sum, b), a);
    forall i | 0 <= i < |sum| ensures x[i] == y[i] {
      AddUpdateAt(AddUpdate(sum, a), b, i);
      AddUpdateAt(sum, a, i);
      AddUpdateAt(AddUpdate(sum, b), a, i);
      AddUpdateAt(sum, b, i);
    }
  }

  /** An update of zeros (or no values at all) leaves the accumulator as it is. */
  lemma AddNothing(sum: seq<int>)
    ensures AddUpdate(sum, []) == sum
  {
    forall i | 0 <= i < |sum| ensures AddUpdate(sum, [])[i] == sum[i] {
      AddUpdateAt(sum, [], i);
    }
  }

  /** The accumulator of `layer` after adding one update. */
  function Accumulate(s: WorkerState, layer: u32, upd: seq<int>): seq<Tensor>
    requires layer < |s.updateMats|
  {
    s.updateMats[layer := s.updateMats[layer].(data := AddUpdate(s.updateMats[layer].data, upd))]
  }

  /** Counts one more contribution and calls applyUpdate when it is the last one expected. */
  function Count(s: WorkerState, layer: u32): WorkerState {
    var n := Inc(s.lambdaRecved);
    s.(lambdaRecved := n, applied := s.applied + (if s.numLambdas == n then [layer] else []))
  }

  /**
   * recvUpdate(client_id, layer): receive the update, ACK it, count it, clear
   * `servers_updates_done` and add the update into the layer's accumulator.
   */
  function RecvUpdateSpec(s: WorkerState, frames: seq<Frame>, id: Frame, layer: u32): (r: WorkerState)
    requires s.pos <= |frames| && layer < |s.updateMats|
    ensures s.pos <= r.pos <= |frames|
  {
    if s.pos == |frames| then s
    else
      Count(s, layer).(pos := s.pos + 1, out := s.out + [Route(id), CONFIRM], updatesDone := false,
                       updateMats := Accumulate(s, layer, ValuesOf(frames[s.pos])))
  }

  /**
   * An update counts exactly one contribution, clears the flag, adds into
   * exactly one accumulator, and calls applyUpdate exactly when the count
   * reaches `numLambdas`; the weights and the store do not change.
   */
  lemma RecvUpdateEffect(s: WorkerState, frames: seq<Frame>, id: Frame, layer: u32)
    requires s.pos < |frames| && layer < |s.updateMats|
    ensures var r := RecvUpdateSpec(s, frames, id, layer);
      r.lambdaRecved == Inc(s.lambdaRecved) && !r.updatesDone &&
      r.out == s.out + [Route(id), CONFIRM] && r.pos == s.pos + 1 &&
      |r.updateMats| == |s.updateMats| &&
      (forall l | 0 <= l < |s.updateMats| && l != layer as int :: r.updateMats[l] == s.updateMats[l]) &&
      r.updateMats[layer].rows == s.updateMats[layer].rows &&
      r.updateMats[layer].cols == s.updateMats[layer].cols &&
      (forall i | 0 <= i < |s.updateMats[layer].data| ::
        r.updateMats[layer].data[i] == s.updateMats[layer].data[i] + ValueAt(ValuesOf(frames[s.pos]), i)) &&
      (r.applied == s.applied + [layer] <==> s.numLambdas == Inc(s.lambdaRecved)) &&
      (r.applied == s.applied <==> s.numLambdas != Inc(s.lambdaRecved)) &&
      r.weightMats == s.weightMats && r.store == s.store && r.numLambdas == s.numLambdas
  {
    var r := RecvUpdateSpec(s, frames, id, layer);
    forall i | 0 <= i < |s.updateMats[layer].data|
      ensures r.updateMats[layer].data[i] == s.updateMats[layer].data[i] + ValueAt(ValuesOf(frames[s.pos]), i)
    {
      AddUpdateAt(s.updateMats[layer].data, ValuesOf(frames[s.pos]), i);
    }
    assert s.applied + [layer] != s.applied by {
      assert |s.applied + [layer]| == |s.applied| + 1;
    }
  }

  // ---------------------------------------------------------------------------
  // setBackpropNumLambdas and terminateServer
  // ---------------------------------------------------------------------------

  /** setBackpropNumLambdas(client_id, numLambdas_): record the count, then ACK. */
  function SetNumLambdasSpec(s: WorkerState, id: Frame, n: u32): WorkerState {
    s.(numLambdas := n, out := s.out + [Route(id), CONFIRM])
  }

  /** A repeated identical INFO leaves the state as one did; only a second ACK is sent. */
  lemma SetNumLambdasIdempotent(s: WorkerState, id: Frame, n: u32)
    ensures var once := SetNumLambdasSpec(s, id, n);
      var twice := SetNumLambdasSpec(once, id, n);
      twice.numLambdas == n && twice == once.(out := once.out + [Route(id), CONFIRM])
  {
  }

  /** terminateServer(client_id): ACK, then tell the main thread to shut down. */
  function TerminateSpec(s: WorkerState, id: Frame): WorkerState {
    s.(finished := true, out := s.out + [Route(id), CONFIRM])
  }

  // ---------------------------------------------------------------------------
  // sendTensors: named tensors on request
  // ---------------------------------------------------------------------------

  /** The header sendTensor sends for a stored matrix: (PULL, its name, rows, cols). */
  function TensorHeader(m: Tensor): seq<byte> {
    NamedHeader(Zeros(TENSOR_HDR_SIZE), Code(PULL), m.name, m.rows, m.cols, 0, 0)
  }

  /** sendTensor(tensor, more): the header, then the values, with "more" when the request had more. */
  function TensorFrames(m: Tensor, more: bool): seq<Frame> {
    [Frame(Bytes(TensorHeader(m)), true), Frame(Values(m.data), more)]
  }

  /** The error header for a name that is not in the store: op ERR_HEADER_FIELD, the name, no payload. */
  function ErrorFrame(name: Name): Frame {
    Frame(Bytes(NamedHeader(Zeros(TENSOR_HDR_SIZE), ERR_HEADER_FIELD, name, 0, 0, 0, 0)), false)
  }

  /** The frames sendTensors sends after the identity, and where reading stops. */
  datatype Served = Served(out: seq<Frame>, next: nat)

  /**
   * sendTensors' loop with request headers frames[p..]: each found name is
   * answered by its matrix; the first missing one by an error header, which
   * ends the reply.
   */
  function ServeTensors(frames: seq<Frame>, p: nat, store: map<Name, Tensor>): (r: Served)
    requires p <= |frames|
    ensures p <= r.next <= |frames|
    decreases |frames| - p
  {
    if p == |frames| then Served([], p)
    else
      var name := HeaderName(frames[p], SLOT_SIZE);
      if name !in store then Served([ErrorFrame(name)], p + 1)
      else if !frames[p].more then Served(TensorFrames(store[name], false), p + 1)
      else
        var rest := ServeTensors(frames, p + 1, store);
        Served(TensorFrames(store[name], true) + rest.out, rest.next)
  }

  /** sendTensors' loop after one more header: what was sent so far grows by what that header was answered with. */
  lemma ServedStep(frames: seq<Frame>, p: nat, q: nat, store: map<Name, Tensor>, goal: Served,
                   sent: seq<Frame>, step: seq<Frame>, more: bool)
    requires p <= |frames| && q <= |frames|
    requires goal == Served(sent + ServeTensors(frames, p, store).out, ServeTensors(frames, p, store).next)
    requires var r := ServeTensors(frames, p, store);
      if more then r == Served(step + ServeTensors(frames, q, store).out, ServeTensors(frames, q, store).next)
      else r == Served(step, q)
    ensures more ==> goal == Served((sent + step) + ServeTensors(frames, q, store).out, ServeTensors(frames, q, store).next)
    ensures !more ==> goal == Served(sent + step, q)
  {
    if more {
      AppendAssoc(sent, step, ServeTensors(frames, q, store).out);
    }
  }

  /** sendTensors(client_id) */
  function SendTensorsSpec(s: WorkerState, frames: seq<Frame>, id: Frame): (r: WorkerState)
    requires s.pos <= |frames|
    ensures s.pos <= r.pos <= |frames|
  {
    var r := ServeTensors(frames, s.pos, s.store);
    s.(out := s.out + [Route(id)] + r.out, pos := r.next)
  }

  /** The reply to one request header: the matrix when its name is stored, else the error header. */
  function ReplyTo(f: Frame, store: map<Name, Tensor>): seq<Frame> {
    var name := HeaderName(f, SLOT_SIZE);
    if name in store then TensorFrames(store[name], f.more) else [ErrorFrame(name)]
  }

  /** The replies to request headers frames[p..q], in order. */
  function RepliesTo(frames: seq<Frame>, p: nat, q: nat, store: map<Name, Tensor>): seq<Frame>
    requires p <= q <= |frames|
    decreases q - p
  {
    if p == q then [] else ReplyTo(frames[p], store) + RepliesTo(frames, p + 1, q, store)
  }

  /** sendTensors answers the request headers it reads in order, one reply per header. */
  lemma {:induction false} ServeTensorsInOrder(frames: seq<Frame>, p: nat, store: map<Name, Tensor>)
    requires p <= |frames|
    ensures ServeTensors(frames, p, store).out == RepliesTo(frames, p, ServeTensors(frames, p, store).next, store)
    decreases |frames| - p
  {
    if p < |frames| {
      var name := HeaderName(frames[p], SLOT_SIZE);
      if name in store && frames[p].more {
        ServeTensorsInOrder(frames, p + 1, store);
        var rest := ServeTensors(frames, p + 1, store);
        assert RepliesTo(frames, p, rest.next, store) == ReplyTo(frames[p], store) + RepliesTo(frames, p + 1, rest.next, store);
      } else {
        assert RepliesTo(frames, p + 1, p + 1, store) == [];
      }
    }
  }

  /**
   * Where sendTensors stops reading: every header read but the last asked
   * for a stored name and had "more", and reading stops at the first missing
   * name or the first header without "more".
   */
  lemma {:induction false} ServeTensorsStops(frames: seq<Frame>, p: nat, store: map<Name, Tensor>)
    requires p <= |frames|
    ensures var r := ServeTensors(frames, p, store);
      (forall k | p <= k < r.next - 1 :: HeaderName(frames[k], SLOT_SIZE) in store && frames[k].more) &&
      (p < |frames| ==> p < r.next) &&
      (r.next < |frames| && p < r.next ==>
        HeaderName(frames[r.next - 1], SLOT_SIZE) !in store || !frames[r.next - 1].more)
    decreases |frames| - p
  {
    if p < |frames| {
      var name := HeaderName(frames[p], SLOT_SIZE);
      var r := ServeTensors(frames, p, store);
      if name in store && frames[p].more {
        var rest := ServeTensors(frames, p + 1, store);
        assert r.next == rest.next;
        ServeTensorsStops(frames, p + 1, store);
      } else {
        assert r.next == p + 1;
      }
    }
  }

  /** What a lambda decodes from a tensor reply is the stored matrix, when its name fits the header. */
  lemma TensorFramesDecode(m: Tensor, more: bool)
    requires |m.name| < TENSOR_NAME_SIZE && ByteString(m.name) && NoNul(m.name)
    ensures var fs := TensorFrames(m, more);
      HeaderSlot(fs[0], 0) == Code(PULL) && TensorOf(fs[0], fs[1]) == m
  {
    var z := Zeros(TENSOR_HDR_SIZE);
    var f := TensorFrames(m, more)[0];
    NamedHeaderLayout(z, Code(PULL), m.name, m.rows, m.cols, 0, 0);
    ParseNamedHeaderName(z, Code(PULL), m.name, m.rows, m.cols, 0, 0);
    HeaderNameIs(f);
    HeaderSlotIs(f, TENSOR_HDR_SIZE, 0);
    HeaderSlotIs(f, TENSOR_HDR_SIZE, 3);
    HeaderSlotIs(f, TENSOR_HDR_SIZE, 4);
  }

  /** A lambda reads the error header as ERR_HEADER_FIELD in slot 0. */
  lemma ErrorFrameDecodes(name: Name)
    ensures HeaderSlot(ErrorFrame(name), 0) == ERR_HEADER_FIELD && !ErrorFrame(name).more
  {
    var f := ErrorFrame(name);
    NamedHeaderLayout(Zeros(TENSOR_HDR_SIZE), ERR_HEADER_FIELD, name, 0, 0, 0, 0);
    HeaderSlotIs(f, TENSOR_HDR_SIZE, 0);
  }

  // ---------------------------------------------------------------------------
  // recvTensors: named pushes
  // ---------------------------------------------------------------------------

  /**
   * recvUpdateTensor(layer): receive a header and a payload, count one
   * contribution and add the payload into the layer's accumulator (the name
   * is only looked up for a log line). False when the stream ended first.
   */
  function RecvUpdateTensorSpec(s: WorkerState, frames: seq<Frame>, layer: u32): (r: (WorkerState, bool))
    requires s.pos <= |frames| && layer < |s.updateMats|
    ensures s.pos <= r.0.pos <= |frames| && |r.0.updateMats| == |s.updateMats|
    ensures r.1 ==> r.0.pos == s.pos + 2
  {
    if s.pos + 1 >= |frames| then (s.(pos := |frames|), false)
    else (Count(s, layer).(pos := s.pos + 2, updateMats := Accumulate(s, layer, ValuesOf(frames[s.pos + 1]))), true)
  }

  /** recvTensors(client_id, layer): one recvUpdateTensor per pushed pair, until a payload without "more". */
  function RecvTensorsSpec(s: WorkerState, frames: seq<Frame>, layer: u32): (r: WorkerState)
    requires s.pos <= |frames| && layer < |s.updateMats|
    ensures s.pos <= r.pos <= |frames| && |r.updateMats| == |s.updateMats|
    decreases |frames| - s.pos
  {
    var (t, ok) := RecvUpdateTensorSpec(s, frames, layer);
    if !ok || !frames[t.pos - 1].more then t else RecvTensorsSpec(t, frames, layer)
  }

  /** The number of (header, payload) pairs recvTensors receives in full from frames[p..]. */
  function PairsPushed(frames: seq<Frame>, p: nat): nat
    requires p <= |frames|
    decreases |frames| - p
  {
    if p + 1 >= |frames| then 0
    else if !frames[p + 1].more then 1
    else 1 + PairsPushed(frames, p + 2)
  }

  /**
   * recvTensors counts exactly one contribution per pair received, and
   * changes neither the weights, the store, the flag nor the reply stream.
   */
  lemma {:induction false} RecvTensorsCounts(s: WorkerState, frames: seq<Frame>, layer: u32)
    requires s.pos <= |frames| && layer < |s.updateMats|
    ensures var r := RecvTensorsSpec(s, frames, layer);
      r.lambdaRecved == (s.lambdaRecved + PairsPushed(frames, s.pos)) % 0x1_0000_0000 &&
      r.weightMats == s.weightMats && r.store == s.store && r.updatesDone == s.updatesDone &&
      r.out == s.out && r.numLambdas == s.numLambdas
    decreases |frames| - s.pos
  {
    var (t, ok) := RecvUpdateTensorSpec(s, frames, layer);
    if ok {
      if frames[t.pos - 1].more {
        RecvTensorsCounts(t, frames, layer);
        IncThenAdd(s.lambdaRecved, PairsPushed(frames, t.pos));
      }
    }
  }

  /** k more increments after one are k + 1 increments, modulo 2^32. */
  lemma IncThenAdd(x: u32, k: nat)
    ensures (Inc(x) + k) % 0x1_0000_0000 == (x + 1 + k) % 0x1_0000_0000
  {
    if x == 0xFFFF_FFFF {
      assert x + 1 + k == 0x1_0000_0000 + k;
    }
  }

  // ---------------------------------------------------------------------------
  // work: the dispatch loop
  // ---------------------------------------------------------------------------

  /**
   * One request, with `id` and `header` already received: the handler its
   * opcode selects (any other opcode is ignored), and whether serving goes
   * on. A layer past the matrices is undefined behaviour in the source; the
   * model stops serving there.
   */
  function Handle(s: WorkerState, frames: seq<Frame>, id: Frame, header: Frame): (r: (WorkerState, bool))
    requires s.pos <= |frames|
    ensures s.pos <= r.0.pos <= |frames|
  {
    var arg := HeaderSlot(header, 1);
    match OpOfCode(HeaderSlot(header, 0))
    case Some(PULL_FORWARD) =>
      if arg < |s.weightMats| || Pending(arg, true, s.updatesDone) then (SendWeightsSpec(s, id, arg, true), true)
      else (s, false)
    case Some(PULL_BACKWARD) =>
      if arg < |s.weightMats| then (SendWeightsSpec(s, id, arg, false), true) else (s, false)
    case Some(PUSH_BACKWARD) =>
      if arg < |s.updateMats| then (RecvUpdateSpec(s, frames, id, arg), true) else (s, false)
    case Some(PUSH) =>
      if arg < |s.updateMats| then (RecvTensorsSpec(s, frames, arg), true) else (s, false)
    case Some(PULL) => (SendTensorsSpec(s, frames, id), true)
    case Some(INFO) => (SetNumLambdasSpec(s, id, arg), true)
    case Some(TERM) => (TerminateSpec(s, id), true)
    case _ => (s, true)
  }

  /** work(): serve requests until the stream ends. */
  function Serve(s: WorkerState, frames: seq<Frame>): (r: WorkerState)
    requires s.pos <= |frames|
    ensures s.pos <= r.pos <= |frames|
    decreases |frames| - s.pos
  {
    if s.pos + 1 >= |frames| then s.(pos := |frames|)
    else
      var h := Next(s, frames);
      if h.1 then Serve(h.0, frames) else h.0
  }

  /** The request in frames[s.pos], frames[s.pos + 1], received and handled. */
  function Next(s: WorkerState, frames: seq<Frame>): (r: (WorkerState, bool))
    requires s.pos + 1 < |frames|
    ensures s.pos + 2 <= r.0.pos <= |frames|
  {
    Handle(s.(pos := s.pos + 2), frames, frames[s.pos], frames[s.pos + 1])
  }

  /**
   * One turn of work(): the request in frames[p], frames[p + 1] is handled,
   * leaving state t; serving goes on from t unless it stopped.
   */
  lemma ServeStep(s: WorkerState, frames: seq<Frame>, t: WorkerState, go: bool)
    requires s.pos + 1 < |frames|
    requires (t, go) == Next(s, frames)
    ensures go ==> Serve(s, frames) == Serve(t, frames)
    ensures !go ==> Serve(s, frames) == t
  {
  }

  /** An opcode outside the dispatch table changes nothing and serving goes on. */
  lemma UnknownOpIgnored(s: WorkerState, frames: seq<Frame>, id: Frame, header: Frame)
    requires s.pos <= |frames|
    requires HeaderSlot(header, 0) !in {Code(PULL_FORWARD), Code(PULL_BACKWARD), Code(PUSH_BACKWARD),
                                       Code(PUSH), Code(PULL), Code(INFO), Code(TERM)}
    ensures Handle(s, frames, id, header) == (s, true)
  {
    var op := OpOfCode(HeaderSlot(header, 0));
    if op.Some? {
      CodeRoundTrip(op.value);
    }
  }

  /** Everything a request can do to the state it does not own: the weights and the store stay, the logs only grow. */
  predicate Extends(s: WorkerState, r: WorkerState) {
    r.weightMats == s.weightMats && r.store == s.store &&
    |r.updateMats| == |s.updateMats| &&
    s.out <= r.out && s.applied <= r.applied && (s.finished ==> r.finished)
  }

  lemma HandleExtends(s: WorkerState, frames: seq<Frame>, id: Frame, header: Frame)
    requires s.pos <= |frames|
    ensures Extends(s, Handle(s, frames, id, header).0)
  {
    var arg := HeaderSlot(header, 1);
    match OpOfCode(HeaderSlot(header, 0))
    case Some(PULL_FORWARD) =>
    case Some(PULL_BACKWARD) =>
    case Some(PUSH_BACKWARD) =>
      if arg < |s.updateMats| {
        RecvUpdateExtends(s, frames, id, arg);
      }
    case Some(PUSH) =>
      if arg < |s.updateMats| {
        RecvTensorsExtends(s, frames, arg);
      }
    case Some(PULL) =>
    case Some(INFO) =>
    case Some(TERM) =>
    case _ =>
  }

  lemma RecvUpdateExtends(s: WorkerState, frames: seq<Frame>, id: Frame, layer: u32)
    requires s.pos <= |frames| && layer < |s.updateMats|
    ensures Extends(s, RecvUpdateSpec(s, frames, id, layer))
  {
  }

  lemma {:induction false} RecvTensorsExtends(s: WorkerState, frames: seq<Frame>, layer: u32)
    requires s.pos <= |frames| && layer < |s.updateMats|
    ensures Extends(s, RecvTensorsSpec(s, frames, layer))
    decreases |frames| - s.pos
  {
    var (t, ok) := RecvUpdateTensorSpec(s, frames, layer);
    if ok && frames[t.pos - 1].more {
      RecvTensorsExtends(t, frames, layer);
    }
  }

  /**
   * However the requests go, the worker never writes the weights or the
   * store, only appends to what it sent and to the applyUpdate log, and once
   * finished stays finished.
   */
  lemma {:induction false} ServeExtends(s: WorkerState, frames: seq<Frame>)
    requires s.pos <= |frames|
    ensures Extends(s, Serve(s, frames))
    decreases |frames| - s.pos
  {
    if s.pos + 1 < |frames| {
      var h := Next(s, frames);
      ServeStep(s, frames, h.0, h.1);
      NextExtends(s, frames);
      if h.1 {
        ServeExtends(h.0, frames);
        ExtendsTrans(s, h.0, Serve(h.0, frames));
      }
    }
  }

  /** One request received and handled: the state only grows. */
  lemma NextExtends(s: WorkerState, frames: seq<Frame>)
    requires s.pos + 1 < |frames|
    ensures Extends(s, Next(s, frames).0)
  {
    var m := s.(pos := s.pos + 2);
    HandleExtends(m, frames, frames[s.pos], frames[s.pos + 1]);
    ExtendsTrans(s, m, Next(s, frames).0);
  }

  lemma ExtendsTrans(a: WorkerState, b: WorkerState, c: WorkerState)
    requires Extends(a, b) && Extends(b, c)
    ensures Extends(a, c)
  {
  }

  // ---------------------------------------------------------------------------
  // The worker object
  // ---------------------------------------------------------------------------

  /**
   * A ServerWorker: its DEALER socket and the weight server's state it holds
   * references to (the matrices, the store, the lambda counters, the
   * `servers_updates_done` flag) together with the shutdown flag and the
   * applyUpdate log.
   */
  class ServerWorker {
    const sock: Socket
    var weightMats: seq<Tensor>
    var updateMats: seq<Tensor>
    var store: map<Name, Tensor>
    var numLambdas: u32
    var lambdaRecved: u32
    var updatesDone: bool
    var applied: seq<u32>
    var finished: bool

    /** The accumulators hold rows * cols values each, so the sum loop covers them exactly. */
    predicate Valid()
      reads this, sock
    {
      sock.Valid() && forall l | 0 <= l < |updateMats| :: WellFormed(updateMats[l])
    }

    /** The worker's state as a value, to compare with the handler functions. */
    function State(): WorkerState
      reads this, sock
    {
      WorkerState(weightMats, updateMats, store, numLambdas, lambdaRecved, updatesDone,
                  applied, finished, sock.pos, sock.outbox)
    }

    constructor (sock: Socket, weightMats: seq<Tensor>, updateMats: seq<Tensor>,
                 store: map<Name, Tensor>, numLambdas: u32, lambdaRecved: u32, updatesDone: bool)
      requires sock.Valid() && forall l | 0 <= l < |updateMats| :: WellFormed(updateMats[l])
      ensures Valid() && this.sock == sock
      ensures State() == WorkerState(weightMats, updateMats, store, numLambdas, lambdaRecved,
                                     updatesDone, [], false, sock.pos, sock.outbox)
    {
      this.sock := sock;
      this.weightMats := weightMats;
      this.updateMats := updateMats;
      this.store := store;
      this.numLambdas := numLambdas;
      this.lambdaRecved := lambdaRecved;
      this.updatesDone := updatesDone;
      this.applied := [];
      this.finished := false;
    }

    /** sendWeights(client_id, layer, forward) */
    method SendWeights(id: Frame, layer: u32, forward: bool)
      requires Valid() && (layer < |weightMats| || Pending(layer, forward, updatesDone))
      modifies sock
      ensures Valid()
      ensures State() == SendWeightsSpec(old(State()), id, layer, forward)
    {
      sock.Send(id.body, true);
      var header := NewBuffer(HEADER_SIZE);
      if forward && layer == 0 && !updatesDone {
        PopulateHeader(header, Code(RESP), UNAVAILABLE);
        sock.Send(Bytes(header[..]));
      } else {
        var w := weightMats[layer];
        PopulateHeader(header, Code(RESP), 0, w.rows, w.cols);
        sock.Send(Bytes(header[..]), true);
        sock.Send(Values(w.data));
      }
    }

    /** updateSum[u] += updateNew[u] over the layer's accumulator. */
    method AddInto(layer: u32, upd: seq<int>)
      requires Valid() && layer < |updateMats|
      modifies this
      ensures Valid()
      ensures updateMats == old(State()).(updateMats := Accumulate(old(State()), layer, upd)).updateMats
      ensures weightMats == old(weightMats) && store == old(store) && numLambdas == old(numLambdas)
      ensures lambdaRecved == old(lambdaRecved) && updatesDone == old(updatesDone)
      ensures applied == old(applied) && finished == old(finished)
    {
      var sum := updateMats[layer].data;
      var n := updateMats[layer].rows as int * updateMats[layer].cols as int;
      var u := 0;
      while u < n
        invariant 0 <= u <= n == |sum| == |updateMats[layer].data|
        invariant forall i | 0 <= i < u :: sum[i] == updateMats[layer].data[i] + ValueAt(upd, i)
        invariant forall i | u <= i < n :: sum[i] == updateMats[layer].data[i]
      {
        sum := sum[u := sum[u] + ValueAt(upd, u)];
        u := u + 1;
      }
      assert sum == AddUpdate(updateMats[layer].data, upd);
      updateMats := updateMats[layer := updateMats[layer].(data := sum)];
    }

    /** recvUpdate(client_id, layer) */
    method RecvUpdate(id: Frame, layer: u32)
      requires Valid() && layer < |updateMats|
      modifies this, sock
      ensures Valid()
      ensures State() == RecvUpdateSpec(old(State()), sock.incoming, id, layer)
    {
      var ok, updateMsg := sock.Recv();
      if !ok {
        return;
      }
      sock.Send(id.body, true);
      sock.Send(EMPTY);
      lambdaRecved := Inc(lambdaRecved);
      if updatesDone {
        updatesDone := false;
      }
      AddInto(layer, ValuesOf(updateMsg));
      if numLambdas == lambdaRecved {
        applied := applied + [layer];
      }
    }

    /** setBackpropNumLambdas(client_id, numLambdas_) */
    method SetNumLambdas(id: Frame, n: u32)
      requires Valid()
      modifies this, sock
      ensures Valid()
      ensures State() == SetNumLambdasSpec(old(State()), id, n)
    {
      numLambdas := n;
      sock.Send(id.body, true);
      sock.Send(EMPTY);
    }

    /** terminateServer(client_id) */
    method Terminate(id: Frame)
      requires Valid()
      modifies this, sock
      ensures Valid()
      ensures State() == TerminateSpec(old(State()), id)
    {
      sock.Send(id.body, true);
      sock.Send(EMPTY);
      finished := true;
    }

    /** sendTensor(tensor, more): "more" is ZMQ_RCVMORE of the request header just read. */
    method SendTensor(m: Tensor) returns (more: bool)
      requires sock.Valid()
      modifies sock
      ensures sock.Valid() && more == old(sock.rcvMore)
      ensures sock.outbox == old(sock.outbox) + TensorFrames(m, more)
      ensures sock.pos == old(sock.pos) && sock.rcvMore == old(sock.rcvMore)
    {
      var responseHeader := NewBuffer(TENSOR_HDR_SIZE);
      PopulateNamedHeader(responseHeader, Code(PULL), m.name, m.rows, m.cols);
      sock.Send(Bytes(responseHeader[..]), true);
      more := sock.rcvMore;
      sock.Send(Values(m.data), more);
    }

    /**
     * One pass of sendTensors' loop: read a request header and answer it;
     * false once the reply is complete. `sent` is what it sent.
     */
    method ServeOne(ghost st: map<Name, Tensor>) returns (more: bool, ghost sent: seq<Frame>)
      requires sock.Valid() && st == store
      modifies sock
      ensures sock.Valid() && sock.outbox == old(sock.outbox) + sent
      ensures var r := ServeTensors(sock.incoming, old(sock.pos), st);
        if more then old(sock.pos) < sock.pos &&
          r == Served(sent + ServeTensors(sock.incoming, sock.pos, st).out, ServeTensors(sock.incoming, sock.pos, st).next)
        else r == Served(sent, sock.pos)
    {
      ghost var p := sock.pos;
      var ok, tensorHeader := sock.Recv();
      if !ok {
        return false, [];
      }
      var name := ParseName(HeaderBytes(tensorHeader, TENSOR_HDR_SIZE));
      HeaderNameIs(tensorHeader);
      if name !in store {
        var errorHeader := NewBuffer(TENSOR_HDR_SIZE);
        PopulateNamedHeader(errorHeader, ERR_HEADER_FIELD, name);
        sock.Send(Bytes(errorHeader[..]));
        return false, [ErrorFrame(name)];
      }
      more := SendTensor(store[name]);
      sent := TensorFrames(store[name], more);
    }

    /** sendTensors(client_id) */
    method SendTensors(id: Frame)
      requires Valid()
      modifies sock
      ensures Valid()
      ensures State() == SendTensorsSpec(old(State()), sock.incoming, id)
    {
      ghost var st := store;
      ghost var goal := ServeTensors(sock.incoming, sock.pos, st);
      sock.Send(id.body, true);
      ghost var out0 := sock.outbox;
      ghost var sent: seq<Frame> := [];
      var more := true;
      while more
        invariant sock.Valid() && sock.outbox == out0 + sent
        invariant more ==> goal == Served(sent + ServeTensors(sock.incoming, sock.pos, st).out,
                                          ServeTensors(sock.incoming, sock.pos, st).next)
        invariant !more ==> goal == Served(sent, sock.pos)
        decreases |sock.incoming| - sock.pos + (if more then 1 else 0)
      {
        ghost var p, step := sock.pos, [];
        more, step := ServeOne(st);
        ServedStep(sock.incoming, p, sock.pos, st, goal, sent, step, more);
        AppendAssoc(out0, sent, step);
        sent := sent + step;
      }
    }

    /** recvUpdateTensor(layer): false when the stream ended before the pair was in. */
    method RecvUpdateTensor(layer: u32) returns (ok: bool)
      requires Valid() && layer < |updateMats|
      modifies this, sock
      ensures Valid()
      ensures (State(), ok) == RecvUpdateTensorSpec(old(State()), sock.incoming, layer)
      ensures ok ==> sock.rcvMore == sock.incoming[sock.pos - 1].more
    {
      var ok1, tensorHeader := sock.Recv();
      var ok2, tensorData := sock.Recv();
      if !ok1 || !ok2 {
        return false;
      }
      ghost var s := old(State());
      lambdaRecved := Inc(lambdaRecved);
      AddInto(layer, ValuesOf(tensorData));
      if numLambdas == lambdaRecved {
        applied := applied + [layer];
      }
      ok := true;
      assert applied == Count(s, layer).applied;
    }

    /** recvTensors(client_id, layer) */
    method RecvTensors(id: Frame, layer: u32)
      requires Valid() && layer < |updateMats|
      modifies this, sock
      ensures Valid()
      ensures State() == RecvTensorsSpec(old(State()), sock.incoming, layer)
    {
      ghost var goal := RecvTensorsSpec(State(), sock.incoming, layer);
      var more := true;
      while more
        invariant Valid() && layer < |updateMats|
        invariant more ==> goal == RecvTensorsSpec(State(), sock.incoming, layer)
        invariant !more ==> goal == State()
        decreases |sock.incoming| - sock.pos + (if more then 1 else 0)
      {
        var ok := RecvUpdateTensor(layer);
        if !ok {
          return;
        }
        more := sock.rcvMore;
      }
    }

    /**
     * One pass of work()'s switch with the identity and the header received;
     * false for a layer past the matrices.
     */
    method Dispatch(id: Frame, header: Frame) returns (go: bool)
      requires Valid()
      modifies this, sock
      ensures Valid()
      ensures (State(), go) == Handle(old(State()), sock.incoming, id, header)
    {
      var h := HeaderBytes(header, HEADER_SIZE);
      var op := ParseSlot(h, 0);
      var arg := ParseSlot(h, 1);
      HeaderSlotIs(header, HEADER_SIZE, 0);
      HeaderSlotIs(header, HEADER_SIZE, 1);
      go := true;
      match OpOfCode(op)
      case Some(PULL_FORWARD) =>
        if arg < |weightMats| || Pending(arg, true, updatesDone) {
          SendWeights(id, arg, true);
        } else {
          go := false;
        }
      case Some(PULL_BACKWARD) =>
        if arg < |weightMats| {
          SendWeights(id, arg, false);
        } else {
          go := false;
        }
      case Some(PUSH_BACKWARD) =>
        if arg < |updateMats| {
          RecvUpdate(id, arg);
        } else {
          go := false;
        }
      case Some(PUSH) =>
        if arg < |updateMats| {
          RecvTensors(id, arg);
        } else {
          go := false;
        }
      case Some(PULL) => SendTensors(id);
      case Some(INFO) => SetNumLambdas(id, arg);
      case Some(TERM) => Terminate(id);
      case _ =>
    }

    /**
     * One turn of work()'s loop: receive the identity and the header and
     * dispatch; false when the stream ended or serving stopped.
     */
    method Turn() returns (go: bool)
      requires Valid()
      modifies this, sock
      ensures Valid()
      ensures go ==> old(sock.pos) < sock.pos && Serve(old(State()), sock.incoming) == Serve(State(), sock.incoming)
      ensures !go ==> Serve(old(State()), sock.incoming) == State()
    {
      ghost var s := State();
      var ok1, identity := sock.Recv();
      var ok2, header := sock.Recv();
      if !ok1 || !ok2 {
        return false;
      }
      assert State() == s.(pos := s.pos + 2);
      go := Dispatch(identity, header);
      ServeStep(s, sock.incoming, State(), go);
    }

    /** work(): receive requests and dispatch them until the stream ends. */
    method Work()
      requires Valid()
      modifies this, sock
      ensures Valid()
      ensures State() == Serve(old(State()), sock.incoming)
    {
      ghost var goal := Serve(State(), sock.incoming);
      var go := true;
      while go
        invariant Valid()
        invariant go ==> goal == Serve(State(), sock.incoming)
        invariant !go ==> goal == State()
        decreases |sock.incoming| - sock.pos + (if go then 1 else 0)
      {
        go := Turn();
      }
    }
  }
}
