/**
 * The GPU computing server (funcs/forward-prop-GPU/comp_server/comp_server.hpp):
 * it answers forward requests from a graph server over a REP socket. Each
 * request header names an opcode, a layer and the shape of the aggregated
 * features; the server confirms the header, pulls the layer's weights from a
 * weight server over a DEALER socket, receives the features (adding 1 to
 * every element), multiplies, activates, and sends Z and the activation
 * back. A TERM header ends the loop.
 *
 * The handlers are specified by functions on a `ServerState` value; the
 * `ComputingServer` class holds the same state in its fields and sockets and
 * its methods are proved to produce exactly what those functions describe.
 * A receive past the end of a socket's stream stops the server, as the
 * context termination the source catches would. The matrix product and the
 * activation are the parameters `dot` and `activate`.
 */
module CompServer {
  import opened Wire
  import opened Headers
  import opened Transport
  import opened Wrappers
  import Decimal
  import Protocol
  import WeightWorker
  import Seqs

  type Tensor = Protocol.Tensor

  /** `(int) layerResp == -1`: the weight server has no matrix to give. */
  const NO_MATRIX: u32 := 0xFFFF_FFFF

  /** `rows * cols` in unsigned arithmetic: the element count the buffers are sized by. */
  function ElemCount(rows: u32, cols: u32): (n: nat)
    ensures n < 0x1_0000_0000
    ensures rows * cols < 0x1_0000_0000 ==> n == rows * cols
  {
    (rows * cols) % 0x1_0000_0000
  }

  /** The first n values of a payload, read as zero past its end. */
  function Fill(vs: seq<int>, n: nat): (r: seq<int>)
    ensures |r| == n
    ensures forall i | 0 <= i < n && i < |vs| :: r[i] == vs[i]
    ensures forall i | |vs| <= i < n :: r[i] == 0
  {
    seq(n, i requires 0 <= i < n => ValueAt(vs, i))
  }

  /** A payload of exactly n values is copied whole. */
  lemma FillWhole(vs: seq<int>)
    ensures Fill(vs, |vs|) == vs
  {
  }

  // ---------------------------------------------------------------------------
  // Headers
  // ---------------------------------------------------------------------------

  /** A request as run() decodes it: op, layer, rows, cols from slots 0 .. 3. */
  datatype Request = Request(op: u32, layer: u32, rows: u32, cols: u32)

  function DecodeRequest(h: Frame): Request {
    Request(HeaderSlot(h, 0), HeaderSlot(h, 1), HeaderSlot(h, 2), HeaderSlot(h, 3))
  }

  /** A fresh HEADER_SIZE buffer after `populateHeader(header, op, f1, f2, f3, f4)`. */
  function Header(op: u32, f1: u32, f2: u32, f3: u32, f4: u32): seq<byte> {
    ControlHeader(Zeros(HEADER_SIZE), op, f1, f2, f3, f4)
  }

  /** Decoding a control header gives back the opcode and the first three fields. */
  lemma DecodeHeader(op: u32, f1: u32, f2: u32, f3: u32, f4: u32, more: bool)
    ensures DecodeRequest(Frame(Bytes(Header(op, f1, f2, f3, f4)), more)) == Request(op, f1, f2, f3)
  {
    var f := Frame(Bytes(Header(op, f1, f2, f3, f4)), more);
    ControlHeaderLayout(Zeros(HEADER_SIZE), op, f1, f2, f3, f4);
    HeaderSlotIs(f, HEADER_SIZE, 0);
    HeaderSlotIs(f, HEADER_SIZE, 1);
    HeaderSlotIs(f, HEADER_SIZE, 2);
    HeaderSlotIs(f, HEADER_SIZE, 3);
  }

  /** The pull request for a layer's weights: PULL_FORWARD with the layer in slot 1. */
  function PullHeader(layer: u32): seq<byte> {
    Header(Code(PULL_FORWARD), layer, 0, 0, 0)
  }

  /** The weight server's worker reads the pull request as PULL_FORWARD of the same layer. */
  lemma PullHeaderDecodes(layer: u32)
    ensures var f := Frame(Bytes(PullHeader(layer)), false);
      OpOfCode(HeaderSlot(f, 0)) == Some(PULL_FORWARD) && HeaderSlot(f, 1) == layer
  {
    DecodeHeader(Code(PULL_FORWARD), layer, 0, 0, 0, false);
    CodeRoundTrip(PULL_FORWARD);
  }

  // ---------------------------------------------------------------------------
  // requestWeightsMatrix / requestFeatsMatrix / sendMatrices
  // ---------------------------------------------------------------------------

  /** A matrix received, whether its receives succeeded, and where reading stopped. */
  datatype Pulled = Pulled(ok: bool, m: Tensor, next: nat)

  /**
   * requestWeightsMatrix's reply: a header whose slot 1 is (int) -1 gives
   * the empty Matrix(); any other gives rows = slot 2, cols = slot 3 and the
   * elements of the following payload.
   */
  function WeightsReply(frames: seq<Frame>, p: nat): (r: Pulled)
    requires p <= |frames|
    ensures p <= r.next <= |frames| && r.next <= p + 2
    ensures !r.ok <==> p == |frames| || (HeaderSlot(frames[p], 1) != NO_MATRIX && p + 1 == |frames|)
    ensures r.ok && HeaderSlot(frames[p], 1) == NO_MATRIX ==> r.m == Protocol.NO_TENSOR && r.next == p + 1
    ensures r.ok && HeaderSlot(frames[p], 1) != NO_MATRIX ==>
      r.next == p + 2 && r.m.rows == HeaderSlot(frames[p], 2) && r.m.cols == HeaderSlot(frames[p], 3) &&
      |r.m.data| == ElemCount(r.m.rows, r.m.cols) &&
      forall i | 0 <= i < |r.m.data| :: r.m.data[i] == ValueAt(ValuesOf(frames[p + 1]), i)
  {
    if p == |frames| then Pulled(false, Protocol.NO_TENSOR, p)
    else if HeaderSlot(frames[p], 1) == NO_MATRIX then Pulled(true, Protocol.NO_TENSOR, p + 1)
    else if p + 1 == |frames| then Pulled(false, Protocol.NO_TENSOR, p + 1)
    else
      var rows := HeaderSlot(frames[p], 2);
      var cols := HeaderSlot(frames[p], 3);
      Pulled(true, Protocol.Tensor("", rows, cols, Fill(ValuesOf(frames[p + 1]), ElemCount(rows, cols))), p + 2)
  }

  /**
   * The weight server's reply to the pull decodes to the layer's matrix:
   * "unavailable" gives the empty matrix, otherwise the same shape and, for
   * a well-formed matrix, the same elements.
   */
  lemma WeightServerReplyDecodes(weightMats: seq<Tensor>, layer: u32, updatesDone: bool, rest: seq<Frame>)
    requires layer < |weightMats| || WeightWorker.Pending(layer, true, updatesDone)
    ensures var r := WeightsReply(WeightWorker.WeightsFrames(weightMats, layer, true, updatesDone) + rest, 0);
      r.ok &&
      (WeightWorker.Pending(layer, true, updatesDone) ==> r.m == Protocol.NO_TENSOR && r.next == 1) &&
      (!WeightWorker.Pending(layer, true, updatesDone) ==>
        r.next == 2 && r.m.rows == weightMats[layer].rows && r.m.cols == weightMats[layer].cols &&
        (Protocol.WellFormed(weightMats[layer]) && weightMats[layer].rows * weightMats[layer].cols < 0x1_0000_0000 ==>
          r.m.data == weightMats[layer].data))
  {
    var fs := WeightWorker.WeightsFrames(weightMats, layer, true, updatesDone);
    WeightWorker.WeightsFramesLayout(weightMats, layer, true, updatesDone);
    var frames := fs + rest;
    assert frames[0] == fs[0];
    HeaderSlotIs(frames[0], HEADER_SIZE, 1);
    if !WeightWorker.Pending(layer, true, updatesDone) {
      assert frames[1] == fs[1];
      HeaderSlotIs(frames[0], HEADER_SIZE, 2);
      HeaderSlotIs(frames[0], HEADER_SIZE, 3);
      var w := weightMats[layer];
      if Protocol.WellFormed(w) && w.rows * w.cols < 0x1_0000_0000 {
        assert ElemCount(w.rows, w.cols) == |w.data|;
        FillWhole(w.data);
      }
    }
  }

  /** requestFeatsMatrix's reply: rows * cols received values, each increased by 1. */
  function FeatsReply(frames: seq<Frame>, p: nat, rows: u32, cols: u32): (r: Pulled)
    requires p <= |frames|
    ensures r.ok <==> p < |frames|
    ensures r.next == if r.ok then p + 1 else p
    ensures r.ok ==> r.m.rows == rows && r.m.cols == cols && |r.m.data| == ElemCount(rows, cols)
    ensures r.ok ==> forall i | 0 <= i < |r.m.data| :: r.m.data[i] == ValueAt(ValuesOf(frames[p]), i) + 1
  {
    if p == |frames| then Pulled(false, Protocol.NO_TENSOR, p)
    else Pulled(true, Protocol.Tensor("", rows, cols, Incremented(ValuesOf(frames[p]), ElemCount(rows, cols))), p + 1)
  }

  /** The first n values of a payload, each plus 1. */
  function Incremented(vs: seq<int>, n: nat): seq<int> {
    seq(n, i requires 0 <= i < n => ValueAt(vs, i) + 1)
  }

  /** sendMatrices' header: Z's rows in slot 0 and its columns in slot 1. */
  function ResultHeader(z: Tensor): seq<byte> {
    Header(z.rows, z.cols, 0, 0, 0)
  }

  /** sendMatrices: the header, then Z's payload, then the activation's payload. */
  function ResultFrames(z: Tensor, act: Tensor): seq<Frame> {
    [Frame(Bytes(ResultHeader(z)), true), Frame(Values(z.data), true), Frame(Values(act.data), false)]
  }

  /** The result message: Z's shape in slots 0 and 1, Z's values, then the activation's, ending the message. */
  lemma ResultFramesLayout(z: Tensor, act: Tensor)
    ensures var fs := ResultFrames(z, act);
      |fs| == 3 && fs[0].more && fs[1].more && !fs[2].more &&
      HeaderSlot(fs[0], 0) == z.rows && HeaderSlot(fs[0], 1) == z.cols &&
      ValuesOf(fs[1]) == z.data && ValuesOf(fs[2]) == act.data
  {
    DecodeHeader(z.rows, z.cols, 0, 0, 0, true);
  }

  // ---------------------------------------------------------------------------
  // loadWeightServers
  // ---------------------------------------------------------------------------

  /** std::isspace in the "C" locale. */
  predicate IsSpace(c: char) {
    c == ' ' || c == '\t' || c == '\n' || c == '\U{0B}' || c == '\U{0C}' || c == '\r'
  }

  /** A string with no whitespace at either end. */
  predicate Trimmed(s: string) {
    s == [] || (!IsSpace(s[0]) && !IsSpace(s[|s| - 1]))
  }

  /** How many whitespace characters open s. */
  function Leading(s: string): (n: nat)
    ensures n <= |s|
    ensures forall i | 0 <= i < n :: IsSpace(s[i])
    ensures n < |s| ==> !IsSpace(s[n])
  {
    if s != [] && IsSpace(s[0]) then
      var n := 1 + Leading(s[1..]);
      assert forall i | 1 <= i < n :: s[i] == s[1..][i - 1];
      n
    else 0
  }

  /** How many whitespace characters close s. */
  function Trailing(s: string): (n: nat)
    ensures n <= |s|
    ensures forall i | |s| - n <= i < |s| :: IsSpace(s[i])
    ensures n < |s| ==> !IsSpace(s[|s| - n - 1])
  {
    if s != [] && IsSpace(s[|s| - 1]) then 1 + Trailing(s[..|s| - 1]) else 0
  }

  /** boost::algorithm::trim_left */
  function TrimLeft(s: string): (r: string)
    ensures r == [] || !IsSpace(r[0])
  {
    s[Leading(s)..]
  }

  /** boost::algorithm::trim_right */
  function TrimRight(s: string): (r: string)
    ensures r == [] || !IsSpace(r[|r| - 1])
  {
    s[..|s| - Trailing(s)]
  }

  /** boost::algorithm::trim: the line without its leading and trailing whitespace. */
  function Trim(s: string): (r: string)
    ensures Trimmed(r)
  {
    var l := TrimLeft(s);
    var r := TrimRight(l);
    assert r != [] ==> r[0] == l[0];
    r
  }

  /**
   * A trimmed line is the original with whitespace cut from both ends only:
   * a leading run of a characters and a trailing run after a + |Trim(s)|.
   */
  lemma TrimCuts(s: string)
    ensures var t := Trim(s); var a := Leading(s);
      a + |t| <= |s| && s == s[..a] + t + s[a + |t|..] &&
      (forall i | 0 <= i < a :: IsSpace(s[i])) && (forall i | a + |t| <= i < |s| :: IsSpace(s[i]))
  {
    var a := Leading(s);
    var l := s[a..];
    var b := Trailing(l);
    var t := Trim(s);
    assert t == l[..|l| - b];
    forall i | a + |t| <= i < |s| ensures IsSpace(s[i]) {
      assert s[i] == l[i - a];
    }
    Seqs.SplitAt(l, |t|);
    Seqs.SplitAt(s, a);
    Seqs.DropDrop(s, a, |t|);
    Seqs.AppendAssoc(s[..a], t, l[|t|..]);
  }

  /** A line already without surrounding whitespace is kept as it is. */
  lemma TrimTrimmed(s: string)
    requires Trimmed(s)
    ensures Trim(s) == s
  {
  }

  /** The addresses kept from the file's lines: each trimmed, the empty ones dropped, in file order. */
  function Addresses(lines: seq<string>): (addrs: seq<string>)
    ensures |addrs| <= |lines|
  {
    if lines == [] then []
    else
      var t := Trim(lines[|lines| - 1]);
      Addresses(lines[..|lines| - 1]) + (if t == [] then [] else [t])
  }

  /** Every address kept is non-empty and has no surrounding whitespace. */
  lemma {:induction false} AddressesClean(lines: seq<string>)
    ensures forall i | 0 <= i < |Addresses(lines)| :: Addresses(lines)[i] != [] && Trimmed(Addresses(lines)[i])
  {
    if lines != [] {
      var init := lines[..|lines| - 1];
      var t := Trim(lines[|lines| - 1]);
      var kept := if t == [] then [] else [t];
      AddressesClean(init);
      assert Addresses(lines) == Addresses(init) + kept;
      forall i | 0 <= i < |Addresses(init) + kept|
        ensures (Addresses(init) + kept)[i] != [] && Trimmed((Addresses(init) + kept)[i])
      {
        if i >= |Addresses(init)| {
          assert (Addresses(init) + kept)[i] == t;
        }
      }
    }
  }

  /** One more line read: its trimmed form is kept unless empty. */
  lemma AddressesStep(lines: seq<string>, i: nat)
    requires i < |lines|
    ensures var t := Trim(lines[i]);
      Addresses(lines[..i + 1]) == Addresses(lines[..i]) + (if t == [] then [] else [t])
  {
    assert lines[..i + 1][..i] == lines[..i] && lines[..i + 1][i] == lines[i];
  }

  /** Reading two pieces of a file keeps the addresses of each, in order. */
  lemma {:induction false} AddressesAppend(a: seq<string>, b: seq<string>)
    ensures Addresses(a + b) == Addresses(a) + Addresses(b)
    decreases |b|
  {
    if b == [] {
      assert a + b == a;
    } else {
      var b' := b[..|b| - 1];
      assert (a + b)[..|a + b| - 1] == a + b';
      assert (a + b)[|a + b| - 1] == b[|b| - 1];
      AddressesAppend(a, b');
    }
  }

  /** A file of clean addresses, one per line, gives exactly those addresses. */
  lemma {:induction false} AddressesOfClean(lines: seq<string>)
    requires forall i | 0 <= i < |lines| :: lines[i] != [] && Trimmed(lines[i])
    ensures Addresses(lines) == lines
  {
    if lines != [] {
      var init := lines[..|lines| - 1];
      var last := lines[|lines| - 1];
      forall i | 0 <= i < |init| ensures init[i] != [] && Trimmed(init[i]) {
        assert init[i] == lines[i];
      }
      AddressesOfClean(init);
      TrimTrimmed(last);
      assert Addresses(lines) == init + [last];
      Seqs.PrefixStep1(lines, |lines| - 1);
    }
  }

  /** Blank and all-whitespace lines contribute nothing. */
  lemma BlankLineSkipped(lines: seq<string>, blank: string)
    requires forall i | 0 <= i < |blank| :: IsSpace(blank[i])
    ensures Addresses(lines + [blank]) == Addresses(lines)
  {
    assert (lines + [blank])[..|lines|] == lines;
    TrimCuts(blank);
  }

  // ---------------------------------------------------------------------------
  // The weight server a node uses
  // ---------------------------------------------------------------------------

  /** `nodeId % weightServerAddrs.size()`: nodes are spread round-robin over the weight servers. */
  function ServerIndex(nodeId: u32, count: nat): (i: nat)
    requires count > 0
    ensures i < count
    ensures nodeId < count ==> i == nodeId
  {
    nodeId % count
  }

  /** Nodes count apart share a weight server; among the first count nodes each has its own. */
  lemma ServerRoundRobin(a: u32, b: u32, count: nat)
    requires count > 0
    ensures a < count && b < count ==> (ServerIndex(a, count) == ServerIndex(b, count) <==> a == b)
    ensures b == a + count ==> ServerIndex(a, count) == ServerIndex(b, count)
  {
    if b == a + count {
      var q := a / count;
      var r := a % count;
      assert b == (q + 1) * count + r by {
        assert a == q * count + r;
      }
      ModUnique(b, count, q + 1, r);
    }
  }

  /** Division with remainder is unique: y = q * m + r with 0 <= r < m fixes y % m. */
  lemma ModUnique(y: int, m: int, q: int, r: int)
    requires m > 0 && 0 <= r < m && y == q * m + r
    ensures y % m == r
  {
    var q' := y / m;
    var r' := y % m;
    assert (q - q') * m == r' - r;
    if q > q' {
      MulAtLeast(q - q', m);
    } else if q < q' {
      MulAtLeast(q' - q, m);
    }
  }

  lemma MulAtLeast(k: int, m: int)
    requires k >= 1 && m > 0
    ensures k * m >= m
  {
  }

  /** "ipc:///tmp/GPU_COMM:<dPort>", the data socket's address. */
  function IpcAddr(dPort: nat): string {
    "ipc:///tmp/GPU_COMM:" + Decimal.NatToString(dPort)
  }

  /** The identity the weight socket presents: nodeId's 4 bytes, then the ipc address. */
  function Identity(nodeId: u32, dPort: nat): seq<byte> {
    EncodeLE(nodeId, SLOT_SIZE) + ToBytes(IpcAddr(dPort))
  }

  /** The identity starts with the node id and carries the ipc address after it. */
  lemma IdentityLayout(nodeId: u32, dPort: nat)
    ensures var id := Identity(nodeId, dPort);
      |id| == SLOT_SIZE + |IpcAddr(dPort)| && ParseSlot(id, 0) == nodeId &&
      id[SLOT_SIZE..] == ToBytes(IpcAddr(dPort))
  {
    var id := Identity(nodeId, dPort);
    SlotRange();
    DecodeEncode(nodeId, SLOT_SIZE);
    ParseSlotIsDecode(id, 0);
    assert id[..SLOT_SIZE] == EncodeLE(nodeId, SLOT_SIZE);
  }

  /** "tcp://<address>:<wPort>" for the node's weight server. */
  function WeightAddress(addrs: seq<string>, nodeId: u32, wPort: nat): string
    requires |addrs| > 0
  {
    "tcp://" + addrs[ServerIndex(nodeId, |addrs|)] + ":" + Decimal.NatToString(wPort)
  }

  // ---------------------------------------------------------------------------
  // run
  // ---------------------------------------------------------------------------

  /** The matrix product and the activation of the computing unit. */
  datatype Kernels = Kernels(dot: (Tensor, Tensor) -> Tensor, activate: seq<int> -> seq<int>)

  /** The server's fixed configuration. */
  datatype Config = Config(dPort: nat, wPort: nat, addrs: seq<string>, kernels: Kernels)

  /** One setsockopt(ZMQ_IDENTITY) + connect of the weight socket. */
  datatype Connect = Connect(identity: seq<byte>, address: string)

  /** What the server can change or observe: its node id, both sockets' read positions and sent frames, its connects. */
  datatype ServerState = ServerState(nodeId: u32, dPos: nat, dOut: seq<Frame>, wPos: nat, wOut: seq<Frame>,
                                     connects: seq<Connect>)

  /** The confirm sent after the first header: a fresh 5-byte message. */
  const FIRST_CONFIRM: Frame := Frame(Bytes(Zeros(5)), false)
  /**
   * The confirm sent after every later header: the same message object,
   * which ZeroMQ empties when it is sent.
   */
  const CONFIRM: Frame := Frame(EMPTY, false)

  /** act_z: a copy of Z, activated in place. */
  function Activated(k: Kernels, z: Tensor): (act: Tensor)
    ensures act.rows == z.rows && act.cols == z.cols
  {
    Protocol.Tensor("", z.rows, z.cols, k.activate(z.data))
  }

  /**
   * One turn of run()'s loop: receive a header and confirm it; stop on TERM;
   * otherwise pull the weights, receive the features, and send Z and the
   * activation. The boolean says whether the loop goes on.
   */
  function Turn(s: ServerState, dIn: seq<Frame>, wIn: seq<Frame>, cfg: Config): (r: (ServerState, bool))
    requires s.dPos <= |dIn| && s.wPos <= |wIn| && |cfg.addrs| > 0
    ensures s.dPos <= r.0.dPos <= |dIn| && s.wPos <= r.0.wPos <= |wIn|
    ensures r.1 ==> s.dPos + 2 <= r.0.dPos
    ensures r.0.nodeId == s.nodeId
  {
    if s.dPos == |dIn| then (s, false)
    else
      var rq := DecodeRequest(dIn[s.dPos]);
      var s1 := s.(dPos := s.dPos + 1, dOut := s.dOut + [CONFIRM]);
      if rq.op == Code(TERM) then (s1, false)
      else
        var s2 := s1.(wOut := s1.wOut + [Frame(Bytes(PullHeader(rq.layer)), false)],
                      connects := s1.connects + [Connect(Identity(s.nodeId, cfg.dPort),
                                                         WeightAddress(cfg.addrs, s.nodeId, cfg.wPort))]);
        var w := WeightsReply(wIn, s.wPos);
        if !w.ok then (s2.(wPos := w.next), false)
        else
          var f := FeatsReply(dIn, s1.dPos, rq.rows, rq.cols);
          if !f.ok then (s2.(wPos := w.next), false)
          else
            var z := cfg.kernels.dot(f.m, w.m);
            (s2.(wPos := w.next, dPos := f.next, dOut := s2.dOut + ResultFrames(z, Activated(cfg.kernels, z))), true)
  }

  /** The loop of run(): turns until one stops. */
  function Serve(s: ServerState, dIn: seq<Frame>, wIn: seq<Frame>, cfg: Config): (r: ServerState)
    requires s.dPos <= |dIn| && s.wPos <= |wIn| && |cfg.addrs| > 0
    ensures s.dPos <= r.dPos <= |dIn| && r.nodeId == s.nodeId
    decreases |dIn| - s.dPos
  {
    var t := Turn(s, dIn, wIn, cfg);
    if t.1 then Serve(t.0, dIn, wIn, cfg) else t.0
  }

  /** run(): the first header carries the node id and is confirmed, then the loop. */
  function RunSpec(s: ServerState, dIn: seq<Frame>, wIn: seq<Frame>, cfg: Config): (r: ServerState)
    requires s.dPos <= |dIn| && s.wPos <= |wIn| && |cfg.addrs| > 0
    ensures s.dPos < |dIn| ==> r.nodeId == HeaderSlot(dIn[s.dPos], 0)
  {
    if s.dPos == |dIn| then s
    else Serve(s.(nodeId := HeaderSlot(dIn[s.dPos], 0), dPos := s.dPos + 1, dOut := s.dOut + [FIRST_CONFIRM]),
               dIn, wIn, cfg)
  }

  /** Every header received is confirmed before anything else is sent in answer to it. */
  lemma ConfirmFirst(s: ServerState, dIn: seq<Frame>, wIn: seq<Frame>, cfg: Config)
    requires s.dPos < |dIn| && s.wPos <= |wIn| && |cfg.addrs| > 0
    ensures var r := Turn(s, dIn, wIn, cfg).0;
      |r.dOut| > |s.dOut| && r.dOut[..|s.dOut| + 1] == s.dOut + [CONFIRM]
  {
  }

  /**
   * A TERM header ends the loop after its confirm: no weights are pulled,
   * no features are read and nothing is computed or sent.
   */
  lemma TermStops(s: ServerState, dIn: seq<Frame>, wIn: seq<Frame>, cfg: Config)
    requires s.dPos < |dIn| && s.wPos <= |wIn| && |cfg.addrs| > 0
    requires DecodeRequest(dIn[s.dPos]).op == Code(TERM)
    ensures Turn(s, dIn, wIn, cfg) == (s.(dPos := s.dPos + 1, dOut := s.dOut + [CONFIRM]), false)
    ensures Serve(s, dIn, wIn, cfg) == s.(dPos := s.dPos + 1, dOut := s.dOut + [CONFIRM])
  {
    TermTurn(s, dIn, wIn, cfg);
  }

  /** The turn a TERM header takes. */
  lemma TermTurn(s: ServerState, dIn: seq<Frame>, wIn: seq<Frame>, cfg: Config)
    requires s.dPos < |dIn| && s.wPos <= |wIn| && |cfg.addrs| > 0
    requires DecodeRequest(dIn[s.dPos]).op == Code(TERM)
    ensures Turn(s, dIn, wIn, cfg) == (s.(dPos := s.dPos + 1, dOut := s.dOut + [CONFIRM]), false)
  {
  }

  /**
   * A forward request whose weights and features both arrive is answered
   * with Z = dot(features + 1, weights) and its activation, after the
   * confirm, and the loop goes on; the weight socket sends one pull of the
   * request's layer to the node's weight server.
   */
  lemma ForwardAnswered(s: ServerState, dIn: seq<Frame>, wIn: seq<Frame>, cfg: Config)
    requires s.dPos + 1 < |dIn| && s.wPos <= |wIn| && |cfg.addrs| > 0
    requires DecodeRequest(dIn[s.dPos]).op != Code(TERM)
    requires WeightsReply(wIn, s.wPos).ok
    ensures var rq := DecodeRequest(dIn[s.dPos]);
      var w := WeightsReply(wIn, s.wPos).m;
      var f := FeatsReply(dIn, s.dPos + 1, rq.rows, rq.cols).m;
      var z := cfg.kernels.dot(f, w);
      var t := Turn(s, dIn, wIn, cfg);
      t.1 && t.0.dPos == s.dPos + 2 &&
      t.0.dOut == s.dOut + [CONFIRM] + ResultFrames(z, Activated(cfg.kernels, z)) &&
      t.0.wOut == s.wOut + [Frame(Bytes(PullHeader(rq.layer)), false)] &&
      t.0.connects[|s.connects|].address == "tcp://" + cfg.addrs[s.nodeId % |cfg.addrs|] + ":" + Decimal.NatToString(cfg.wPort)
  {
  }

  /** The `+= 1` loop over a received buffer, in place. */
  method IncrementAll(buf: array<int>)
    modifies buf
    ensures forall j | 0 <= j < buf.Length :: buf[j] == old(buf[j]) + 1
  {
    var i := 0;
    while i < buf.Length
      invariant i <= buf.Length
      invariant forall j | 0 <= j < i :: buf[j] == old(buf[j]) + 1
      invariant forall j | i <= j < buf.Length :: buf[j] == old(buf[j])
    {
      buf[i] := buf[i] + 1;
      i := i + 1;
    }
  }

  /**
   * loadWeightServers(addresses, file): every non-empty trimmed line is
   * pushed onto the vector passed in, in file order.
   */
  method LoadWeightServers(addresses: seq<string>, lines: seq<string>) returns (r: seq<string>)
    ensures r == addresses + Addresses(lines)
  {
    r := addresses;
    ghost var kept: seq<string> := [];
    var i := 0;
    while i < |lines|
      invariant i <= |lines| && kept == Addresses(lines[..i])
      invariant r == addresses + kept
    {
      AddressesStep(lines, i);
      var line := Trim(lines[i]);
      if line != [] {
        Seqs.AppendAssoc(addresses, kept, [line]);
        r := r + [line];
        kept := kept + [line];
      }
      i := i + 1;
    }
    assert lines[..|lines|] == lines;
  }

  /** The server as an object: its two sockets, ports, the computing unit, and the addresses it loaded. */
  class ComputingServer {
    const dataSocket: Socket
    const weightSocket: Socket
    const dPort: nat
    const wPort: nat
    const kernels: Kernels
    var weightServerAddrs: seq<string>
    var nodeId: u32
    var connects: seq<Connect>

    predicate Valid()
      reads this, dataSocket, weightSocket
    {
      dataSocket != weightSocket && dataSocket.Valid() && weightSocket.Valid()
    }

    /** The server's state as a value, to compare with the functions above. */
    function State(): ServerState
      reads this, dataSocket, weightSocket
    {
      ServerState(nodeId, dataSocket.pos, dataSocket.outbox, weightSocket.pos, weightSocket.outbox, connects)
    }

    function Cfg(): Config
      reads this
    {
      Config(dPort, wPort, weightServerAddrs, kernels)
    }

    /**
     * ComputingServer(dPort, wServersFile, wPort): the addresses are loaded
     * from the file's lines; the node id, not yet received, is taken as 0.
     */
    constructor (dataSocket: Socket, weightSocket: Socket, dPort: nat, wPort: nat, kernels: Kernels,
                 lines: seq<string>)
      requires dataSocket != weightSocket && dataSocket.Valid() && weightSocket.Valid()
      ensures Valid() && this.dataSocket == dataSocket && this.weightSocket == weightSocket
      ensures this.dPort == dPort && this.wPort == wPort && this.kernels == kernels
      ensures weightServerAddrs == Addresses(lines) && nodeId == 0 && connects == []
    {
      this.dataSocket := dataSocket;
      this.weightSocket := weightSocket;
      this.dPort := dPort;
      this.wPort := wPort;
      this.kernels := kernels;
      weightServerAddrs := [];
      nodeId := 0;
      connects := [];
      new;
      weightServerAddrs := LoadWeightServers(weightServerAddrs, lines);
    }

    /** requestWeightsMatrix(socket, layer) */
    method RequestWeightsMatrix(layer: u32) returns (ok: bool, m: Tensor)
      requires Valid()
      modifies weightSocket
      ensures Valid()
      ensures Pulled(ok, m, weightSocket.pos) == WeightsReply(weightSocket.incoming, old(weightSocket.pos))
      ensures weightSocket.outbox == old(weightSocket.outbox) + [Frame(Bytes(PullHeader(layer)), false)]
    {
      var header := NewBuffer(HEADER_SIZE);
      PopulateHeader(header, Code(PULL_FORWARD), layer);
      weightSocket.Send(Bytes(header[..]));
      var ok1, respHeader := weightSocket.Recv();
      if !ok1 {
        return false, Protocol.NO_TENSOR;
      }
      var layerResp := HeaderSlot(respHeader, 1);
      if layerResp == NO_MATRIX {
        return true, Protocol.NO_TENSOR;
      }
      var rows := HeaderSlot(respHeader, 2);
      var cols := HeaderSlot(respHeader, 3);
      var ok2, wData := weightSocket.Recv();
      if !ok2 {
        return false, Protocol.NO_TENSOR;
      }
      m := Protocol.Tensor("", rows, cols, Fill(ValuesOf(wData), ElemCount(rows, cols)));
      ok := true;
    }

    /** requestFeatsMatrix(rows, cols): the received buffer incremented in place, then copied. */
    method RequestFeatsMatrix(rows: u32, cols: u32) returns (ok: bool, m: Tensor)
      requires Valid()
      modifies dataSocket
      ensures Valid()
      ensures Pulled(ok, m, dataSocket.pos) == FeatsReply(dataSocket.incoming, old(dataSocket.pos), rows, cols)
      ensures dataSocket.outbox == old(dataSocket.outbox)
    {
      var ok1, aggreChunk := dataSocket.Recv();
      if !ok1 {
        return false, Protocol.NO_TENSOR;
      }
      var n := ElemCount(rows, cols);
      var vs := ValuesOf(aggreChunk);
      var buf := new int[n](i => ValueAt(vs, i));
      IncrementAll(buf);
      assert buf[..] == Incremented(vs, n);
      m := Protocol.Tensor("", rows, cols, buf[..]);
      ok := true;
    }

    /** sendMatrices(zResult, actResult) */
    method SendMatrices(z: Tensor, act: Tensor)
      requires Valid()
      modifies dataSocket
      ensures Valid() && dataSocket.pos == old(dataSocket.pos)
      ensures dataSocket.outbox == old(dataSocket.outbox) + ResultFrames(z, act)
    {
      var header := NewBuffer(HEADER_SIZE);
      PopulateHeader(header, z.rows, z.cols);
      dataSocket.Send(Bytes(header[..]), true);
      dataSocket.Send(Values(z.data), true);
      dataSocket.Send(Values(act.data));
    }

    /** One turn of run()'s loop. */
    method RunTurn() returns (go: bool)
      requires Valid() && |weightServerAddrs| > 0
      modifies this, dataSocket, weightSocket
      ensures Valid() && weightServerAddrs == old(weightServerAddrs)
      ensures (State(), go) == Turn(old(State()), dataSocket.incoming, weightSocket.incoming, Cfg())
    {
      ghost var s := State();
      var ok, header := dataSocket.Recv();
      if !ok {
        return false;
      }
      var rq := DecodeRequest(header);
      dataSocket.Send(CONFIRM.body);
      if rq.op == Code(TERM) {
        return false;
      }
      var address := "tcp://" + weightServerAddrs[nodeId % |weightServerAddrs|] + ":" + Decimal.NatToString(wPort);
      connects := connects + [Connect(Identity(nodeId, dPort), address)];
      var okW, weights := RequestWeightsMatrix(rq.layer);
      if !okW {
        return false;
      }
      var okF, feats := RequestFeatsMatrix(rq.rows, rq.cols);
      if !okF {
        return false;
      }
      var z := kernels.dot(feats, weights);
      var act := Protocol.Tensor("", z.rows, z.cols, kernels.activate(z.data));
      SendMatrices(z, act);
      go := true;
    }

    /** run(): receive the node id, confirm, then serve requests until TERM or the end of the stream. */
    method Run()
      requires Valid() && |weightServerAddrs| > 0
      modifies this, dataSocket, weightSocket
      ensures Valid()
      ensures State() == RunSpec(old(State()), dataSocket.incoming, weightSocket.incoming, old(Cfg()))
    {
      var ok, initHeader := dataSocket.Recv();
      if !ok {
        return;
      }
      nodeId := HeaderSlot(initHeader, 0);
      dataSocket.Send(FIRST_CONFIRM.body);
      ghost var goal := Serve(State(), dataSocket.incoming, weightSocket.incoming, Cfg());
      var go := true;
      while go
        invariant Valid() && Cfg() == old(Cfg())
        invariant go ==> goal == Serve(State(), dataSocket.incoming, weightSocket.incoming, Cfg())
        invariant !go ==> goal == State()
        decreases |dataSocket.incoming| - dataSocket.pos + (if go then 1 else 0)
      {
        go := RunTurn();
      }
    }
  }
}
