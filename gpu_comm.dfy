/**
 * The graph server's side of the GPU computing server
 * (src/graph-server/commmanager/GPU_comm.cpp): `newContextForward` records
 * the activation matrix and the two result buffers; `requestForward` sends
 * a REQ_FORWARD header and the activations, then receives a result header,
 * Z and the new activations into the buffers; `sendShutdownMessage` sends
 * TERM.
 *
 * `requestForward` as written sizes what it copies from the header it SENT
 * (slot 0 = REQ_FORWARD = 0), so it always copies 0 bytes; it is modelled
 * as written, and next to it the version that reads the size from the
 * result header it received, which is the one that fits the computing
 * server's replies. A receive past the end of the socket's stream raises
 * the exception the source catches and logs: the call then ends quietly.
 */
module GpuComm {
  import opened Wire
  import opened Headers
  import opened Transport
  import Protocol
  import CompServer

  type Tensor = Protocol.Tensor

  /** The REQ_FORWARD header: the layer in slot 1, the activation's rows and columns in slots 2 and 3. */
  function ForwardHeader(layer: u32, rows: u32, cols: u32): seq<byte> {
    CompServer.Header(Code(REQ_FORWARD), layer, rows, cols, 0)
  }

  /** The activation message: actRows * actCols elements of the matrix, read as zero past its end. */
  function ActivationFrame(act: Tensor): Frame {
    Frame(Values(CompServer.Fill(act.data, CompServer.ElemCount(act.rows, act.cols))), false)
  }

  /** The TERM header of sendShutdownMessage: every other field 0. */
  function TermHeader(): seq<byte> {
    CompServer.Header(Code(TERM), 0, 0, 0, 0)
  }

  /** What requestForward sends, where its reading stops, and the reply frames it receives after the confirm. */
  datatype Exchange = Exchange(sent: seq<Frame>, next: nat, reply: seq<Frame>)

  /**
   * The frame exchange of requestForward: the header; after the confirm,
   * the activations; then up to three reply frames (the result header, Z
   * and the new activations), fewer when the stream ends.
   */
  function ForwardExchange(frames: seq<Frame>, p: nat, layer: u32, act: Tensor): (x: Exchange)
    requires p <= |frames|
    ensures p <= x.next <= |frames| && |x.reply| <= 3 && 1 <= |x.sent| <= 2
    ensures x.sent[0] == Frame(Bytes(ForwardHeader(layer, act.rows, act.cols)), false)
    ensures p == |frames| <==> |x.sent| == 1
    ensures p < |frames| ==>
      |x.sent| == 2 && x.sent[1] == ActivationFrame(act) && x.next == p + 1 + |x.reply| && x.reply == frames[p + 1..x.next]
    ensures |x.reply| < 3 ==> x.next == |frames|
  {
    var h := Frame(Bytes(ForwardHeader(layer, act.rows, act.cols)), false);
    if p == |frames| then Exchange([h], p, [])
    else
      var q := p + 1;
      var k := if |frames| - q < 3 then |frames| - q else 3;
      Exchange([h, ActivationFrame(act)], q + k, frames[q..q + k])
  }

  /**
   * The size requestForward as written copies: slots 0 and 1 of the header
   * it sent, times the element size, in unsigned arithmetic.
   */
  function AsWrittenRecvSize(layer: u32, rows: u32, cols: u32): nat {
    var h := Frame(Bytes(ForwardHeader(layer, rows, cols)), false);
    (HeaderSlot(h, 0) * HeaderSlot(h, 1) * 4) % 0x1_0000_0000
  }

  /** Slot 0 of the sent header is REQ_FORWARD = 0, so the size as written is 0 whatever the reply. */
  lemma AsWrittenRecvSizeZero(layer: u32, rows: u32, cols: u32)
    ensures AsWrittenRecvSize(layer, rows, cols) == 0
  {
    CompServer.DecodeHeader(Code(REQ_FORWARD), layer, rows, cols, 0, false);
  }

  /** The element count the reply announces: Z's rows and columns, slots 0 and 1 of the result header. */
  function ReplyCount(resultHeader: Frame): nat {
    CompServer.ElemCount(HeaderSlot(resultHeader, 0), HeaderSlot(resultHeader, 1))
  }

  /** A buffer after memcpy of vals to its start. */
  function Copied(buf: seq<int>, vals: seq<int>): (r: seq<int>)
    requires |vals| <= |buf|
    ensures |r| == |buf| && r[..|vals|] == vals && r[|vals|..] == buf[|vals|..]
  {
    vals + buf[|vals|..]
  }

  /** memcpy(buf, vals, |vals| * sizeof(FeatType)) */
  method CopyInto(buf: array<int>, vals: seq<int>)
    requires |vals| <= buf.Length
    modifies buf
    ensures buf[..] == Copied(old(buf[..]), vals)
  {
    var i := 0;
    while i < |vals|
      invariant i <= |vals|
      invariant forall j | 0 <= j < i :: buf[j] == vals[j]
      invariant forall j | i <= j < buf.Length :: buf[j] == old(buf[j])
    {
      buf[i] := vals[i];
      i := i + 1;
    }
  }

  /**
   * The corrected copy of Z: when the result header and Z arrived and the
   * announced count fits the buffer, Z's first count values; else nothing.
   */
  function ZAfter(buf: seq<int>, x: Exchange, room: nat): seq<int> {
    if |x.reply| >= 2 && ReplyCount(x.reply[0]) <= room && ReplyCount(x.reply[0]) <= |buf| then
      Copied(buf, CompServer.Fill(ValuesOf(x.reply[1]), ReplyCount(x.reply[0])))
    else buf
  }

  /** The corrected copy of the new activations, once all three reply frames arrived. */
  function ActAfter(buf: seq<int>, x: Exchange, room: nat): seq<int> {
    if |x.reply| == 3 && ReplyCount(x.reply[0]) <= room && ReplyCount(x.reply[0]) <= |buf| then
      Copied(buf, CompServer.Fill(ValuesOf(x.reply[2]), ReplyCount(x.reply[0])))
    else buf
  }

  /**
   * The computing server's answer, received by the corrected requestForward:
   * Z and the activation land in the buffers whole when their sizes agree
   * with the header and fit the buffers.
   */
  lemma ServerReplyCopied(z: Tensor, a: Tensor, zBuf: seq<int>, actBuf: seq<int>, before: seq<Frame>, layer: u32, act: Tensor)
    requires |z.data| == |a.data| == z.rows * z.cols < 0x1_0000_0000
    requires |z.data| <= |zBuf| && |a.data| <= |actBuf|
    ensures var frames := before + [CompServer.CONFIRM] + CompServer.ResultFrames(z, a);
      var x := ForwardExchange(frames, |before|, layer, act);
      x.next == |frames| &&
      ZAfter(zBuf, x, |actBuf|)[..|z.data|] == z.data && ActAfter(actBuf, x, |zBuf|)[..|a.data|] == a.data
  {
    var frames := before + [CompServer.CONFIRM] + CompServer.ResultFrames(z, a);
    var x := ForwardExchange(frames, |before|, layer, act);
    CompServer.ResultFramesLayout(z, a);
    assert x.reply == CompServer.ResultFrames(z, a);
    assert x.reply[0] == CompServer.ResultFrames(z, a)[0];
    assert ReplyCount(x.reply[0]) == |z.data|;
    CompServer.FillWhole(z.data);
    CompServer.FillWhole(a.data);
  }

  /**
   * What requestForward sends is what the computing server decodes: a
   * REQ_FORWARD request for the layer with the activation's shape, and
   * features that are the activation's elements, each plus 1.
   */
  lemma RequestDecodedByServer(layer: u32, act: Tensor, frames: seq<Frame>, p: nat)
    requires p < |frames|
    ensures var x := ForwardExchange(frames, p, layer, act);
      CompServer.DecodeRequest(x.sent[0]) == CompServer.Request(Code(REQ_FORWARD), layer, act.rows, act.cols) &&
      var f := CompServer.FeatsReply([x.sent[1]], 0, act.rows, act.cols);
      f.ok && |f.m.data| == CompServer.ElemCount(act.rows, act.cols) &&
      forall i | 0 <= i < |f.m.data| && i < |act.data| :: f.m.data[i] == act.data[i] + 1
  {
    CompServer.DecodeHeader(Code(REQ_FORWARD), layer, act.rows, act.cols, 0, false);
  }

  /** The shutdown message ends the computing server's loop after its confirm, with nothing computed. */
  lemma ShutdownStopsServer(s: CompServer.ServerState, dIn: seq<Frame>, wIn: seq<Frame>, cfg: CompServer.Config)
    requires s.dPos < |dIn| && s.wPos <= |wIn| && |cfg.addrs| > 0
    requires dIn[s.dPos] == Frame(Bytes(TermHeader()), false)
    ensures CompServer.Serve(s, dIn, wIn, cfg) == s.(dPos := s.dPos + 1, dOut := s.dOut + [CompServer.CONFIRM])
  {
    CompServer.DecodeHeader(Code(TERM), 0, 0, 0, 0, false);
    CompServer.TermStops(s, dIn, wIn, cfg);
  }

  /** The reply half of requestForward: the result header, Z and the new activations, as many as arrive. */
  method RecvReply(sock: Socket) returns (reply: seq<Frame>)
    requires sock.Valid()
    modifies sock
    ensures sock.Valid() && sock.outbox == old(sock.outbox)
    ensures old(sock.pos) + |reply| == sock.pos && |reply| <= 3 && reply == sock.incoming[old(sock.pos)..sock.pos]
    ensures |reply| < 3 ==> sock.pos == |sock.incoming|
  {
    reply := [];
    var ok, f := sock.Recv();
    if !ok {
      return;
    }
    reply := [f];
    ok, f := sock.Recv();
    if !ok {
      return;
    }
    reply := reply + [f];
    ok, f := sock.Recv();
    if !ok {
      return;
    }
    reply := reply + [f];
  }

  /** The GPU communicator: its socket to the computing server and the forward context. */
  class GPUComm {
    const dataSocket: Socket
    var actMatrix: Tensor
    var zData: array<int>
    var actData: array<int>
    var numFeatsNext: u32

    /** The two result buffers are distinct arrays. */
    predicate Valid()
      reads this, dataSocket
    {
      dataSocket.Valid() && zData != actData
    }

    constructor (dataSocket: Socket, zData: array<int>, actData: array<int>)
      requires dataSocket.Valid() && zData != actData
      ensures Valid() && this.dataSocket == dataSocket && this.zData == zData && this.actData == actData
      ensures actMatrix == Protocol.NO_TENSOR && numFeatsNext == 0
    {
      this.dataSocket := dataSocket;
      this.zData := zData;
      this.actData := actData;
      actMatrix := Protocol.NO_TENSOR;
      numFeatsNext := 0;
    }

    /**
     * newContextForward: the activation matrix is numLocalVertices x
     * numFeats over dataBuf, and the result buffers and the next layer's
     * width are recorded.
     */
    method NewContextForward(dataBuf: seq<int>, zData': array<int>, actData': array<int>,
                             numLocalVertices: u32, numFeats: u32, numFeatsNext': u32)
      requires dataSocket.Valid() && zData' != actData'
      modifies this
      ensures Valid()
      ensures actMatrix == Protocol.Tensor("", numLocalVertices, numFeats, dataBuf)
      ensures zData == zData' && actData == actData' && numFeatsNext == numFeatsNext'
    {
      actMatrix := Protocol.Tensor("", numLocalVertices, numFeats, dataBuf);
      zData := zData';
      actData := actData';
      numFeatsNext := numFeatsNext';
    }

    /**
     * requestForward(layer) as written: the frames go out and come in as
     * ForwardExchange says, and the received size is read from the sent
     * header, so both buffers keep their contents.
     */
    method RequestForwardAsWritten(layer: u32)
      requires Valid()
      modifies dataSocket, zData, actData
      ensures Valid()
      ensures var x := ForwardExchange(dataSocket.incoming, old(dataSocket.pos), layer, actMatrix);
        dataSocket.outbox == old(dataSocket.outbox) + x.sent && dataSocket.pos == x.next
      ensures zData[..] == old(zData[..]) && actData[..] == old(actData[..])
    {
      var header := SendRequest(layer);
      if header == [] {
        return;
      }
      var reply := RecvReply(dataSocket);
      var sentHeader := Frame(Bytes(header), false);
      var recvSize := (HeaderSlot(sentHeader, 0) * HeaderSlot(sentHeader, 1) * 4) % 0x1_0000_0000;
      AsWrittenRecvSizeZero(layer, actMatrix.rows, actMatrix.cols);
      if |reply| >= 2 {
        CopyInto(zData, CompServer.Fill(ValuesOf(reply[1]), recvSize / 4));
      }
      if |reply| == 3 {
        CopyInto(actData, CompServer.Fill(ValuesOf(reply[2]), recvSize / 4));
      }
    }

    /**
     * requestForward(layer), reading Z's shape from the result header it
     * received: Z and then the new activations are copied into the buffers
     * (a reply larger than the buffers is not copied).
     */
    method RequestForward(layer: u32)
      requires Valid()
      modifies dataSocket, zData, actData
      ensures Valid()
      ensures var x := ForwardExchange(dataSocket.incoming, old(dataSocket.pos), layer, actMatrix);
        dataSocket.outbox == old(dataSocket.outbox) + x.sent && dataSocket.pos == x.next &&
        zData[..] == ZAfter(old(zData[..]), x, actData.Length) &&
        actData[..] == ActAfter(old(actData[..]), x, zData.Length)
    {
      var header := SendRequest(layer);
      if header == [] {
        return;
      }
      var reply := RecvReply(dataSocket);
      if |reply| >= 2 {
        var count := ReplyCount(reply[0]);
        if count <= zData.Length && count <= actData.Length {
          CopyInto(zData, CompServer.Fill(ValuesOf(reply[1]), count));
          if |reply| == 3 {
            CopyInto(actData, CompServer.Fill(ValuesOf(reply[2]), count));
          }
        }
      }
    }

    /**
     * The request half of requestForward: send the header, wait for the
     * confirm, send the activations. Returns the header sent, or [] when
     * the confirm never came.
     */
    method SendRequest(layer: u32) returns (header: seq<byte>)
      requires Valid()
      modifies dataSocket
      ensures Valid()
      ensures var x := ForwardExchange(dataSocket.incoming, old(dataSocket.pos), layer, actMatrix);
        dataSocket.outbox == old(dataSocket.outbox) + x.sent &&
        (header == [] <==> old(dataSocket.pos) == |dataSocket.incoming|) &&
        (header == [] ==> dataSocket.pos == old(dataSocket.pos)) &&
        (header != [] ==> dataSocket.pos == old(dataSocket.pos) + 1 && header == ForwardHeader(layer, actMatrix.rows, actMatrix.cols))
    {
      var buf := NewBuffer(HEADER_SIZE);
      PopulateHeader(buf, Code(REQ_FORWARD), layer, actMatrix.rows, actMatrix.cols);
      dataSocket.Send(Bytes(buf[..]));
      var ok, confirm := dataSocket.Recv();
      if !ok {
        return [];
      }
      dataSocket.Send(Values(CompServer.Fill(actMatrix.data, CompServer.ElemCount(actMatrix.rows, actMatrix.cols))));
      header := buf[..];
    }

    /** sendShutdownMessage: a TERM header, then the confirm. */
    method SendShutdownMessage()
      requires Valid()
      modifies dataSocket
      ensures Valid()
      ensures dataSocket.outbox == old(dataSocket.outbox) + [Frame(Bytes(TermHeader()), false)]
      ensures dataSocket.pos == if old(dataSocket.pos) < |dataSocket.incoming| then old(dataSocket.pos) + 1 else old(dataSocket.pos)
    {
      var header := NewBuffer(HEADER_SIZE);
      PopulateHeader(header, Code(TERM));
      dataSocket.Send(Bytes(header[..]));
      var ok, confirm := dataSocket.Recv();
    }
  }
}
