/**
 * The GAT lambda (src/funcs/gat/main.cpp): one invocation reads a chunk
 * descriptor from its JSON payload, builds the socket identity, and runs
 * one of four handlers chosen by (vertex, dir). Each handler asks the graph
 * server and the weight server for tensors, stops with a failure response at
 * the first sign of trouble, computes, pushes the results back and answers.
 *
 * What the servers answer is an input (`Replies`): the handlers' requests
 * travel on sockets that are not part of this model. The numeric kernels
 * (dot, tanh, leakyReLU, edgeMatMul) are function parameters (`Kernels`).
 * A handler's observable behaviour is its response and the ordered list of
 * network calls it makes (`Run`).
 */
module GatHandler {
  import opened Wire
  import opened Headers
  import opened ChunkHeader
  import opened Wrappers
  import Protocol

  type Tensor = Protocol.Tensor

  /**
   * The failure codes reqEdgeInfo reports in `numLvids`. Their values are
   * defined outside the files of this model, so they are a parameter.
   */
  datatype Sentinels = Sentinels(notFound: u32, duplicate: u32, chunkDne: u32)

  /** The edge information of a chunk. */
  datatype EdgeInfo = EdgeInfo(numLvids: u32, nChunkEdges: u32)

  /** invocation_response as constructResp(success, localId, msg) builds it. */
  datatype Response = Response(success: bool, localId: u32, msg: string)

  /** The numeric kernels the handlers call. */
  datatype Kernels = Kernels(dot: (Tensor, Tensor) -> Tensor, tanh: Tensor -> Tensor,
                             leakyReLU: Tensor -> Tensor,
                             edgeMatMul: (EdgeInfo, Tensor, Tensor) -> Tensor)

  datatype Sock = DataSocket | WeightsSocket

  /** A network call a handler makes, in the order it makes them. */
  datatype Call =
    | EdgeInfoReq
    | EdgeTensorReq(name: Name)
    | TensorsReq(sock: Sock, names: seq<Name>)
    | TensorsSent(tensors: seq<Tensor>)

  /**
   * The servers' answers during one invocation: the edge info, the edge
   * tensor, the reply on the data socket, the reply on the weights socket,
   * and the value sendTensors returns.
   */
  datatype Replies = Replies(eInfo: EdgeInfo, edgeTensor: Tensor, data: seq<Tensor>,
                             weights: seq<Tensor>, ret: int)

  /** What one handler does: its response and its network calls. */
  datatype Run = Run(resp: Response, calls: seq<Call>)

  const TENSOR_NOT_FOUND: string := "Tensor 'fedge' not found"
  const DUPLICATE_REQUEST: string := "Duplicate chunk request"
  const CHUNK_NOT_FOUND: string := "Chunk not found"
  const GOT_AN_ERROR: string := "Got an error"
  const SERVER_ERROR: string := "Got error message from server"
  const ALREADY_DONE: string := "This chunk is already done."
  const FORWARD_DONE: string := "Finished forward layer"
  const EDGE_DONE: string := "Finished apply edge"
  const EDGE_BACKWARD_DONE: string := "Finished apply edge backward"

  function Fail(c: Chunk, msg: string): Response { Response(false, c.localId, msg) }
  function Done(c: Chunk, msg: string): Response { Response(true, c.localId, msg) }

  /** Matrix::setName */
  function Named(t: Tensor, name: Name): Tensor { t.(name := name) }

  /** The names of a list of tensors, in order. */
  function Names(ts: seq<Tensor>): (ns: seq<Name>)
    ensures |ns| == |ts| && forall i | 0 <= i < |ts| :: ns[i] == ts[i].name
  {
    if ts == [] then [] else [ts[0].name] + Names(ts[1..])
  }

  // ---------------------------------------------------------------------------
  // The sentinel checks on the edge info
  // ---------------------------------------------------------------------------

  /**
   * The if/else chain on eInfo.numLvids: the first sentinel that matches
   * names the failure, and a value matching none of them lets the handler go on.
   */
  function EdgeInfoError(s: Sentinels, numLvids: u32): (r: Option<string>)
    ensures r.None? <==>
      numLvids != s.notFound && numLvids != s.duplicate && numLvids != s.chunkDne &&
      numLvids != ERR_HEADER_FIELD
    ensures numLvids == s.notFound ==> r == Some(TENSOR_NOT_FOUND)
    ensures r == Some(GOT_AN_ERROR) ==> numLvids == ERR_HEADER_FIELD
  {
    if numLvids == s.notFound then Some(TENSOR_NOT_FOUND)
    else if numLvids == s.duplicate then Some(DUPLICATE_REQUEST)
    else if numLvids == s.chunkDne then Some(CHUNK_NOT_FOUND)
    else if numLvids == ERR_HEADER_FIELD then Some(GOT_AN_ERROR)
    else None
  }

  /** The four sentinels and the generic error code are different values. */
  predicate DistinctSentinels(s: Sentinels) {
    s.notFound != s.duplicate && s.notFound != s.chunkDne && s.duplicate != s.chunkDne &&
    s.notFound != ERR_HEADER_FIELD && s.duplicate != ERR_HEADER_FIELD && s.chunkDne != ERR_HEADER_FIELD
  }

  /**
   * With distinct sentinels each failure message names exactly one code, so
   * the response tells which check failed.
   */
  lemma EdgeInfoErrorIdentifies(s: Sentinels, a: u32, b: u32)
    requires DistinctSentinels(s)
    requires EdgeInfoError(s, a).Some? && EdgeInfoError(s, a) == EdgeInfoError(s, b)
    ensures a == b
  {
    assert TENSOR_NOT_FOUND != DUPLICATE_REQUEST && TENSOR_NOT_FOUND != CHUNK_NOT_FOUND;
    assert TENSOR_NOT_FOUND != GOT_AN_ERROR && DUPLICATE_REQUEST != CHUNK_NOT_FOUND;
    assert DUPLICATE_REQUEST != GOT_AN_ERROR && CHUNK_NOT_FOUND != GOT_AN_ERROR;
  }

  // ---------------------------------------------------------------------------
  // The emptiness scan of a reply
  // ---------------------------------------------------------------------------

  /** The position of the first empty tensor, or |ts| when there is none. */
  function FirstEmpty(ts: seq<Tensor>): (i: nat)
    ensures i <= |ts|
    ensures forall k | 0 <= k < i :: !Protocol.Empty(ts[k])
    ensures i < |ts| ==> Protocol.Empty(ts[i])
  {
    if ts == [] then 0
    else if Protocol.Empty(ts[0]) then 0
    else 1 + FirstEmpty(ts[1..])
  }

  /** The position of the first empty tensor is the only one with its two properties. */
  lemma {:induction false} FirstEmptyUnique(ts: seq<Tensor>, i: nat)
    requires i <= |ts|
    requires forall k | 0 <= k < i :: !Protocol.Empty(ts[k])
    requires i < |ts| ==> Protocol.Empty(ts[i])
    ensures i == FirstEmpty(ts)
  {
  }

  /** `for (auto& M : matrices) if (M.empty()) return ...`: where the scan stops. */
  method FindEmpty(ts: seq<Tensor>) returns (i: nat)
    ensures i == FirstEmpty(ts)
  {
    i := 0;
    while i < |ts| && !Protocol.Empty(ts[i])
      invariant i <= |ts|
      invariant forall k | 0 <= k < i :: !Protocol.Empty(ts[k])
    {
      i := i + 1;
    }
    FirstEmptyUnique(ts, i);
  }

  /** The failure message for an empty tensor. */
  function EmptyMsg(t: Tensor): string { t.name + " is empty" }

  // ---------------------------------------------------------------------------
  // The four handlers, as specifications
  // ---------------------------------------------------------------------------

  /** apply_vertex: z = h . w, pushed back to the graph server. */
  function VertexForward(c: Chunk, k: Kernels, r: Replies): Run {
    var c1 := [TensorsReq(DataSocket, ["h"])];
    var c2 := c1 + [TensorsReq(WeightsSocket, ["w"])];
    var i := FirstEmpty(r.data);
    var j := FirstEmpty(r.weights);
    if i < |r.data| then Run(Fail(c, EmptyMsg(r.data[i])), c1)
    else if j < |r.weights| then Run(Fail(c, EmptyMsg(r.weights[j])), c2)
    else if r.data == [] || r.weights == [] then Run(Fail(c, SERVER_ERROR), c2)
    else
      var z := Named(k.dot(r.data[0], r.weights[0]), "z");
      Run(if r.ret == -1 then Fail(c, ALREADY_DONE) else Done(c, FORWARD_DONE),
          c2 + [TensorsSent([z])])
  }

  /**
   * The weights apply_vertex_backward indexes: three of them, unless the
   * reply is empty or holds an empty tensor, when it stops before indexing.
   */
  predicate WeightsIndexable(ws: seq<Tensor>) {
    ws == [] || FirstEmpty(ws) < |ws| || |ws| >= 3
  }

  /** The data tensor apply_vertex_backward asks for on the given layer kind. */
  function BackwardDataName(firstLayer: bool): Name {
    if firstLayer then "h" else "ah"
  }

  /** H: the "h" tensor itself on the first layer, tanh("ah") otherwise. */
  function BackwardInput(firstLayer: bool, k: Kernels, d: Tensor): Tensor {
    if firstLayer then d else k.tanh(d)
  }

  /** apply_vertex_backward: z = H . w, az_i = z . a_i, az_j = z . a_j. */
  function VertexBackward(c: Chunk, firstLayer: bool, k: Kernels, r: Replies): Run
    requires WeightsIndexable(r.weights)
  {
    var c1 := [TensorsReq(DataSocket, [BackwardDataName(firstLayer)])];
    var c2 := c1 + [TensorsReq(WeightsSocket, ["w", "a_i", "a_j"])];
    var i := FirstEmpty(r.data);
    var j := FirstEmpty(r.weights);
    if i < |r.data| then Run(Fail(c, EmptyMsg(r.data[i])), c1)
    else if j < |r.weights| then Run(Fail(c, EmptyMsg(r.weights[j])), c2)
    else if r.data == [] || r.weights == [] then Run(Fail(c, SERVER_ERROR), c2)
    else
      var h := BackwardInput(firstLayer, k, r.data[0]);
      var z := Named(k.dot(h, r.weights[0]), "z");
      var azi := Named(k.dot(z, r.weights[1]), "az_i");
      var azj := Named(k.dot(z, r.weights[2]), "az_j");
      Run(if r.ret == -1 then Fail(c, ALREADY_DONE) else Done(c, FORWARD_DONE),
          c2 + [TensorsSent([z, azi, azj])])
  }

  /** apply_edge: A = leakyReLU(edgeMatMul(eInfo, z, a_i)), pushed back. */
  function EdgeForward(c: Chunk, s: Sentinels, k: Kernels, r: Replies): Run {
    var c0 := [EdgeInfoReq];
    var e := EdgeInfoError(s, r.eInfo.numLvids);
    if e.Some? then Run(Fail(c, e.value), c0)
    else
      var c1 := c0 + [TensorsReq(DataSocket, ["z"])];
      var c2 := c1 + [TensorsReq(WeightsSocket, ["a_i"])];
      var i := FirstEmpty(r.data);
      var j := FirstEmpty(r.weights);
      if i < |r.data| then Run(Fail(c, EmptyMsg(r.data[i])), c1)
      else if j < |r.weights| then Run(Fail(c, EmptyMsg(r.weights[j])), c2)
      else if r.data == [] || r.weights == [] then Run(Fail(c, SERVER_ERROR), c2)
      else
        var az := Named(k.edgeMatMul(r.eInfo, r.data[0], r.weights[0]), "az");
        var a := Named(k.leakyReLU(az), "A");
        Run(Done(c, EDGE_DONE), c2 + [TensorsSent([a])])
  }

  /** apply_edge_backward: fetches az, z, grad and a_i, sends nothing. */
  function EdgeBackward(c: Chunk, s: Sentinels, r: Replies): Run {
    var e := EdgeInfoError(s, r.eInfo.numLvids);
    if e.Some? then Run(Fail(c, e.value), [EdgeInfoReq])
    else Run(Done(c, EDGE_BACKWARD_DONE),
             [EdgeInfoReq, EdgeTensorReq("az"), TensorsReq(DataSocket, ["z", "grad"]),
              TensorsReq(WeightsSocket, ["a_i"])])
  }

  // ---------------------------------------------------------------------------
  // The four handlers, as the source runs them
  // ---------------------------------------------------------------------------

  /** apply_vertex(data_socket, weights_socket, chunk) */
  method ApplyVertex(c: Chunk, k: Kernels, r: Replies) returns (run: Run)
    ensures run == VertexForward(c, k, r)
  {
    var calls := [TensorsReq(DataSocket, ["h"])];
    var matrices := r.data;
    var i := FindEmpty(matrices);
    if i < |matrices| {
      return Run(Fail(c, EmptyMsg(matrices[i])), calls);
    }
    calls := calls + [TensorsReq(WeightsSocket, ["w"])];
    var weights := r.weights;
    var j := FindEmpty(weights);
    if j < |weights| {
      return Run(Fail(c, EmptyMsg(weights[j])), calls);
    }
    if |matrices| == 0 || |weights| == 0 {
      return Run(Fail(c, SERVER_ERROR), calls);
    }
    var z := Named(k.dot(matrices[0], weights[0]), "z");
    var toSend: seq<Tensor> := [];
    toSend := toSend + [z];
    assert toSend == [z];
    calls := calls + [TensorsSent(toSend)];
    if r.ret == -1 {
      run := Run(Fail(c, ALREADY_DONE), calls);
    } else {
      run := Run(Done(c, FORWARD_DONE), calls);
    }
  }

  /** apply_vertex_backward(data_socket, weights_socket, chunk) */
  method ApplyVertexBackward(c: Chunk, firstLayer: bool, k: Kernels, r: Replies) returns (run: Run)
    requires WeightsIndexable(r.weights)
    ensures run == VertexBackward(c, firstLayer, k, r)
  {
    var calls := [TensorsReq(DataSocket, [BackwardDataName(firstLayer)])];
    var matrices := r.data;
    var i := FindEmpty(matrices);
    if i < |matrices| {
      return Run(Fail(c, EmptyMsg(matrices[i])), calls);
    }
    calls := calls + [TensorsReq(WeightsSocket, ["w", "a_i", "a_j"])];
    var weights := r.weights;
    var j := FindEmpty(weights);
    if j < |weights| {
      return Run(Fail(c, EmptyMsg(weights[j])), calls);
    }
    if |matrices| == 0 || |weights| == 0 {
      return Run(Fail(c, SERVER_ERROR), calls);
    }
    var h := matrices[0];
    if !firstLayer {
      h := k.tanh(h);
    }
    var z := Named(k.dot(h, weights[0]), "z");
    var azi := Named(k.dot(z, weights[1]), "az_i");
    var azj := Named(k.dot(z, weights[2]), "az_j");
    var toSend: seq<Tensor> := [];
    toSend := toSend + [z];
    toSend := toSend + [azi];
    toSend := toSend + [azj];
    assert toSend == [z, azi, azj];
    calls := calls + [TensorsSent(toSend)];
    if r.ret == -1 {
      run := Run(Fail(c, ALREADY_DONE), calls);
    } else {
      run := Run(Done(c, FORWARD_DONE), calls);
    }
  }

  /** apply_edge(data_socket, weights_socket, chunk) */
  method ApplyEdge(c: Chunk, s: Sentinels, k: Kernels, r: Replies) returns (run: Run)
    ensures run == EdgeForward(c, s, k, r)
  {
    var calls := [EdgeInfoReq];
    var e := EdgeInfoError(s, r.eInfo.numLvids);
    if e.Some? {
      return Run(Fail(c, e.value), calls);
    }
    calls := calls + [TensorsReq(DataSocket, ["z"])];
    var matrices := r.data;
    var i := FindEmpty(matrices);
    if i < |matrices| {
      return Run(Fail(c, EmptyMsg(matrices[i])), calls);
    }
    calls := calls + [TensorsReq(WeightsSocket, ["a_i"])];
    var weights := r.weights;
    var j := FindEmpty(weights);
    if j < |weights| {
      return Run(Fail(c, EmptyMsg(weights[j])), calls);
    }
    if |matrices| == 0 || |weights| == 0 {
      return Run(Fail(c, SERVER_ERROR), calls);
    }
    var az := Named(k.edgeMatMul(r.eInfo, matrices[0], weights[0]), "az");
    var a := Named(k.leakyReLU(az), "A");
    var toSend: seq<Tensor> := [];
    toSend := toSend + [a];
    assert toSend == [a];
    calls := calls + [TensorsSent(toSend)];
    run := Run(Done(c, EDGE_DONE), calls);
  }

  /** apply_edge_backward(data_socket, weights_socket, chunk) */
  method ApplyEdgeBackward(c: Chunk, s: Sentinels, r: Replies) returns (run: Run)
    ensures run == EdgeBackward(c, s, r)
  {
    var calls := [EdgeInfoReq];
    var e := EdgeInfoError(s, r.eInfo.numLvids);
    if e.Some? {
      return Run(Fail(c, e.value), calls);
    }
    calls := calls + [EdgeTensorReq("az")];
    calls := calls + [TensorsReq(DataSocket, ["z", "grad"])];
    calls := calls + [TensorsReq(WeightsSocket, ["a_i"])];
    run := Run(Done(c, EDGE_BACKWARD_DONE), calls);
  }

  // ---------------------------------------------------------------------------
  // Dispatch
  // ---------------------------------------------------------------------------

  datatype Handler = ApplyVertexH | ApplyVertexBackwardH | ApplyEdgeH | ApplyEdgeBackwardH

  /** apply_phase's choice of handler from (vertex, dir). */
  function Route(c: Chunk): (h: Handler)
    ensures h == ApplyVertexH <==> c.vertex && c.dir == FORWARD
    ensures h == ApplyVertexBackwardH <==> c.vertex && c.dir == BACKWARD
    ensures h == ApplyEdgeH <==> !c.vertex && c.dir == FORWARD
    ensures h == ApplyEdgeBackwardH <==> c.dir != FORWARD && (!c.vertex || c.dir != BACKWARD)
  {
    if c.vertex && c.dir == FORWARD then ApplyVertexH
    else if c.vertex && c.dir == BACKWARD then ApplyVertexBackwardH
    else if !c.vertex && c.dir == FORWARD then ApplyEdgeH
    else ApplyEdgeBackwardH
  }

  /** What the chosen handler does. */
  function Handle(c: Chunk, firstLayer: bool, s: Sentinels, k: Kernels, r: Replies): (run: Run)
    requires WeightsIndexable(r.weights)
    ensures run.resp.localId == c.localId && run.calls != []
  {
    match Route(c)
    case ApplyVertexH => VertexForward(c, k, r)
    case ApplyVertexBackwardH => VertexBackward(c, firstLayer, k, r)
    case ApplyEdgeH => EdgeForward(c, s, k, r)
    case ApplyEdgeBackwardH => EdgeBackward(c, s, r)
  }

  /** The tensors each handler pushes back, by name. */
  function SentNames(h: Handler): seq<Name> {
    match h
    case ApplyVertexH => ["z"]
    case ApplyVertexBackwardH => ["z", "az_i", "az_j"]
    case ApplyEdgeH => ["A"]
    case ApplyEdgeBackwardH => []
  }

  /** No call of the list pushes tensors. */
  predicate NoSend(calls: seq<Call>) {
    forall i | 0 <= i < |calls| :: !calls[i].TensorsSent?
  }

  /** Whether the handler's checks all pass: no sentinel, no empty tensor, both replies present. */
  predicate ChecksPass(h: Handler, s: Sentinels, r: Replies) {
    (h == ApplyEdgeH || h == ApplyEdgeBackwardH ==> EdgeInfoError(s, r.eInfo.numLvids).None?) &&
    (h != ApplyEdgeBackwardH ==>
      Protocol.NoneEmpty(r.data) && Protocol.NoneEmpty(r.weights) && r.data != [] && r.weights != [])
  }

  /**
   * The calls of a run that pushes `names` exactly when `pass` holds: then
   * the push is its last call and the only one; otherwise nothing is pushed.
   */
  predicate SendShape(calls: seq<Call>, names: seq<Name>, pass: bool) {
    (pass ==>
      calls != [] && calls[|calls| - 1].TensorsSent? &&
      Names(calls[|calls| - 1].tensors) == names && NoSend(calls[..|calls| - 1])) &&
    (!pass ==> NoSend(calls))
  }

  /**
   * apply_vertex pushes ["z"] exactly when its checks pass, and then answers
   * success unless sendTensors returned -1.
   */
  lemma VertexForwardSends(c: Chunk, s: Sentinels, k: Kernels, r: Replies)
    ensures var run := VertexForward(c, k, r);
      var pass := ChecksPass(ApplyVertexH, s, r);
      SendShape(run.calls, ["z"], pass) &&
      (pass ==> (run.resp.success <==> r.ret != -1) &&
                run.resp.msg == (if r.ret == -1 then ALREADY_DONE else FORWARD_DONE))
  {
    var run := VertexForward(c, k, r);
    if ChecksPass(ApplyVertexH, s, r) {
      assert FirstEmpty(r.data) == |r.data| && FirstEmpty(r.weights) == |r.weights|;
      assert run.calls[..|run.calls| - 1] == [TensorsReq(DataSocket, ["h"]), TensorsReq(WeightsSocket, ["w"])];
    }
  }

  /**
   * apply_vertex_backward pushes ["z", "az_i", "az_j"] exactly when its
   * checks pass, then answers success unless sendTensors returned -1; z is
   * H . w with H the "h" tensor on the first layer and tanh("ah") otherwise.
   */
  lemma VertexBackwardSends(c: Chunk, firstLayer: bool, s: Sentinels, k: Kernels, r: Replies)
    requires WeightsIndexable(r.weights)
    ensures var run := VertexBackward(c, firstLayer, k, r);
      var pass := ChecksPass(ApplyVertexBackwardH, s, r);
      run.calls[0] == TensorsReq(DataSocket, [BackwardDataName(firstLayer)]) &&
      SendShape(run.calls, ["z", "az_i", "az_j"], pass) &&
      (pass ==> (run.resp.success <==> r.ret != -1) &&
                run.resp.msg == (if r.ret == -1 then ALREADY_DONE else FORWARD_DONE) &&
                run.calls[|run.calls| - 1].tensors[0] ==
                  Named(k.dot(BackwardInput(firstLayer, k, r.data[0]), r.weights[0]), "z"))
  {
    var run := VertexBackward(c, firstLayer, k, r);
    if ChecksPass(ApplyVertexBackwardH, s, r) {
      assert FirstEmpty(r.data) == |r.data| && FirstEmpty(r.weights) == |r.weights|;
      assert run.calls[..|run.calls| - 1] ==
        [TensorsReq(DataSocket, [BackwardDataName(firstLayer)]), TensorsReq(WeightsSocket, ["w", "a_i", "a_j"])];
    }
  }

  /** apply_edge pushes ["A"] exactly when its checks pass, and then always answers success. */
  lemma EdgeForwardSends(c: Chunk, s: Sentinels, k: Kernels, r: Replies)
    ensures var run := EdgeForward(c, s, k, r);
      var pass := ChecksPass(ApplyEdgeH, s, r);
      SendShape(run.calls, ["A"], pass) &&
      (pass ==> run.resp == Done(c, EDGE_DONE)) &&
      (!pass ==> !run.resp.success)
  {
    var run := EdgeForward(c, s, k, r);
    if ChecksPass(ApplyEdgeH, s, r) {
      assert FirstEmpty(r.data) == |r.data| && FirstEmpty(r.weights) == |r.weights|;
      assert run.calls[..|run.calls| - 1] ==
        [EdgeInfoReq, TensorsReq(DataSocket, ["z"]), TensorsReq(WeightsSocket, ["a_i"])];
    }
  }

  /**
   * apply_edge_backward never pushes; it succeeds exactly when no sentinel
   * matches, whatever the replies hold.
   */
  lemma EdgeBackwardNeverSends(c: Chunk, s: Sentinels, r: Replies)
    ensures var run := EdgeBackward(c, s, r);
      NoSend(run.calls) &&
      (run.resp.success <==> ChecksPass(ApplyEdgeBackwardH, s, r))
  {
  }

  /**
   * Every handler pushes the tensors SentNames names exactly when its checks
   * pass, once and as its last call; apply_edge_backward never pushes.
   */
  lemma SendsOnlyAfterChecks(c: Chunk, firstLayer: bool, s: Sentinels, k: Kernels, r: Replies)
    requires WeightsIndexable(r.weights)
    ensures var h := Route(c);
      SendShape(Handle(c, firstLayer, s, k, r).calls, SentNames(h), h != ApplyEdgeBackwardH && ChecksPass(h, s, r))
  {
    match Route(c)
    case ApplyVertexH => VertexForwardSends(c, s, k, r);
    case ApplyVertexBackwardH => VertexBackwardSends(c, firstLayer, s, k, r);
    case ApplyEdgeH => EdgeForwardSends(c, s, k, r);
    case ApplyEdgeBackwardH => EdgeBackwardNeverSends(c, s, r);
  }

  /**
   * An empty tensor in a reply ends every handler but apply_edge_backward
   * with failure "<name> is empty", naming the first empty tensor of the
   * data reply, or of the weights reply when the data reply has none.
   */
  lemma EmptyTensorFails(c: Chunk, firstLayer: bool, s: Sentinels, k: Kernels, r: Replies)
    requires WeightsIndexable(r.weights)
    requires Route(c) != ApplyEdgeBackwardH
    requires Route(c) == ApplyEdgeH ==> EdgeInfoError(s, r.eInfo.numLvids).None?
    requires !Protocol.NoneEmpty(r.data) || !Protocol.NoneEmpty(r.weights)
    ensures var run := Handle(c, firstLayer, s, k, r);
      !run.resp.success &&
      run.resp.msg == EmptyMsg(if !Protocol.NoneEmpty(r.data) then r.data[FirstEmpty(r.data)]
                               else r.weights[FirstEmpty(r.weights)])
  {
  }

  /** With an empty data reply, apply_vertex_backward answers the server-error failure and pushes nothing. */
  lemma VertexBackwardEmptyReply(c: Chunk, firstLayer: bool, k: Kernels, r: Replies)
    requires WeightsIndexable(r.weights) && r.data == []
    ensures var run := VertexBackward(c, firstLayer, k, r);
      NoSend(run.calls) &&
      run.resp == Fail(c, if FirstEmpty(r.weights) < |r.weights| then EmptyMsg(r.weights[FirstEmpty(r.weights)])
                          else SERVER_ERROR)
  {
  }

  /**
   * apply_vertex_backward as written reads H from matrices[0] right after
   * the emptiness scan and before the check that the reply holds a tensor.
   * The result is the tensor that read yields, None when the read is out of
   * range.
   */
  function AsWrittenBackwardInput(firstLayer: bool, k: Kernels, data: seq<Tensor>): (h: Option<Tensor>)
    requires FirstEmpty(data) == |data|
    ensures h.None? <==> data == []
    ensures h.Some? ==> h.value == BackwardInput(firstLayer, k, data[0])
  {
    if data == [] then None else Some(BackwardInput(firstLayer, k, data[0]))
  }

  /**
   * An empty data reply passes the emptiness scan, so the read of H as
   * written is out of range, although the handler later checks for that very
   * reply (VertexBackwardEmptyReply gives the answer that check intends).
   */
  lemma AsWrittenReadsEmptyReply(firstLayer: bool, k: Kernels)
    ensures FirstEmpty([]) == 0
    ensures AsWrittenBackwardInput(firstLayer, k, []) == None
  {
  }

  // ---------------------------------------------------------------------------
  // The socket identity
  // ---------------------------------------------------------------------------

  /** Bytes before the data server's name in the identity: localId, layer, a random word. */
  const IDENTITY_HEAD: nat := 3 * SLOT_SIZE

  /** The identity both sockets present. */
  function Identity(localId: u32, layer: u32, rnd: u32, dataserver: Name): (id: seq<byte>)
    ensures |id| == IDENTITY_HEAD + |dataserver|
  {
    EncodeLE(localId, SLOT_SIZE) + EncodeLE(layer, SLOT_SIZE) + EncodeLE(rnd, SLOT_SIZE) + ToBytes(dataserver)
  }

  /**
   * The identity decodes back to the chunk's local id, its layer and the
   * random word, followed by the data server's name.
   */
  lemma IdentityLayout(localId: u32, layer: u32, rnd: u32, dataserver: Name)
    ensures var id := Identity(localId, layer, rnd, dataserver);
      ParseSlot(id, 0) == localId && ParseSlot(id, 1) == layer && ParseSlot(id, 2) == rnd &&
      id[IDENTITY_HEAD..] == ToBytes(dataserver) &&
      (ByteString(dataserver) ==> ToChars(id[IDENTITY_HEAD..]) == dataserver)
  {
    var id := Identity(localId, layer, rnd, dataserver);
    SlotRange();
    DecodeEncode(localId, SLOT_SIZE);
    DecodeEncode(layer, SLOT_SIZE);
    DecodeEncode(rnd, SLOT_SIZE);
    assert id[0..4] == EncodeLE(localId, SLOT_SIZE);
    assert id[4..8] == EncodeLE(layer, SLOT_SIZE);
    assert id[8..12] == EncodeLE(rnd, SLOT_SIZE);
    ParseSlotIsDecode(id, 0);
    ParseSlotIsDecode(id, 1);
    ParseSlotIsDecode(id, 2);
    assert id[IDENTITY_HEAD..] == ToBytes(dataserver);
    if ByteString(dataserver) {
      CharsOfBytes(dataserver);
    }
  }

  /** The buffer after the three word copies. */
  function IdentityWords(localId: u32, layer: u32, rnd: u32, n: nat): (b: seq<byte>)
    requires IDENTITY_HEAD <= n
    ensures |b| == n
  {
    WriteSlot(WriteSlot(WriteSlot(Zeros(n), 0, localId), 1, layer), 2, rnd)
  }

  /** The three word copies put the three words' images at the front. */
  lemma IdentityWordsHead(localId: u32, layer: u32, rnd: u32, n: nat)
    requires IDENTITY_HEAD <= n
    ensures IdentityWords(localId, layer, rnd, n)[..IDENTITY_HEAD] ==
      EncodeLE(localId, SLOT_SIZE) + EncodeLE(layer, SLOT_SIZE) + EncodeLE(rnd, SLOT_SIZE)
  {
    var b0 := WriteSlot(Zeros(n), 0, localId);
    var b1 := WriteSlot(b0, 1, layer);
    var b2 := WriteSlot(b1, 2, rnd);
    WriteSlotAt(Zeros(n), 0, localId);
    WriteSlotAt(b0, 1, layer);
    WriteSlotAt(b1, 2, rnd);
    assert b2[0..4] == b1[0..4] == b0[0..4];
    assert b2[4..8] == b1[4..8];
    assert b2[..IDENTITY_HEAD] == b2[0..4] + b2[4..8] + b2[8..12];
  }

  /** Copying the name's bytes behind the words gives the identity. */
  lemma IdentityOfBuffer(localId: u32, layer: u32, rnd: u32, dataserver: Name)
    ensures var n := IDENTITY_HEAD + |dataserver|;
      WriteBytes(IdentityWords(localId, layer, rnd, n), IDENTITY_HEAD, ToBytes(dataserver)) ==
      Identity(localId, layer, rnd, dataserver)
  {
    var n := IDENTITY_HEAD + |dataserver|;
    var w := IdentityWords(localId, layer, rnd, n);
    IdentityWordsHead(localId, layer, rnd, n);
    var id := WriteBytes(w, IDENTITY_HEAD, ToBytes(dataserver));
    assert id[..IDENTITY_HEAD] == w[..IDENTITY_HEAD];
    assert id == id[..IDENTITY_HEAD] + id[IDENTITY_HEAD..];
  }

  /** The identity buffer: three memcpy'd words, then the name's bytes. */
  method BuildIdentity(localId: u32, layer: u32, rnd: u32, dataserver: Name) returns (identity: seq<byte>)
    ensures identity == Identity(localId, layer, rnd, dataserver)
  {
    var n := IDENTITY_HEAD + |dataserver|;
    var buf := NewBuffer(n);
    Serialize(buf, 0, localId);
    Serialize(buf, 1, layer);
    Serialize(buf, 2, rnd);
    ghost var head := buf[..];
    assert head == IdentityWords(localId, layer, rnd, n);
    CopyBytes(buf, IDENTITY_HEAD, ToBytes(dataserver));
    identity := buf[..];
    IdentityOfBuffer(localId, layer, rnd, dataserver);
  }

  // ---------------------------------------------------------------------------
  // apply_phase and my_handler
  // ---------------------------------------------------------------------------

  /**
   * apply_phase: builds the identity, then either answers the failure met
   * while setting up the sockets (`setupError`, the exception's message) or
   * runs the handler Route picks. `firstLayer` is chunk.isFirstLayer().
   */
  method ApplyPhase(dataserver: Name, c: Chunk, rnd: u32, setupError: Option<string>, firstLayer: bool,
                    s: Sentinels, k: Kernels, r: Replies)
    returns (identity: seq<byte>, run: Run)
    requires WeightsIndexable(r.weights)
    ensures identity == Identity(c.localId, c.layer, rnd, dataserver)
    ensures setupError.Some? ==> run == Run(Fail(c, setupError.value), [])
    ensures setupError.None? ==> run == Handle(c, firstLayer, s, k, r)
  {
    identity := BuildIdentity(c.localId, c.layer, rnd, dataserver);
    if setupError.Some? {
      return identity, Run(Fail(c, setupError.value), []);
    }
    if c.vertex && c.dir == FORWARD {
      run := ApplyVertex(c, k, r);
    } else if c.vertex && c.dir == BACKWARD {
      run := ApplyVertexBackward(c, firstLayer, k, r);
    } else if !c.vertex && c.dir == FORWARD {
      run := ApplyEdge(c, s, k, r);
    } else {
      run := ApplyEdgeBackward(c, s, r);
    }
  }

  /** The integer fields of the invocation's JSON payload, by key. */
  type Payload = map<string, int>

  /** The keys my_handler reads into the chunk. */
  const CHUNK_KEYS: set<string> := {"id", "gid", "lb", "ub", "layer", "dir", "epoch", "vtx"}

  /** my_handler's chunk: each integer field stored into its unsigned chunk field. */
  function ChunkOfPayload(p: Payload): (c: Chunk)
    requires CHUNK_KEYS <= p.Keys
    ensures c.vertex <==> p["vtx"] != 0
    ensures (c.localId - p["id"]) % 0x1_0000_0000 == 0 && (c.globalId - p["gid"]) % 0x1_0000_0000 == 0
    ensures (c.lowBound - p["lb"]) % 0x1_0000_0000 == 0 && (c.upBound - p["ub"]) % 0x1_0000_0000 == 0
    ensures (c.layer - p["layer"]) % 0x1_0000_0000 == 0 && (c.dir - p["dir"]) % 0x1_0000_0000 == 0
    ensures (c.epoch - p["epoch"]) % 0x1_0000_0000 == 0
  {
    Chunk(ToU32(p["id"]), ToU32(p["gid"]), ToU32(p["lb"]), ToU32(p["ub"]),
          ToU32(p["layer"]), ToU32(p["dir"]), ToU32(p["epoch"]), p["vtx"] != 0)
  }

  /** The payload that describes a chunk, as the graph server's launcher would write it. */
  function PayloadOf(c: Chunk): (p: Payload)
    ensures CHUNK_KEYS <= p.Keys
  {
    map["id" := c.localId as int, "gid" := c.globalId as int, "lb" := c.lowBound as int,
        "ub" := c.upBound as int, "layer" := c.layer as int, "dir" := c.dir as int,
        "epoch" := c.epoch as int, "vtx" := if c.vertex then 1 else 0]
  }

  /** Every chunk survives the trip through its payload. */
  lemma ChunkPayloadRoundTrip(c: Chunk)
    ensures ChunkOfPayload(PayloadOf(c)) == c
  {
    var p := PayloadOf(c);
    assert p["id"] == c.localId && p["gid"] == c.globalId && p["lb"] == c.lowBound;
    assert p["ub"] == c.upBound && p["layer"] == c.layer && p["dir"] == c.dir;
    assert p["epoch"] == c.epoch && (p["vtx"] != 0 <==> c.vertex);
  }

  /**
   * my_handler: reads the chunk from the payload and runs apply_phase with
   * it. The server addresses, ports and the eval flag only reach the socket
   * set-up, which is not part of this model.
   */
  method MyHandler(payload: Payload, dataserver: Name, rnd: u32, setupError: Option<string>, firstLayer: bool,
                   s: Sentinels, k: Kernels, r: Replies)
    returns (identity: seq<byte>, run: Run)
    requires CHUNK_KEYS <= payload.Keys
    requires WeightsIndexable(r.weights)
    ensures var c := ChunkOfPayload(payload);
      identity == Identity(c.localId, c.layer, rnd, dataserver) &&
      (setupError.Some? ==> run == Run(Fail(c, setupError.value), [])) &&
      (setupError.None? ==> run == Handle(c, firstLayer, s, k, r))
  {
    var c := ChunkOfPayload(payload);
    identity, run := ApplyPhase(dataserver, c, rnd, setupError, firstLayer, s, k, r);
  }
}
