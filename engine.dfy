/**
 * The bookkeeping of the graph server's engine
 * (src/graph-server/engine/engine.cpp): how `init` sizes its per-layer and
 * per-epoch containers and sets up the weight communicator and the lambda
 * name, what `destroy` releases, how `run` dispatches on the GNN type, and
 * the thread pools and final message drain of `runPipeline`.
 *
 * What init reads from files and from the node manager (this node's id, the
 * cluster size, the layer configuration) arrives as parameters; the parsed
 * command-line options are the engine's constants. Threads are recorded by
 * the argument each one is started with.
 */
module Engine {
  import opened Wire
  import opened Wrappers
  import Decimal
  import Protocol
  import opened ResourceComm

  /** The GNN kinds: GCN, GAT, or any other value of the option. */
  datatype GNN = GCN | GAT | OtherGnn(code: int)

  /** The weight communicator of node 0: its chunk count and whether it was shut down. */
  datatype WeightComm = WeightComm(chunkCnt: u32, shutDown: bool)

  /** What run() does, in order. */
  datatype Event = PreallocatedGCN | PreallocatedGAT | UnrecognizedBenchmark | PipelineRun | UnsupportedGnn

  /** The threads runPipeline starts, each by the id it is given. */
  datatype Pools = Pools(gather: seq<nat>, applyVertex: seq<nat>, scatter: seq<nat>,
                         ghostRecv: seq<nat>, applyEdge: seq<nat>, scheduler: seq<nat>)

  /** The six per-layer timing vectors. */
  datatype Timers = Timers(aggregate: seq<real>, applyVtx: seq<real>, scatter: seq<real>,
                           applyEdg: seq<real>, lambdaInvoke: seq<real>, lambdaWait: seq<real>)

  /** Each timing vector extended by z. */
  function AppendTimers(t: Timers, z: seq<real>): (r: Timers)
    ensures |r.aggregate| == |t.aggregate| + |z| && |r.lambdaWait| == |t.lambdaWait| + |z|
  {
    Timers(t.aggregate + z, t.applyVtx + z, t.scatter + z, t.applyEdg + z, t.lambdaInvoke + z, t.lambdaWait + z)
  }

  /** Zeros for the per-layer timers: two per layer, forward and backward. */
  function TimerZeros(numLayers: nat): (z: seq<real>)
    ensures |z| == 2 * numLayers && forall i | 0 <= i < |z| :: z[i] == 0.0
  {
    seq(2 * numLayers, _ => 0.0)
  }

  /** The timing loop of init: every vector gains 2 * numLayers zero entries, one push at a time. */
  method PushTimers(t: Timers, numLayers: nat) returns (r: Timers)
    ensures r == AppendTimers(t, TimerZeros(numLayers))
  {
    r := t;
    var i := 0;
    while i < 2 * numLayers
      invariant i <= 2 * numLayers
      invariant r == AppendTimers(t, seq(i, _ => 0.0))
    {
      assert seq(i + 1, _ => 0.0) == seq(i, _ => 0.0) + [0.0];
      r := Timers(r.aggregate + [0.0], r.applyVtx + [0.0], r.scatter + [0.0],
                  r.applyEdg + [0.0], r.lambdaInvoke + [0.0], r.lambdaWait + [0.0]);
      i := i + 1;
    }
  }

  /** A message still buffered by the communication manager: sender, topic, bytes. */
  datatype Msg = Msg(sender: u32, topic: u32, body: seq<byte>)

  /** The staleness value that switches bounded staleness off. */
  const UINT_MAX: u32 := 0xFFFF_FFFF
  /** The largest cluster the engine accepts. */
  const MAX_NODES: nat := 256

  /** The lambda function's name for a GNN kind. */
  function LambdaName(g: GNN): (s: string)
    ensures g.GCN? ==> s == "gcn"
    ensures g.GAT? ==> s == "gat"
    ensures g.OtherGnn? ==> s == "invalid_lambda_name"
  {
    match g
    case GCN => "gcn"
    case GAT => "gat"
    case OtherGnn(_) => "invalid_lambda_name"
  }

  /** The lambda names of different kinds differ unless both are invalid. */
  lemma LambdaNameIdentifies(g: GNN, h: GNN)
    requires !g.OtherGnn? && LambdaName(g) == LambdaName(h)
    ensures g == h
  {
    assert "gcn" != "gat" && "gcn" != "invalid_lambda_name" && "gat" != "invalid_lambda_name";
  }

  /** vector::resize(n): the first elements kept, new ones default-constructed. */
  function Resize<T>(v: seq<T>, n: nat, fill: T): (r: seq<T>)
    ensures |r| == n
    ensures forall i | 0 <= i < n && i < |v| :: r[i] == v[i]
    ensures forall i | |v| <= i < n :: r[i] == fill
  {
    if n <= |v| then v[..n] else v + seq(n - |v|, _ => fill)
  }

  /** What run() does for a GNN kind: preallocate, then the pipeline for GCN and GAT only. */
  function RunEvents(g: GNN): (es: seq<Event>)
    ensures |es| == 2
  {
    var pre := match g
      case GCN => PreallocatedGCN
      case GAT => PreallocatedGAT
      case OtherGnn(_) => UnrecognizedBenchmark;
    [pre, if g.GCN? || g.GAT? then PipelineRun else UnsupportedGnn]
  }

  /** The pipeline runs exactly for GCN and GAT, after their tensors are preallocated. */
  lemma PipelineOnlyForGcnGat(g: GNN)
    ensures PipelineRun in RunEvents(g) <==> g.GCN? || g.GAT?
    ensures RunEvents(g)[0] == UnrecognizedBenchmark <==> g.OtherGnn?
  {
    assert RunEvents(g)[0] != PipelineRun;
  }

  /** Starts `count` threads with ids base, base + 1, ... */
  method Spawn(count: nat, base: nat) returns (tids: seq<nat>)
    ensures |tids| == count
    ensures forall i | 0 <= i < count :: tids[i] == base + i
  {
    tids := [];
    var tid := 0;
    while tid < count
      invariant tid <= count && |tids| == tid
      invariant forall i | 0 <= i < tid :: tids[i] == base + i
    {
      tids := tids + [base + tid];
      tid := tid + 1;
    }
  }

  /** This node's place in the cluster and the model's shape. */
  datatype Node = Node(nodeId: nat, numNodes: nat, outFile: string, layerConfig: seq<nat>, numLayers: nat)

  /** The tensors saved during the forward phase, one map per layer slot. */
  datatype Saved = Saved(nn: seq<map<string, Protocol.Tensor>>, edge: seq<map<string, seq<int>>>)

  /** The per-epoch completion counters of bounded staleness. */
  datatype Epochs = Epochs(nodesFinished: seq<nat>, numFinished: seq<nat>)

  /** The engine's communicators and the lambda name. */
  datatype Comms = Comms(recvCnt: nat, weightComm: Option<WeightComm>, lambdaName: string,
                         resComm: Option<Backend>)

  /** What destroy released: per layer, the names of the NN tensors freed and of the edge tensors deleted. */
  datatype Released = Released(freedNN: seq<set<string>>, deletedEdge: seq<set<string>>)

  /** The pipeline's record: what run did, the threads, and the message buffer. */
  datatype Pipeline = Pipeline(events: seq<Event>, halt: bool, pools: Pools, inbox: seq<Msg>,
                               drained: seq<Msg>, cleanupLogged: bool)

  /** The epoch counters after init: staleness + 1 slots each, unless staleness is off. */
  function EpochsAfterInit(e: Epochs, staleness: u32): (r: Epochs)
    ensures staleness == UINT_MAX ==> r == e
    ensures staleness != UINT_MAX ==>
      |r.nodesFinished| == |r.numFinished| == staleness as nat + 1 &&
      (forall i | 0 <= i < |e.nodesFinished| && i <= staleness as nat :: r.nodesFinished[i] == e.nodesFinished[i]) &&
      (forall i | 0 <= i < |e.numFinished| && i <= staleness as nat :: r.numFinished[i] == e.numFinished[i])
  {
    if staleness == UINT_MAX then e
    else Epochs(Resize(e.nodesFinished, staleness as nat + 1, 0), Resize(e.numFinished, staleness as nat + 1, 0))
  }

  /** The weight communicator init gives a node: node 0 alone has one, for numNodes * numLambdasForward chunks. */
  function WeightCommFor(nodeId: nat, numNodes: nat, numLambdasForward: u32): (w: Option<WeightComm>)
    ensures w.Some? <==> nodeId == 0
    ensures w.Some? ==> !w.value.shutDown && (w.value.chunkCnt - numNodes * numLambdasForward) % 0x1_0000_0000 == 0
    ensures w.Some? && numNodes * numLambdasForward < 0x1_0000_0000 ==> w.value.chunkCnt == numNodes * numLambdasForward
  {
    if nodeId == 0 then Some(WeightComm(ToU32(numNodes * numLambdasForward), false)) else None
  }

  /**
   * The thread pools runPipeline starts: cThreads gather workers with ids
   * from 2, one apply-vertex, one apply-edge and one scheduler thread, and
   * dThreads scatter workers and ghost receivers.
   */
  predicate PoolsStarted(p: Pools, cThreads: nat, dThreads: nat) {
    |p.gather| == cThreads && (forall i | 0 <= i < cThreads :: p.gather[i] == 2 + i) &&
    p.applyVertex == [0] && p.applyEdge == [0] && p.scheduler == [0] &&
    |p.scatter| == dThreads && (forall i | 0 <= i < dThreads :: p.scatter[i] == i) &&
    |p.ghostRecv| == dThreads && (forall i | 0 <= i < dThreads :: p.ghostRecv[i] == i)
  }

  class Engine {
    // Options parsed from the command line.
    const staleness: u32
    const mode: Backend
    const gnnType: GNN
    /** The GPU count, which replaces numLambdasForward in a GPU build. */
    const ngpus: u32
    const dThreads: nat
    const cThreads: nat
    /** The backends this build was compiled with. */
    const compiled: set<Backend>

    /** Lambdas per forward pass: the parsed option until a GPU build's init sets it to ngpus. */
    var numLambdasForward: u32

    var node: Node
    var timers: Timers
    var saved: Saved
    var epochs: Epochs
    var comms: Comms
    var released: Released
    var pipeline: Pipeline

    /** An engine with parsed options and everything else empty. */
    constructor (staleness: u32, mode: Backend, gnnType: GNN, numLambdasForward: u32, ngpus: u32,
                 dThreads: nat, cThreads: nat, compiled: set<Backend>, outFile: string)
      ensures this.staleness == staleness && this.mode == mode && this.gnnType == gnnType
      ensures this.numLambdasForward == numLambdasForward && this.ngpus == ngpus && this.dThreads == dThreads
      ensures this.cThreads == cThreads && this.compiled == compiled
      ensures node == Node(0, 0, outFile, [], 0)
      ensures timers == Timers([], [], [], [], [], [])
      ensures saved == Saved([], []) && epochs == Epochs([], [])
      ensures comms == Comms(0, None, "", None) && released == Released([], [])
      ensures pipeline == Pipeline([], false, Pools([], [], [], [], [], []), [], [], false)
    {
      this.staleness := staleness;
      this.mode := mode;
      this.gnnType := gnnType;
      this.numLambdasForward := numLambdasForward;
      this.ngpus := ngpus;
      this.dThreads := dThreads;
      this.cThreads := cThreads;
      this.compiled := compiled;
      node := Node(0, 0, outFile, [], 0);
      timers := Timers([], [], [], [], [], []);
      saved := Saved([], []);
      epochs := Epochs([], []);
      comms := Comms(0, None, "", None);
      released := Released([], []);
      pipeline := Pipeline([], false, Pools([], [], [], [], [], []), [], [], false);
    }

    /**
     * Engine::init with the node manager's answers and the layer
     * configuration as parameters: the output file name gains the node id,
     * numLayers is one less than the configuration's length, the six timers
     * gain two zero entries per layer, the saved-tensor lists get
     * numLayers + 1 slots, the epoch counters get staleness + 1 slots unless
     * staleness is off, a GPU build counts ngpus lambdas per forward pass,
     * node 0 alone owns a weight communicator for that many chunks per node,
     * and a lambda build names its lambda after the GNN kind.
     */
    method Init(nodeId: nat, numNodes: nat, layerConfig: seq<nat>)
      requires numNodes <= MAX_NODES
      requires |layerConfig| >= 1
      modifies this
      ensures node == Node(nodeId, numNodes, old(node.outFile) + Decimal.NatToString(nodeId),
                           layerConfig, |layerConfig| - 1)
      ensures timers == AppendTimers(old(timers), TimerZeros(node.numLayers))
      ensures saved == Saved(Resize(old(saved.nn), node.numLayers + 1, map[]),
                             Resize(old(saved.edge), node.numLayers + 1, map[]))
      ensures epochs == EpochsAfterInit(old(epochs), staleness)
      ensures numLambdasForward == if GPU in compiled then ngpus else old(numLambdasForward)
      ensures comms == Comms(0, WeightCommFor(nodeId, numNodes, numLambdasForward),
                             if mode == LAMBDA && LAMBDA in compiled then LambdaName(gnnType) else old(comms.lambdaName),
                             if mode in compiled then Some(mode) else old(comms.resComm))
      ensures released == old(released) && pipeline == old(pipeline)
      ensures Destroyable()
    {
      var layers := |layerConfig| - 1;
      node := Node(nodeId, numNodes, node.outFile + Decimal.NatToString(nodeId), layerConfig, layers);
      timers := PushTimers(timers, layers);
      saved := Saved(Resize(saved.nn, layers + 1, map[]), Resize(saved.edge, layers + 1, map[]));
      if staleness != UINT_MAX {
        epochs := Epochs(Resize(epochs.nodesFinished, staleness as nat + 1, 0),
                         Resize(epochs.numFinished, staleness as nat + 1, 0));
      }
      if GPU in compiled {
        numLambdasForward := ngpus;
      }
      var c := comms.(recvCnt := 0);
      if nodeId == 0 {
        c := c.(weightComm := Some(WeightComm(ToU32(numNodes * numLambdasForward), false)));
      } else {
        c := c.(weightComm := None);
      }
      if mode == LAMBDA && LAMBDA in compiled {
        c := c.(lambdaName := LambdaName(gnnType));
      }
      if mode in compiled {
        c := c.(resComm := Some(mode));
      }
      comms := c;
    }

    /** What destroy relies on: a saved-tensor slot per layer, and node 0's weight communicator. */
    predicate Destroyable()
      reads this
    {
      node.numLayers <= |saved.nn| && (node.nodeId == 0 ==> comms.weightComm.Some?)
    }

    /** The names destroy frees in one layer's saved NN tensors: every one but "A". */
    static function FreedNames(m: map<string, Protocol.Tensor>): (s: set<string>)
      ensures "A" !in s
      ensures forall k | k in m && k != "A" :: k in s
      ensures s <= m.Keys
    {
      m.Keys - {"A"}
    }

    /** The names of one layer's saved NN tensors, freed one by one in the map's order. */
    static method FreeLayer(m: map<string, Protocol.Tensor>) returns (freed: set<string>)
      ensures freed == FreedNames(m)
    {
      freed := {};
      var todo := m.Keys;
      while todo != {}
        invariant todo <= m.Keys
        invariant freed == (m.Keys - todo) - {"A"}
        decreases todo
      {
        var k :| k in todo;
        if k != "A" {
          freed := freed + {k};
        }
        todo := todo - {k};
      }
    }

    /** The names of one layer's saved edge tensors, all deleted. */
    static method DeleteLayer(m: map<string, seq<int>>) returns (deleted: set<string>)
      ensures deleted == m.Keys
    {
      deleted := {};
      var todo := m.Keys;
      while todo != {}
        invariant todo <= m.Keys
        invariant deleted == m.Keys - todo
        decreases todo
      {
        var k :| k in todo;
        deleted := deleted + {k};
        todo := todo - {k};
      }
    }

    /**
     * Engine::destroy: node 0 shuts its weight communicator down, the
     * communicator is deleted, every saved NN tensor of layers
     * 0 .. numLayers - 1 but "A" is freed, and every saved edge tensor of
     * every slot is deleted.
     */
    method Destroy()
      requires Destroyable()
      modifies this
      ensures node == old(node) && saved == old(saved) && timers == old(timers) && epochs == old(epochs)
      ensures numLambdasForward == old(numLambdasForward) && pipeline == old(pipeline)
      ensures comms.recvCnt == old(comms.recvCnt) && comms.lambdaName == old(comms.lambdaName)
      ensures comms.weightComm ==
        if node.nodeId == 0 then Some(old(comms.weightComm).value.(shutDown := true)) else old(comms.weightComm)
      ensures comms.resComm == None
      ensures |released.freedNN| == node.numLayers
      ensures forall i | 0 <= i < node.numLayers :: released.freedNN[i] == FreedNames(saved.nn[i])
      ensures |released.deletedEdge| == |saved.edge|
      ensures forall i | 0 <= i < |saved.edge| :: released.deletedEdge[i] == saved.edge[i].Keys
    {
      if node.nodeId == 0 {
        comms := comms.(weightComm := Some(comms.weightComm.value.(shutDown := true)));
      }
      comms := comms.(resComm := None);
      ghost var c := comms;
      var freed: seq<set<string>> := [];
      var i := 0;
      while i < node.numLayers
        invariant i <= node.numLayers && |freed| == i
        invariant node == old(node) && saved == old(saved) && timers == old(timers)
        invariant epochs == old(epochs) && comms == c && numLambdasForward == old(numLambdasForward)
        invariant pipeline == old(pipeline)
        invariant forall j | 0 <= j < i :: freed[j] == FreedNames(saved.nn[j])
      {
        var names := FreeLayer(saved.nn[i]);
        freed := freed + [names];
        i := i + 1;
      }
      var deleted: seq<set<string>> := [];
      var j := 0;
      while j < |saved.edge|
        invariant j <= |saved.edge| && |deleted| == j
        invariant node == old(node) && saved == old(saved) && timers == old(timers)
        invariant epochs == old(epochs) && comms == c && numLambdasForward == old(numLambdasForward)
        invariant pipeline == old(pipeline)
        invariant forall l | 0 <= l < j :: deleted[l] == saved.edge[l].Keys
      {
        var names := DeleteLayer(saved.edge[j]);
        deleted := deleted + [names];
        j := j + 1;
      }
      released := Released(freed, deleted);
    }

    /**
     * runPipeline: starts cThreads gather workers (ids from 2), one
     * apply-vertex worker, dThreads scatter workers, dThreads ghost receivers,
     * one apply-edge worker and one scheduler; after they are joined, every
     * message still buffered is pulled, and the clean-up is logged when there
     * was at least one.
     */
    method RunPipeline()
      modifies this
      ensures !pipeline.halt && PoolsStarted(pipeline.pools, cThreads, dThreads)
      ensures pipeline.inbox == [] && pipeline.drained == old(pipeline.drained) + old(pipeline.inbox)
      ensures pipeline.cleanupLogged == (old(pipeline.inbox) != [])
      ensures pipeline.events == old(pipeline.events)
      ensures node == old(node) && timers == old(timers) && saved == old(saved) && epochs == old(epochs)
      ensures comms == old(comms) && released == old(released) && numLambdasForward == old(numLambdasForward)
    {
      var commThdCnt := dThreads;
      var ga := Spawn(cThreads, 2);
      var av := Spawn(1, 0);
      var sc := Spawn(commThdCnt, 0);
      var gr := Spawn(commThdCnt, 0);
      var ae := Spawn(1, 0);
      var sched := Spawn(1, 0);
      assert av == [0] && ae == [0] && sched == [0];
      pipeline := pipeline.(halt := false, pools := Pools(ga, av, sc, gr, ae, sched), cleanupLogged := false);
      var got := PullIn();
      if got {
        pipeline := pipeline.(cleanupLogged := true);
      }
      while got
        invariant !got ==> pipeline.inbox == []
        invariant pipeline.drained + pipeline.inbox == old(pipeline.drained) + old(pipeline.inbox)
        invariant pipeline.cleanupLogged == (old(pipeline.inbox) != [])
        invariant pipeline.pools == Pools(ga, av, sc, gr, ae, sched) && !pipeline.halt
        invariant pipeline.events == old(pipeline.events)
        invariant node == old(node) && timers == old(timers) && saved == old(saved) && epochs == old(epochs)
        invariant comms == old(comms) && released == old(released) && numLambdasForward == old(numLambdasForward)
        decreases |pipeline.inbox|, got
      {
        got := PullIn();
      }
    }

    /** commManager.dataPullIn: takes the oldest buffered message, if any. */
    method PullIn() returns (got: bool)
      modifies this
      ensures got <==> old(pipeline.inbox) != []
      ensures got ==> pipeline == old(pipeline).(inbox := old(pipeline.inbox)[1..],
                                                 drained := old(pipeline.drained) + [old(pipeline.inbox)[0]])
      ensures !got ==> pipeline == old(pipeline)
      ensures node == old(node) && timers == old(timers) && saved == old(saved) && epochs == old(epochs)
      ensures comms == old(comms) && released == old(released) && numLambdasForward == old(numLambdasForward)
    {
      if pipeline.inbox == [] {
        return false;
      }
      pipeline := pipeline.(inbox := pipeline.inbox[1..], drained := pipeline.drained + [pipeline.inbox[0]]);
      got := true;
    }

    /** Engine::run: preallocate for the GNN kind, then the pipeline for GCN and GAT only. */
    method Run()
      modifies this
      ensures pipeline.events == old(pipeline.events) + RunEvents(gnnType)
      ensures (gnnType.GCN? || gnnType.GAT?) ==>
        pipeline.inbox == [] && pipeline.drained == old(pipeline.drained) + old(pipeline.inbox)
      ensures !(gnnType.GCN? || gnnType.GAT?) ==>
        pipeline.inbox == old(pipeline.inbox) && pipeline.drained == old(pipeline.drained)
      ensures (gnnType.GCN? || gnnType.GAT?) ==>
        !pipeline.halt && PoolsStarted(pipeline.pools, cThreads, dThreads) &&
        pipeline.cleanupLogged == (old(pipeline.inbox) != [])
      ensures !(gnnType.GCN? || gnnType.GAT?) ==>
        pipeline.halt == old(pipeline.halt) && pipeline.pools == old(pipeline.pools) &&
        pipeline.cleanupLogged == old(pipeline.cleanupLogged)
      ensures node == old(node) && timers == old(timers) && saved == old(saved) && epochs == old(epochs)
      ensures comms == old(comms) && released == old(released) && numLambdasForward == old(numLambdasForward)
    {
      PreallocateTensors();
      if gnnType.GCN? || gnnType.GAT? {
        RunPipeline();
        pipeline := pipeline.(events := pipeline.events + [PipelineRun]);
      } else {
        pipeline := pipeline.(events := pipeline.events + [UnsupportedGnn]);
      }
    }

    /** Engine::preallocate_tensors: the GCN or GAT preallocation, else a log line. */
    method PreallocateTensors()
      modifies this
      ensures pipeline == old(pipeline).(events := old(pipeline.events) + [RunEvents(gnnType)[0]])
      ensures node == old(node) && timers == old(timers) && saved == old(saved) && epochs == old(epochs)
      ensures comms == old(comms) && released == old(released) && numLambdasForward == old(numLambdasForward)
    {
      match gnnType
      case GCN => pipeline := pipeline.(events := pipeline.events + [PreallocatedGCN]);
      case GAT => pipeline := pipeline.(events := pipeline.events + [PreallocatedGAT]);
      case OtherGnn(_) => pipeline := pipeline.(events := pipeline.events + [UnrecognizedBenchmark]);
    }
  }
}
