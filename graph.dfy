/**
 * A graph partition as one graph server holds it (src/engine/graph.cpp):
 * its local vertices with their in- and out-edges, the ghost vertices (the
 * remote in-neighbours of local vertices, keyed by global id), and the
 * partition id of every vertex. Each vertex keeps the history of its values,
 * one entry per layer computed, and values are only ever appended.
 */
module Graph {

  /** VType: a feature vector. */
  type Value = seq<int>

  /** A std::vector: its elements and the capacity it has reserved. */
  datatype Vec<T> = Vec(items: seq<T>, capacity: nat)

  /** Whether a vector's capacity is down to its size. */
  predicate Tight<T>(v: Vec<T>) {
    v.capacity == |v.items|
  }

  /** shrink_to_fit(): the same elements with no spare capacity. */
  function ShrinkToFit<T>(v: Vec<T>): (r: Vec<T>)
    ensures r.items == v.items && Tight(r)
  {
    Vec(v.items, |v.items|)
  }

  /** The other end of an edge: a local vertex (by local id) or a ghost (by global id). */
  datatype Endpoint = Local(index: nat) | Remote(gid: nat)

  /** A local vertex: its ids, its value history, and its edges. */
  datatype Vertex = Vertex(localId: nat, globalId: nat, history: seq<Value>,
                           inEdges: Vec<Endpoint>, outEdges: Vec<Endpoint>)

  /** A ghost vertex: the value history received for it and the local vertices it points to. */
  datatype GhostVertex = GhostVertex(history: seq<Value>, outEdges: Vec<nat>)

  /** Two vertices that differ at most in the capacity of their edge vectors. */
  predicate SameVertex(a: Vertex, b: Vertex) {
    a.localId == b.localId && a.globalId == b.globalId && a.history == b.history &&
    a.inEdges.items == b.inEdges.items && a.outEdges.items == b.outEdges.items
  }

  /** The ghosts after `addData(value)` on ghost vId: its history grows by value at the back. */
  function AddGhostData(ghosts: map<nat, GhostVertex>, vId: nat, value: Value): (r: map<nat, GhostVertex>)
    requires vId in ghosts
    ensures r.Keys == ghosts.Keys
    ensures |r[vId].history| == |ghosts[vId].history| + 1
    ensures r[vId].history[..|ghosts[vId].history|] == ghosts[vId].history
    ensures r[vId].history[|ghosts[vId].history|] == value
    ensures r[vId].outEdges == ghosts[vId].outEdges
    ensures forall k | k in ghosts && k != vId :: r[k] == ghosts[k]
  {
    ghosts[vId := ghosts[vId].(history := ghosts[vId].history + [value])]
  }

  /**
   * The update is not deduplicated: the same value delivered twice is
   * appended twice, so the history differs from a single delivery.
   */
  lemma AddGhostDataTwice(ghosts: map<nat, GhostVertex>, vId: nat, value: Value)
    requires vId in ghosts
    ensures var once := AddGhostData(ghosts, vId, value);
      var twice := AddGhostData(once, vId, value);
      |twice[vId].history| == |ghosts[vId].history| + 2 &&
      twice[vId].history == ghosts[vId].history + [value, value] &&
      twice != once
  {
    var once := AddGhostData(ghosts, vId, value);
    var twice := AddGhostData(once, vId, value);
    assert |twice[vId].history| != |once[vId].history|;
  }

  class Graph {
    var vertices: Vec<Vertex>
    var ghostVertices: map<nat, GhostVertex>
    var vertexPartitionIds: Vec<nat>
    var numLocalVertices: nat
    var numGlobalVertices: nat
    var numGlobalEdges: nat

    constructor (vertices: Vec<Vertex>, ghostVertices: map<nat, GhostVertex>, vertexPartitionIds: Vec<nat>,
                 numLocalVertices: nat, numGlobalVertices: nat, numGlobalEdges: nat)
      ensures this.vertices == vertices && this.ghostVertices == ghostVertices
      ensures this.vertexPartitionIds == vertexPartitionIds && this.numLocalVertices == numLocalVertices
      ensures this.numGlobalVertices == numGlobalVertices && this.numGlobalEdges == numGlobalEdges
    {
      this.vertices := vertices;
      this.ghostVertices := ghostVertices;
      this.vertexPartitionIds := vertexPartitionIds;
      this.numLocalVertices := numLocalVertices;
      this.numGlobalVertices := numGlobalVertices;
      this.numGlobalEdges := numGlobalEdges;
    }

    /** getVertices(): the stored vertices, read without change. */
    method GetVertices() returns (r: seq<Vertex>)
      ensures r == vertices.items
    {
      r := vertices.items;
    }

    /** getGhostVertices(): the stored ghosts, read without change. */
    method GetGhostVertices() returns (r: map<nat, GhostVertex>)
      ensures r == ghostVertices
    {
      r := ghostVertices;
    }

    /** getNumLocalVertices() */
    method GetNumLocalVertices() returns (r: nat)
      ensures r == numLocalVertices
    {
      r := numLocalVertices;
    }

    /** getNumGlobalVertices() */
    method GetNumGlobalVertices() returns (r: nat)
      ensures r == numGlobalVertices
    {
      r := numGlobalVertices;
    }

    /** getNumGlobalEdges() */
    method GetNumGlobalEdges() returns (r: nat)
      ensures r == numGlobalEdges
    {
      r := numGlobalEdges;
    }

    /** getVertexPartitionIds(): the partition id of every local vertex. */
    method GetVertexPartitionIds() returns (r: seq<nat>)
      ensures r == vertexPartitionIds.items
    {
      r := vertexPartitionIds.items;
    }

    /**
     * updateGhostVertex(vId, value): the ghost must exist (asserted); its
     * history grows by value and nothing else in the graph changes.
     */
    method UpdateGhostVertex(vId: nat, value: Value)
      requires vId in ghostVertices
      modifies this
      ensures ghostVertices == AddGhostData(old(ghostVertices), vId, value)
      ensures vertices == old(vertices) && vertexPartitionIds == old(vertexPartitionIds)
      ensures numLocalVertices == old(numLocalVertices) && numGlobalVertices == old(numGlobalVertices)
      ensures numGlobalEdges == old(numGlobalEdges)
    {
      var g := ghostVertices[vId];
      ghostVertices := ghostVertices[vId := g.(history := g.history + [value])];
    }

    /**
     * compactGraph(): every vector gives up its spare capacity; the partition
     * ids, the vertices, every edge list and every ghost keep their contents.
     */
    method CompactGraph()
      modifies this
      ensures vertexPartitionIds.items == old(vertexPartitionIds.items) && Tight(vertexPartitionIds)
      ensures |vertices.items| == |old(vertices.items)| && Tight(vertices)
      ensures forall i | 0 <= i < |vertices.items| ::
        SameVertex(vertices.items[i], old(vertices.items[i])) &&
        Tight(vertices.items[i].inEdges) && Tight(vertices.items[i].outEdges)
      ensures ghostVertices.Keys == old(ghostVertices.Keys)
      ensures forall k | k in ghostVertices ::
        ghostVertices[k].history == old(ghostVertices[k].history) &&
        ghostVertices[k].outEdges.items == old(ghostVertices[k].outEdges.items) &&
        Tight(ghostVertices[k].outEdges)
      ensures numLocalVertices == old(numLocalVertices) && numGlobalVertices == old(numGlobalVertices)
      ensures numGlobalEdges == old(numGlobalEdges)
    {
      vertexPartitionIds := ShrinkToFit(vertexPartitionIds);
      vertices := ShrinkToFit(vertices);
      var i := 0;
      while i < |vertices.items|
        invariant 0 <= i <= |vertices.items| == |old(vertices.items)| && Tight(vertices)
        invariant forall j | 0 <= j < |vertices.items| :: SameVertex(vertices.items[j], old(vertices.items[j]))
        invariant forall j | 0 <= j < i :: Tight(vertices.items[j].inEdges) && Tight(vertices.items[j].outEdges)
        invariant ghostVertices == old(ghostVertices) && vertexPartitionIds.items == old(vertexPartitionIds.items)
        invariant Tight(vertexPartitionIds)
        invariant numLocalVertices == old(numLocalVertices) && numGlobalVertices == old(numGlobalVertices)
        invariant numGlobalEdges == old(numGlobalEdges)
      {
        var v := vertices.items[i];
        v := v.(inEdges := ShrinkToFit(v.inEdges));
        v := v.(outEdges := ShrinkToFit(v.outEdges));
        vertices := vertices.(items := vertices.items[i := v]);
        i := i + 1;
      }
      ghost var compacted := vertices;
      var todo := ghostVertices.Keys;
      while todo != {}
        invariant vertices == compacted && vertexPartitionIds.items == old(vertexPartitionIds.items)
        invariant Tight(vertexPartitionIds)
        invariant numLocalVertices == old(numLocalVertices) && numGlobalVertices == old(numGlobalVertices)
        invariant numGlobalEdges == old(numGlobalEdges)
        invariant todo <= ghostVertices.Keys == old(ghostVertices.Keys)
        invariant forall k | k in ghostVertices ::
          ghostVertices[k].history == old(ghostVertices[k].history) &&
          ghostVertices[k].outEdges.items == old(ghostVertices[k].outEdges.items)
        invariant forall k | k in ghostVertices && k !in todo :: Tight(ghostVertices[k].outEdges)
        decreases todo
      {
        var k :| k in todo;
        var g := ghostVertices[k];
        ghostVertices := ghostVertices[k := g.(outEdges := ShrinkToFit(g.outEdges))];
        todo := todo - {k};
      }
    }
  }
}
