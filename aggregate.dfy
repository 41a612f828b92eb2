/**
 * The aggregate benchmark (src/benchmarks/aggregate.cpp): each vertex's
 * new value is its current value plus, element by element, the values its
 * in-neighbours had at the given layer, appended to its history; the writer
 * program prints every vertex's history on one line.
 */
module Aggregate {
  import opened Graph
  import opened Decimal
  import opened Wrappers
  import Seqs

  /** defaultVertex: vector<FeatType>(2, 1), every vertex's initial value. */
  const DEFAULT_VERTEX: Value := [1, 1]

  /** vertex.data(): the latest value in a vertex's history. */
  function Data(v: Vertex): Value
    requires |v.history| > 0
  {
    v.history[|v.history| - 1]
  }

  /** Whether the source of an in-edge has a value at `layer`. */
  predicate HasData(vs: seq<Vertex>, ghosts: map<nat, GhostVertex>, e: Endpoint, layer: nat) {
    match e
    case Local(i) => i < |vs| && layer < |vs[i].history|
    case Remote(g) => g in ghosts && layer < |ghosts[g].history|
  }

  /** getSourceVertexDataAt(i, layer): the value at `layer` of the edge's source, local or ghost. */
  function SourceData(vs: seq<Vertex>, ghosts: map<nat, GhostVertex>, e: Endpoint, layer: nat): Value
    requires HasData(vs, ghosts, e, layer)
  {
    match e
    case Local(i) => vs[i].history[layer]
    case Remote(g) => ghosts[g].history[layer]
  }

  /** Every edge's source has a value at `layer` with at least n elements. */
  predicate Covers(vs: seq<Vertex>, ghosts: map<nat, GhostVertex>, edges: seq<Endpoint>, layer: nat, n: nat) {
    forall e | e in edges :: HasData(vs, ghosts, e, layer) && |SourceData(vs, ghosts, e, layer)| >= n
  }

  /** Element j summed over the sources of the given edges. */
  function NeighbourSum(vs: seq<Vertex>, ghosts: map<nat, GhostVertex>, edges: seq<Endpoint>, layer: nat, j: nat): int
    requires Covers(vs, ghosts, edges, layer, j + 1)
  {
    if edges == [] then 0
    else
      var e := edges[|edges| - 1];
      assert e in edges;
      assert forall x | x in edges[..|edges| - 1] :: x in edges;
      NeighbourSum(vs, ghosts, edges[..|edges| - 1], layer, j) + SourceData(vs, ghosts, e, layer)[j]
  }

  /**
   * What `update` may be called on: vertex v exists and has a value, and
   * every in-neighbour has a value at `layer` at least as long (asserted in
   * sumVectors).
   */
  predicate Ready(vs: seq<Vertex>, ghosts: map<nat, GhostVertex>, v: nat, layer: nat) {
    v < |vs| && |vs[v].history| > 0 &&
    Covers(vs, ghosts, vs[v].inEdges.items, layer, |Data(vs[v])|)
  }

  /** The value update appends: own value plus the in-neighbours' layer values, element-wise. */
  function Aggregated(vs: seq<Vertex>, ghosts: map<nat, GhostVertex>, v: nat, layer: nat): (r: Value)
    requires Ready(vs, ghosts, v, layer)
    ensures |r| == |Data(vs[v])|
  {
    var own := Data(vs[v]);
    seq(|own|, j requires 0 <= j < |own| => own[j] + NeighbourSum(vs, ghosts, vs[v].inEdges.items, layer, j))
  }

  /** Summing over two runs of edges is summing over each. */
  lemma {:induction false} NeighbourSumAppend(vs: seq<Vertex>, ghosts: map<nat, GhostVertex>,
                                              a: seq<Endpoint>, b: seq<Endpoint>, layer: nat, j: nat)
    requires Covers(vs, ghosts, a + b, layer, j + 1)
    ensures Covers(vs, ghosts, a, layer, j + 1) && Covers(vs, ghosts, b, layer, j + 1)
    ensures NeighbourSum(vs, ghosts, a + b, layer, j) ==
            NeighbourSum(vs, ghosts, a, layer, j) + NeighbourSum(vs, ghosts, b, layer, j)
    decreases |b|
  {
    assert forall x | x in a :: x in a + b;
    assert forall x | x in b :: x in a + b;
    if b != [] {
      var b' := b[..|b| - 1];
      assert (a + b)[..|a + b| - 1] == a + b';
      assert forall x | x in a + b' :: x in a + b;
      NeighbourSumAppend(vs, ghosts, a, b', layer, j);
    } else {
      assert a + b == a;
    }
  }

  /** When every neighbour value at element j is c, the sum is c times the in-degree. */
  lemma {:induction false} NeighbourSumConst(vs: seq<Vertex>, ghosts: map<nat, GhostVertex>,
                                             edges: seq<Endpoint>, layer: nat, j: nat, c: int)
    requires Covers(vs, ghosts, edges, layer, j + 1)
    requires forall e | e in edges :: SourceData(vs, ghosts, e, layer)[j] == c
    ensures NeighbourSum(vs, ghosts, edges, layer, j) == c * |edges|
    decreases |edges|
  {
    if edges != [] {
      var init := edges[..|edges| - 1];
      var e := edges[|edges| - 1];
      assert e in edges;
      assert forall x | x in init :: x in edges;
      NeighbourSumConst(vs, ghosts, init, layer, j, c);
      MulSucc(c, |init|);
    }
  }

  lemma MulSucc(c: int, n: nat)
    ensures c * (n + 1) == c * n + c
  {
  }

  /**
   * In the first round every vertex holds the default [1, 1]: a vertex with
   * k in-edges whose sources all still hold it becomes [1 + k, 1 + k].
   */
  lemma FirstRound(vs: seq<Vertex>, ghosts: map<nat, GhostVertex>, v: nat, layer: nat)
    requires Ready(vs, ghosts, v, layer) && Data(vs[v]) == DEFAULT_VERTEX
    requires forall e | e in vs[v].inEdges.items :: SourceData(vs, ghosts, e, layer) == DEFAULT_VERTEX
    ensures var k := |vs[v].inEdges.items|;
      Aggregated(vs, ghosts, v, layer) == [1 + k, 1 + k]
  {
    var edges := vs[v].inEdges.items;
    NeighbourSumConst(vs, ghosts, edges, layer, 0, 1);
    NeighbourSumConst(vs, ghosts, edges, layer, 1, 1);
  }

  /** A vertex without in-edges appends a copy of its current value. */
  lemma NoInEdges(vs: seq<Vertex>, ghosts: map<nat, GhostVertex>, v: nat, layer: nat)
    requires Ready(vs, ghosts, v, layer) && vs[v].inEdges.items == []
    ensures Aggregated(vs, ghosts, v, layer) == Data(vs[v])
  {
  }

  /** sumVectors(curr, other): curr[i] += other[i], other being at least as long (asserted). */
  method SumVectors(curr: array<int>, other: seq<int>)
    requires curr.Length <= |other|
    modifies curr
    ensures forall i | 0 <= i < curr.Length :: curr[i] == old(curr[i]) + other[i]
  {
    var i := 0;
    while i < curr.Length
      invariant 0 <= i <= curr.Length
      invariant forall k | 0 <= k < i :: curr[k] == old(curr[k]) + other[k]
      invariant forall k | i <= k < curr.Length :: curr[k] == old(curr[k])
    {
      curr[i] := curr[i] + other[i];
      i := i + 1;
    }
  }

  /**
   * AggregateProgram::update(vertex, layer): vertex v's history grows by its
   * aggregated value; every earlier entry, every other vertex and the ghosts
   * stay as they were.
   */
  method Update(g: Graph, v: nat, layer: nat)
    requires Ready(g.vertices.items, g.ghostVertices, v, layer)
    modifies g
    ensures var vx := old(g.vertices.items[v]);
      g.vertices == old(g.vertices).(items := old(g.vertices.items)[v :=
        vx.(history := vx.history + [Aggregated(old(g.vertices.items), old(g.ghostVertices), v, layer)])])
    ensures g.ghostVertices == old(g.ghostVertices) && g.vertexPartitionIds == old(g.vertexPartitionIds)
    ensures g.numLocalVertices == old(g.numLocalVertices) && g.numGlobalVertices == old(g.numGlobalVertices)
    ensures g.numGlobalEdges == old(g.numGlobalEdges)
  {
    var vs, ghosts := g.vertices.items, g.ghostVertices;
    var vertex := vs[v];
    var own := Data(vertex);
    var edges := vertex.inEdges.items;
    var curr := new int[|own|](j => if 0 <= j < |own| then own[j] else 0);
    var i := 0;
    while i < |edges|
      invariant 0 <= i <= |edges| && curr.Length == |own| && unchanged(g)
      invariant Covers(vs, ghosts, edges[..i], layer, |own|)
      invariant forall j | 0 <= j < |own| :: curr[j] == own[j] + NeighbourSum(vs, ghosts, edges[..i], layer, j)
    {
      SumStep(vs, ghosts, edges, i, layer, |own|);
      var other := SourceData(vs, ghosts, edges[i], layer);
      SumVectors(curr, other);
      i := i + 1;
    }
    assert edges[..i] == edges;
    assert curr[..] == Aggregated(vs, ghosts, v, layer);
    g.vertices := g.vertices.(items := vs[v := vertex.(history := vertex.history + [curr[..]])]);
  }

  /** One more in-edge summed: element j grows by that edge's source value. */
  lemma SumStep(vs: seq<Vertex>, ghosts: map<nat, GhostVertex>, edges: seq<Endpoint>, i: nat, layer: nat, n: nat)
    requires i < |edges| && Covers(vs, ghosts, edges, layer, n)
    ensures HasData(vs, ghosts, edges[i], layer) && |SourceData(vs, ghosts, edges[i], layer)| >= n
    ensures Covers(vs, ghosts, edges[..i], layer, n) && Covers(vs, ghosts, edges[..i + 1], layer, n)
    ensures forall j | 0 <= j < n ::
      NeighbourSum(vs, ghosts, edges[..i + 1], layer, j) ==
      NeighbourSum(vs, ghosts, edges[..i], layer, j) + SourceData(vs, ghosts, edges[i], layer)[j]
  {
    var p := edges[..i + 1];
    assert edges[i] in edges;
    assert p[..|p| - 1] == edges[..i] && p[|p| - 1] == edges[i];
    assert forall x | x in p :: x in edges;
    assert forall x | x in edges[..i] :: x in edges;
  }

  /** What `update` keeps: the history only grows, by exactly one entry as long as the current value. */
  lemma UpdateAppendsOnly(vs: seq<Vertex>, ghosts: map<nat, GhostVertex>, v: nat, layer: nat)
    requires Ready(vs, ghosts, v, layer)
    ensures var h := vs[v].history + [Aggregated(vs, ghosts, v, layer)];
      |h| == |vs[v].history| + 1 && h[..|vs[v].history|] == vs[v].history &&
      |h[|h| - 1]| == |Data(vs[v])|
  {
  }

  // ---------------------------------------------------------------------------
  // WriterProgram::processVertex
  // ---------------------------------------------------------------------------

  /** How often c occurs in s. */
  function Occurrences(s: string, c: char): nat {
    if s == [] then 0 else (if s[0] == c then 1 else 0) + Occurrences(s[1..], c)
  }

  lemma {:induction false} OccurrencesAppend(a: string, b: string, c: char)
    ensures Occurrences(a + b, c) == Occurrences(a, c) + Occurrences(b, c)
  {
    if a != [] {
      assert (a + b)[1..] == a[1..] + b;
      OccurrencesAppend(a[1..], b, c);
    } else {
      assert a + b == b;
    }
  }

  lemma {:induction false} OccurrencesNone(s: string, c: char)
    requires forall k | 0 <= k < |s| :: s[k] != c
    ensures Occurrences(s, c) == 0
  {
    if s != [] {
      OccurrencesNone(s[1..], c);
    }
  }

  /** One history entry as printed: each value followed by a space. */
  function EntryText(x: Value): string {
    if x == [] then "" else EntryText(x[..|x| - 1]) + IntToString(x[|x| - 1]) + " "
  }

  /** The history as printed: each entry followed by "| ". */
  function HistoryText(h: seq<Value>): string {
    if h == [] then "" else HistoryText(h[..|h| - 1]) + EntryText(h[|h| - 1]) + "| "
  }

  /** The line processVertex writes: "<gid>: ", the history, then a newline. */
  function WriterLine(gid: nat, h: seq<Value>): string {
    NatToString(gid) + ": " + HistoryText(h) + "\n"
  }

  lemma {:induction false} EntryTextNoBar(x: Value)
    ensures Occurrences(EntryText(x), '|') == 0
  {
    if x != [] {
      var v := IntToString(x[|x| - 1]);
      EntryTextNoBar(x[..|x| - 1]);
      OccurrencesNone(v, '|');
      OccurrencesNone(" ", '|');
      OccurrencesAppend(EntryText(x[..|x| - 1]), v, '|');
      OccurrencesAppend(EntryText(x[..|x| - 1]) + v, " ", '|');
    }
  }

  lemma {:induction false} HistoryTextBars(h: seq<Value>)
    ensures Occurrences(HistoryText(h), '|') == |h|
  {
    if h != [] {
      var prev := HistoryText(h[..|h| - 1]);
      var e := EntryText(h[|h| - 1]);
      HistoryTextBars(h[..|h| - 1]);
      EntryTextNoBar(h[|h| - 1]);
      OccurrencesAppend(prev, e, '|');
      OccurrencesAppend(prev + e, "| ", '|');
      assert Occurrences("| ", '|') == 1 by {
        assert "| "[1..] == " ";
      }
    }
  }

  /**
   * A writer line starts with the global id, which reads back from the text
   * before the first ':', and has one "|" per history entry.
   */
  lemma WriterLineShape(gid: nat, h: seq<Value>)
    ensures var line := WriterLine(gid, h);
      var k := IndexOf(line, ':');
      ParseInt(line[..k]) == Some(gid) && Occurrences(line, '|') == |h|
  {
    WriterLineId(gid, h);
    WriterLineBars(gid, h);
  }

  lemma WriterLineId(gid: nat, h: seq<Value>)
    ensures var line := WriterLine(gid, h);
      ParseInt(line[..IndexOf(line, ':')]) == Some(gid)
  {
    var a := NatToString(gid);
    var line := WriterLine(gid, h);
    var rest := " " + HistoryText(h) + "\n";
    assert line == a + [':'] + rest;
    IndexOfAfter(a, ':', rest);
    assert line[..|a|] == a;
    ParseIntToString(gid);
  }

  lemma WriterLineBars(gid: nat, h: seq<Value>)
    ensures Occurrences(WriterLine(gid, h), '|') == |h|
  {
    var a := NatToString(gid);
    assert WriterLine(gid, h) == a + ": " + HistoryText(h) + "\n";
    HistoryTextBars(h);
    OccurrencesNone(a, '|');
    OccurrencesNone(": ", '|');
    OccurrencesNone("\n", '|');
    OccurrencesAppend(a, ": ", '|');
    OccurrencesAppend(a + ": ", HistoryText(h), '|');
    OccurrencesAppend(a + ": " + HistoryText(h), "\n", '|');
  }

  /** WriterProgram: its output file, as the text written to it so far. */
  class Writer {
    var outFile: string

    constructor ()
      ensures outFile == ""
    {
      outFile := "";
    }

    /** The inner loop of processVertex: each value of one entry, followed by a space. */
    method WriteEntry(curr: Value)
      modifies this
      ensures outFile == old(outFile) + EntryText(curr)
    {
      var j := 0;
      while j < |curr|
        invariant 0 <= j <= |curr|
        invariant outFile == old(outFile) + EntryText(curr[..j])
      {
        ghost var before := EntryText(curr[..j]);
        assert curr[..j + 1][..j] == curr[..j];
        assert EntryText(curr[..j + 1]) == before + IntToString(curr[j]) + " ";
        outFile := outFile + IntToString(curr[j]) + " ";
        Seqs.AppendAssoc(old(outFile), before, IntToString(curr[j]));
        Seqs.AppendAssoc(old(outFile), before + IntToString(curr[j]), " ");
        j := j + 1;
      }
      assert curr[..j] == curr;
    }

    /** processVertex(vertex): append the vertex's line. */
    method ProcessVertex(vertex: Vertex)
      modifies this
      ensures outFile == old(outFile) + WriterLine(vertex.globalId, vertex.history)
    {
      var dataAll := vertex.history;
      ghost var prefix := NatToString(vertex.globalId) + ": ";
      outFile := outFile + NatToString(vertex.globalId) + ": ";
      assert outFile == old(outFile) + prefix;
      var i := 0;
      while i < |dataAll|
        invariant 0 <= i <= |dataAll|
        invariant outFile == old(outFile) + prefix + HistoryText(dataAll[..i])
      {
        ghost var before := HistoryText(dataAll[..i]);
        WriteEntry(dataAll[i]);
        outFile := outFile + "| ";
        assert dataAll[..i + 1][..i] == dataAll[..i];
        assert HistoryText(dataAll[..i + 1]) == before + EntryText(dataAll[i]) + "| ";
        Seqs.AppendAssoc(old(outFile) + prefix, before, EntryText(dataAll[i]));
        Seqs.AppendAssoc(old(outFile) + prefix, before + EntryText(dataAll[i]), "| ");
        i := i + 1;
      }
      assert dataAll[..i] == dataAll;
      outFile := outFile + "\n";
      Seqs.AppendAssoc(old(outFile), prefix, HistoryText(dataAll));
      Seqs.AppendAssoc(old(outFile), prefix + HistoryText(dataAll), "\n");
    }
  }
}
