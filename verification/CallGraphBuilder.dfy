/** Building the call graph from the compiler's one (lib/Analysis/CallGraph.cpp,
    include/Analysis/CallGraph.h): nodes are objects changed in place. */
module CallGraphBuilders {
  import opened CallGraphs

  /** One entry of the input: a function, or none for an external node, and what it
      calls, one entry per recorded call. */
  datatype InputNode = InputNode(f: Option<FunctionId>, calls: seq<Option<FunctionId>>)

  /** The input records a call from u to v. */
  predicate Records(entry: InputNode, n: nat, u: FunctionId, v: FunctionId)
    requires n <= |entry.calls|
  {
    entry.f == Some(u) && exists j :: 0 <= j < n && entry.calls[j] == Some(v)
  }

  predicate Recorded(input: seq<InputNode>, u: FunctionId, v: FunctionId) {
    exists i :: 0 <= i < |input| && Records(input[i], |input[i].calls|, u, v)
  }

  /** The pairs are exactly the recorded calls. */
  ghost predicate CallsOf(input: seq<InputNode>, calls: set<(FunctionId, FunctionId)>) {
    forall u, v :: (u, v) in calls <==> Recorded(input, u, v)
  }

  ghost predicate WithCallsOf(entry: InputNode, calls: set<(FunctionId, FunctionId)>,
                              more: set<(FunctionId, FunctionId)>) {
    forall u, v :: (u, v) in more <==> (u, v) in calls || Records(entry, |entry.calls|, u, v)
  }

  // ---------- Edge lists ----------

  function SinkCount(edges: seq<Edge>, v: FunctionId): nat {
    if edges == [] then 0
    else SinkCount(edges[..|edges| - 1], v) + if edges[|edges| - 1].sink == v then 1 else 0
  }

  function SourceCount(edges: seq<Edge>, u: FunctionId): nat {
    if edges == [] then 0
    else SourceCount(edges[..|edges| - 1], u) + if edges[|edges| - 1].source == u then 1 else 0
  }

  /** One entry of the out-list of u for each callee, and no other entries. */
  ghost predicate OutEdgesAre(edges: seq<Edge>, u: FunctionId, calls: set<(FunctionId, FunctionId)>) {
    && (forall i :: 0 <= i < |edges| ==> edges[i].source == u)
    && (forall v :: SinkCount(edges, v) == if (u, v) in calls then 1 else 0)
  }

  ghost predicate InEdgesAre(edges: seq<Edge>, v: FunctionId, calls: set<(FunctionId, FunctionId)>) {
    && (forall i :: 0 <= i < |edges| ==> edges[i].sink == v)
    && (forall u :: SourceCount(edges, u) == if (u, v) in calls then 1 else 0)
  }

  /** The graph has exactly the given edges, each once on either side. */
  ghost predicate EdgesAre(g: CallGraph, calls: set<(FunctionId, FunctionId)>) {
    && (forall u, v :: (u, v) in calls ==> u in g && v in g)
    && (forall f :: f in g ==> OutEdgesAre(g[f].outEdges, f, calls) && InEdgesAre(g[f].inEdges, f, calls))
  }

  lemma CountAppended(edges: seq<Edge>, e: Edge)
    ensures forall v :: SinkCount(edges + [e], v) == SinkCount(edges, v) + if e.sink == v then 1 else 0
    ensures forall u :: SourceCount(edges + [e], u) == SourceCount(edges, u) + if e.source == u then 1 else 0
  {
    assert (edges + [e])[..|edges|] == edges;
  }

  lemma OutEdgeAdded(edges: seq<Edge>, u: FunctionId, v: FunctionId, calls: set<(FunctionId, FunctionId)>, e: Edge)
    requires OutEdgesAre(edges, u, calls) && (u, v) !in calls && e.source == u && e.sink == v
    ensures OutEdgesAre(edges + [e], u, calls + {(u, v)})
  {
    CountAppended(edges, e);
  }

  lemma InEdgeAdded(edges: seq<Edge>, u: FunctionId, v: FunctionId, calls: set<(FunctionId, FunctionId)>, e: Edge)
    requires InEdgesAre(edges, v, calls) && (u, v) !in calls && e.source == u && e.sink == v
    ensures InEdgesAre(edges + [e], v, calls + {(u, v)})
  {
    CountAppended(edges, e);
  }

  lemma OthersUnaffected(edges: seq<Edge>, f: FunctionId, calls: set<(FunctionId, FunctionId)>, u: FunctionId,
                         v: FunctionId)
    ensures f != u && OutEdgesAre(edges, f, calls) ==> OutEdgesAre(edges, f, calls + {(u, v)})
    ensures f != v && InEdgesAre(edges, f, calls) ==> InEdgesAre(edges, f, calls + {(u, v)})
  {
  }

  lemma {:induction false} CountedIsListed(edges: seq<Edge>, v: FunctionId)
    ensures SinkCount(edges, v) > 0 <==> exists i :: 0 <= i < |edges| && edges[i].sink == v
    ensures SourceCount(edges, v) > 0 <==> exists i :: 0 <= i < |edges| && edges[i].source == v
  {
    if edges != [] {
      CountedIsListed(edges[..|edges| - 1], v);
    }
  }

  /** Both ends of every edge are nodes. */
  lemma EdgesStayInside(g: CallGraph, calls: set<(FunctionId, FunctionId)>, f: FunctionId, i: nat)
    requires EdgesAre(g, calls) && f in g && i < |Links(g[f])|
    ensures Links(g[f])[i].other in g
  {
    var other := Links(g[f])[i].other;
    CountedIsListed(g[f].outEdges, other);
    CountedIsListed(g[f].inEdges, other);
    if i < |g[f].inEdges| {
      assert g[f].inEdges[i].source == other;
    } else {
      assert g[f].outEdges[i - |g[f].inEdges|].sink == other;
    }
  }

  // ---------- The objects ----------

  class CallGraphNode {
    const f: FunctionId
    var inEdges: seq<Edge>
    var outEdges: seq<Edge>
    var children: set<FunctionId>

    constructor (f: FunctionId)
      ensures this.f == f && inEdges == [] && outEdges == [] && children == {}
    {
      this.f := f;
      inEdges, outEdges, children := [], [], {};
    }

    method AddInEdge(edge: Edge)
      modifies this`inEdges
      ensures inEdges == old(inEdges) + [edge]
    {
      inEdges := inEdges + [edge];
    }

    method AddOutEdge(edge: Edge) returns (inserted: bool)
      modifies this`outEdges, this`children
      ensures inserted == (edge.sink !in old(children))
      ensures children == old(children) + {edge.sink}
      ensures outEdges == if inserted then old(outEdges) + [edge] else old(outEdges)
    {
      inserted := edge.sink !in children;
      children := children + {edge.sink};
      if inserted {
        outEdges := outEdges + [edge];
      }
    }
  }

  /** The nodes as one value; sensitivity and size are not part of it. */
  ghost function GraphOf(nodes: map<FunctionId, CallGraphNode>): CallGraph
    reads nodes.Values
  {
    map f | f in nodes :: Node(nodes[f].inEdges, nodes[f].outEdges, None, None)
  }

  class CallGraphBuilder {
    var functionNodes: map<FunctionId, CallGraphNode>

    constructor ()
      ensures functionNodes == map[]
    {
      functionNodes := map[];
    }

    /** The nodes as one value; weights are assigned later. */
    ghost function Snapshot(): CallGraph
      reads this, functionNodes.Values
    {
      GraphOf(functionNodes)
    }

    /** The node is filed under its own function and has that function's edges. */
    ghost predicate NodeIs(node: CallGraphNode, f: FunctionId, calls: set<(FunctionId, FunctionId)>)
      reads node
    {
      && node.f == f
      && (forall v :: v in node.children <==> (f, v) in calls)
      && OutEdgesAre(node.outEdges, f, calls)
      && InEdgesAre(node.inEdges, f, calls)
    }

    ghost predicate Valid(calls: set<(FunctionId, FunctionId)>)
      reads this, functionNodes.Values
    {
      && (forall u, v :: (u, v) in calls ==> u in functionNodes && v in functionNodes)
      && (forall f :: f in functionNodes ==> NodeIs(functionNodes[f], f, calls))
    }

    method GetOrAddNode(f: FunctionId, ghost calls: set<(FunctionId, FunctionId)>)
      requires Valid(calls)
      modifies this`functionNodes
      ensures Valid(calls)
      ensures functionNodes.Keys == old(functionNodes).Keys + {f}
      ensures forall k :: k in old(functionNodes) ==> functionNodes[k] == old(functionNodes)[k]
      ensures forall k :: k in functionNodes && k !in old(functionNodes) ==> fresh(functionNodes[k])
    {
      if f !in functionNodes {
        var node := new CallGraphNode(f);
        functionNodes := functionNodes[f := node];
      }
    }

    /** One recorded call of `source`; the same call again changes nothing. */
    method AddNodeConnections(callee: Option<FunctionId>, source: FunctionId,
                              ghost calls: set<(FunctionId, FunctionId)>)
      returns (ghost more: set<(FunctionId, FunctionId)>)
      requires Valid(calls) && source in functionNodes
      modifies this`functionNodes, functionNodes.Values
      ensures Valid(more)
      ensures more == if callee.None? then calls else calls + {(source, callee.value)}
      ensures functionNodes.Keys == old(functionNodes).Keys + (if callee.None? then {} else {callee.value})
      ensures forall k :: k in functionNodes ==>
                (k in old(functionNodes) && functionNodes[k] == old(functionNodes)[k]) || fresh(functionNodes[k])
    {
      more := calls;
      if callee.None? {
        return;
      }
      GetOrAddNode(callee.value, calls);
      more := Connect(source, callee.value, calls);
    }

    method Connect(u: FunctionId, v: FunctionId, ghost calls: set<(FunctionId, FunctionId)>)
      returns (ghost more: set<(FunctionId, FunctionId)>)
      requires Valid(calls) && u in functionNodes && v in functionNodes
      modifies functionNodes.Values
      ensures Valid(more) && more == calls + {(u, v)}
    {
      more := calls + {(u, v)};
      var edge := Edge(u, v, 0.0);
      forall f | f in functionNodes
        ensures NodeIs(functionNodes[f], f, calls)
      {
      }
      var source, sink := functionNodes[u], functionNodes[v];
      var inserted := source.AddOutEdge(edge);
      if inserted {
        sink.AddInEdge(edge);
        OutEdgeAdded(old(source.outEdges), u, v, calls, edge);
        InEdgeAdded(old(sink.inEdges), u, v, calls, edge);
        forall f | f in functionNodes
          ensures NodeIs(functionNodes[f], f, more)
        {
          OthersUnaffected(old(functionNodes[f].outEdges), f, calls, u, v);
          OthersUnaffected(old(functionNodes[f].inEdges), f, calls, u, v);
        }
      } else {
        assert more == calls;
      }
    }

    /** Every recorded call between functions becomes one edge, and nothing else does. */
    method Create(input: seq<InputNode>) returns (ghost calls: set<(FunctionId, FunctionId)>)
      requires functionNodes == map[]
      modifies this
      ensures Valid(calls) && EdgesAre(Snapshot(), calls)
      ensures CallsOf(input, calls)
      ensures forall u, v :: (u, v) in calls <==>
                exists i :: 0 <= i < |input| && input[i].f == Some(u) && Some(v) in input[i].calls
      ensures forall i :: 0 <= i < |input| && input[i].f.Some? ==> input[i].f.value in functionNodes
    {
      calls := {};
      for i := 0 to |input|
        invariant Valid(calls)
        invariant forall k :: k in functionNodes ==> fresh(functionNodes[k])
        invariant CallsOf(input[..i], calls)
        invariant forall k :: 0 <= k < i && input[k].f.Some? ==> input[k].f.value in functionNodes
      {
        ghost var before := calls;
        if input[i].f.Some? {
          calls := AddEntry(input[i], before);
        } else {
          NothingRecorded(input[i], before);
        }
        RecordedGrows(input, i, before, calls);
      }
      assert input[..|input|] == input;
      SnapshotHasEdges(calls);
    }

    lemma SnapshotHasEdges(calls: set<(FunctionId, FunctionId)>)
      requires Valid(calls)
      ensures EdgesAre(Snapshot(), calls)
    {
      forall f | f in functionNodes
        ensures NodeIs(functionNodes[f], f, calls)
      {
      }
    }

    method AddEntry(entry: InputNode, ghost calls: set<(FunctionId, FunctionId)>)
      returns (ghost more: set<(FunctionId, FunctionId)>)
      requires Valid(calls) && entry.f.Some?
      modifies this`functionNodes, functionNodes.Values
      ensures Valid(more)
      ensures WithCallsOf(entry, calls, more)
      ensures old(functionNodes).Keys <= functionNodes.Keys && entry.f.value in functionNodes
      ensures forall k :: k in functionNodes ==>
                (k in old(functionNodes) && functionNodes[k] == old(functionNodes)[k]) || fresh(functionNodes[k])
    {
      var source := entry.f.value;
      GetOrAddNode(source, calls);
      more := calls;
      ghost var listed := {};
      for j := 0 to |entry.calls|
        invariant Valid(more) && more == calls + listed
        invariant forall u, v :: (u, v) in listed <==> Records(entry, j, u, v)
        invariant old(functionNodes).Keys <= functionNodes.Keys && source in functionNodes
        invariant forall k :: k in functionNodes ==>
                    (k in old(functionNodes) && functionNodes[k] == old(functionNodes)[k]) || fresh(functionNodes[k])
      {
        more := AddNodeConnections(entry.calls[j], source, more);
        ghost var one := if entry.calls[j].None? then {} else {(source, entry.calls[j].value)};
        RecordsNext(entry, j, listed, one);
        assert calls + listed + one == calls + (listed + one);
        listed := listed + one;
      }
    }
  }

  lemma RecordsNext(entry: InputNode, j: nat, listed: set<(FunctionId, FunctionId)>, one: set<(FunctionId, FunctionId)>)
    requires j < |entry.calls| && entry.f.Some?
    requires forall u, v :: (u, v) in listed <==> Records(entry, j, u, v)
    requires one == if entry.calls[j].None? then {} else {(entry.f.value, entry.calls[j].value)}
    ensures forall u, v :: (u, v) in listed + one <==> Records(entry, j + 1, u, v)
  {
  }

  lemma NothingRecorded(entry: InputNode, calls: set<(FunctionId, FunctionId)>)
    requires entry.f.None?
    ensures WithCallsOf(entry, calls, calls)
  {
  }

  lemma RecordedGrows(input: seq<InputNode>, i: nat, before: set<(FunctionId, FunctionId)>,
                      after: set<(FunctionId, FunctionId)>)
    requires i < |input|
    requires CallsOf(input[..i], before) && WithCallsOf(input[i], before, after)
    ensures CallsOf(input[..i + 1], after)
  {
    forall u, v
      ensures (u, v) in after <==> Recorded(input[..i + 1], u, v)
    {
      RecordedInMore(input, i, u, v);
    }
  }

  lemma RecordedInMore(input: seq<InputNode>, i: nat, u: FunctionId, v: FunctionId)
    requires i < |input|
    ensures Recorded(input[..i + 1], u, v) <==>
            Recorded(input[..i], u, v) || Records(input[i], |input[i].calls|, u, v)
  {
    var longer, shorter := input[..i + 1], input[..i];
    assert longer[i] == input[i];
    assert forall k :: 0 <= k < i ==> longer[k] == shorter[k];
  }
}
