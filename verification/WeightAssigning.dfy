/** Giving the edge copies their CALL_NUM weights (lib/Analysis/CallGraph.cpp): call
    sites are counted, both copies of each edge get the count, and the weights that
    were collected on the way - those of the in-edge copies - are normalised in place. */
module WeightAssigning {
  import opened Numbers
  import opened CallGraphs
  import opened CallGraphBuilders
  import opened CutCost
  import opened KLSpec
  import opened PartitionUtils
  import opened Weights
  import opened CallCounts

  method CountCallers(sites: seq<CallSite>) returns (counts: map<FunctionId, real>)
    ensures counts == CountTable(sites, |sites|)
  {
    counts := map[];
    for i := 0 to |sites|
      invariant counts == CountTable(sites, i)
    {
      CountTableNext(sites, i);
      var caller := sites[i].caller;
      var count := if caller in counts then counts[caller] else 0.0;
      if sites[i].inLoop {
        counts := counts[caller := LOOP_COST];
      } else if count != POS_INFINITY {
        counts := counts[caller := count + 1.0];
      } else {
        counts := counts[caller := count];
      }
    }
  }

  method CollectFunctionCallSiteData(pdg: Pdg) returns (data: CallSiteData)
    ensures data == DataOf(pdg)
  {
    data := map[];
    var remaining := pdg.Keys;
    while remaining != {}
      invariant remaining <= pdg.Keys
      invariant data.Keys == pdg.Keys - remaining
      invariant forall f :: f in data ==> data[f] == CountTable(pdg[f].callSites, |pdg[f].callSites|)
      decreases remaining
    {
      var f :| f in remaining;
      var counts := CountCallers(pdg[f].callSites);
      data := data[f := counts];
      remaining := remaining - {f};
    }
  }

  /** Each node is filed under its own function, so no two functions share one. */
  ghost predicate Filed(nodes: map<FunctionId, CallGraphNode>) {
    forall f :: f in nodes ==> nodes[f].f == f
  }

  class WeightAssigningHelper {
    const callGraph: map<FunctionId, CallGraphNode>
    const pdg: Pdg
    var callNumWeights: seq<WeightRef>

    constructor (callGraph: map<FunctionId, CallGraphNode>, pdg: Pdg)
      ensures this.callGraph == callGraph && this.pdg == pdg && callNumWeights == []
    {
      this.callGraph, this.pdg := callGraph, pdg;
      callNumWeights := [];
    }

    ghost function Graph(): CallGraph
      reads callGraph.Values
    {
      GraphOf(callGraph)
    }

    /** Every caller on an in-edge is known where the callee has call site data; the
        lookup does not check. */
    ghost predicate Known(data: CallSiteData)
      reads callGraph.Values
    {
      forall f, i :: f in callGraph && f in data && 0 <= i < |callGraph[f].inEdges| ==>
        callGraph[f].inEdges[i].source in data[f]
    }

    /** The pointers to all in-edge copies of the functions of fs with data, each once. */
    ghost predicate Points(fs: set<FunctionId>, data: CallSiteData)
      reads this, callGraph.Values
    {
      && Distinct(callNumWeights)
      && forall r :: r in callNumWeights <==>
           r.f in fs && r.f in callGraph && r.f in data && r.i < |callGraph[r.f].inEdges|
    }

    method AssignInEdges(data: CallSiteData)
      requires Filed(callGraph) && Known(data) && callNumWeights == []
      modifies this`callNumWeights, callGraph.Values`inEdges
      ensures forall f :: f in callGraph ==> callGraph[f].inEdges == AssignedIn(old(callGraph[f].inEdges), f, data)
      ensures Points(callGraph.Keys, data)
    {
      var remaining := callGraph.Keys;
      while remaining != {}
        invariant remaining <= callGraph.Keys
        invariant forall f :: f in remaining ==> callGraph[f].inEdges == old(callGraph[f].inEdges)
        invariant forall f :: f in callGraph.Keys - remaining ==>
                    callGraph[f].inEdges == AssignedIn(old(callGraph[f].inEdges), f, data)
        invariant Points(callGraph.Keys - remaining, data)
        decreases remaining
      {
        var f :| f in remaining;
        if f in data {
          RefsExtend(callNumWeights, f, |callGraph[f].inEdges|);
          AssignInEdgesOf(f, callGraph[f], data);
        } else {
          AssignedWithoutData(callGraph[f].inEdges, f, data);
        }
        remaining := remaining - {f};
      }
      assert callGraph.Keys - remaining == callGraph.Keys;
    }

    method AssignInEdgesOf(f: FunctionId, node: CallGraphNode, data: CallSiteData)
      requires f in data
      requires forall i :: 0 <= i < |node.inEdges| ==> node.inEdges[i].source in data[f]
      modifies this`callNumWeights, node`inEdges
      ensures node.inEdges == AssignedIn(old(node.inEdges), f, data)
      ensures callNumWeights == old(callNumWeights) + RefsOf(f, |node.inEdges|)
    {
      ghost var edges := node.inEdges;
      for i := 0 to |node.inEdges|
        invariant |node.inEdges| == |edges|
        invariant forall k :: 0 <= k < i ==> node.inEdges[k] == AssignedIn(edges, f, data)[k]
        invariant forall k :: i <= k < |edges| ==> node.inEdges[k] == edges[k]
        invariant callNumWeights == old(callNumWeights) + RefsOf(f, i)
      {
        var edge := node.inEdges[i];
        var calls := data[f][edge.source].Floor;
        node.inEdges := node.inEdges[i := edge.(callNum := calls as real)];
        callNumWeights := callNumWeights + [WeightRef(f, i)];
      }
    }

    method AssignOutEdges(data: CallSiteData)
      requires Filed(callGraph)
      modifies callGraph.Values`outEdges
      ensures forall f :: f in callGraph ==> callGraph[f].outEdges == AssignedOut(old(callGraph[f].outEdges), f, data)
    {
      var remaining := callGraph.Keys;
      while remaining != {}
        invariant remaining <= callGraph.Keys
        invariant forall f :: f in remaining ==> callGraph[f].outEdges == old(callGraph[f].outEdges)
        invariant forall f :: f in callGraph.Keys - remaining ==>
                    callGraph[f].outEdges == AssignedOut(old(callGraph[f].outEdges), f, data)
        decreases remaining
      {
        var f :| f in remaining;
        AssignOutEdgesOf(f, callGraph[f], data);
        remaining := remaining - {f};
      }
    }

    method AssignOutEdgesOf(caller: FunctionId, node: CallGraphNode, data: CallSiteData)
      modifies node`outEdges
      ensures node.outEdges == AssignedOut(old(node.outEdges), caller, data)
    {
      ghost var edges := node.outEdges;
      for i := 0 to |node.outEdges|
        invariant |node.outEdges| == |edges|
        invariant forall k :: 0 <= k < i ==> node.outEdges[k] == AssignedOut(edges, caller, data)[k]
        invariant forall k :: i <= k < |edges| ==> node.outEdges[k] == edges[k]
      {
        var edge := node.outEdges[i];
        var f := edge.sink;
        if f !in data || caller !in data[f] {
          continue;
        }
        var calls := data[f][caller].Floor;
        node.outEdges := node.outEdges[i := edge.(callNum := calls as real)];
      }
    }

    /** Both copies of each edge, as the counts of data say. */
    method AssignCallNumWeights() returns (ghost data: CallSiteData)
      requires Filed(callGraph) && Known(DataOf(pdg)) && callNumWeights == []
      modifies this`callNumWeights, callGraph.Values`inEdges, callGraph.Values`outEdges
      ensures data == DataOf(pdg) && Points(callGraph.Keys, data)
      ensures forall f :: f in callGraph ==>
                && callGraph[f].inEdges == AssignedIn(old(callGraph[f].inEdges), f, data)
                && callGraph[f].outEdges == AssignedOut(old(callGraph[f].outEdges), f, data)
    {
      var callSiteData := CollectFunctionCallSiteData(pdg);
      data := callSiteData;
      AssignInEdges(callSiteData);
      AssignOutEdges(callSiteData);
    }

    /** These are the values that the pointers point to. */
    ghost predicate Hold(weights: seq<WeightRef>, values: seq<real>)
      reads callGraph.Values
    {
      && |values| == |weights|
      && forall k :: 0 <= k < |weights| ==>
           && weights[k].f in callGraph && weights[k].i < |callGraph[weights[k].f].inEdges|
           && callGraph[weights[k].f].inEdges[weights[k].i].callNum == values[k]
    }

    lemma HoldValues(weights: seq<WeightRef>)
      requires ValidRefs(Graph(), weights)
      ensures Hold(weights, ValuesAt(Graph(), weights))
    {
      forall k | 0 <= k < |weights|
        ensures weights[k].f in Graph() && weights[k].i < |Graph()[weights[k].f].inEdges|
      {
        assert weights[k] in weights;
      }
    }

    method Range(weights: seq<WeightRef>) returns (min: real, max: real)
      requires weights != [] && ValidRefs(Graph(), weights)
      ensures var values := ValuesAt(Graph(), weights);
              min == MinOf(values, |values|) && max == MaxOf(values, |values|)
    {
      HoldValues(weights);
      min, max := RangeOf(weights, ValuesAt(Graph(), weights));
    }

    method RangeOf(weights: seq<WeightRef>, ghost values: seq<real>) returns (min: real, max: real)
      requires weights != [] && Hold(weights, values)
      ensures min == MinOf(values, |values|) && max == MaxOf(values, |values|)
    {
      min := Weight(weights, values, 0);
      max := min;
      for k := 1 to |weights|
        invariant min == MinOf(values, k) && max == MaxOf(values, k)
      {
        var d := Weight(weights, values, k);
        NextRange(values, k);
        if d < min {
          min := d;
        }
        if max < d {
          max := d;
        }
      }
    }

    method Weight(weights: seq<WeightRef>, ghost values: seq<real>, k: nat) returns (d: real)
      requires k < |weights| && Hold(weights, values)
      ensures d == values[k]
    {
      d := callGraph[weights[k].f].inEdges[weights[k].i].callNum;
    }

    /** The first k pointers have been followed. */
    ghost predicate RescaledUpTo(start: map<FunctionId, seq<Edge>>, weights: seq<WeightRef>, k: nat,
                                 min: real, max: real)
      requires k <= |weights|
      reads callGraph.Values
    {
      && start.Keys == callGraph.Keys
      && forall f :: f in callGraph ==> callGraph[f].inEdges == RescaledEdges(start[f], f, weights[..k], min, max)
    }

    method Rescale(weights: seq<WeightRef>, k: nat, min: real, max: real, ghost start: map<FunctionId, seq<Edge>>)
      requires k < |weights| && Filed(callGraph) && Distinct(weights)
      requires weights[k].f in callGraph && weights[k].i < |callGraph[weights[k].f].inEdges|
      requires RescaledUpTo(start, weights, k, min, max)
      modifies callGraph.Values`inEdges
      ensures RescaledUpTo(start, weights, k + 1, min, max)
    {
      var d := weights[k];
      var node := callGraph[d.f];
      forall f | f in callGraph
        ensures NextRescaled(start[f], f, weights, k, min, max)
      {
        RescaledNext(start[f], f, weights, k, min, max);
      }
      var edge, diff := node.inEdges[d.i], max - min;
      var value := if diff == 0.0 then min else (edge.callNum - min) / diff;
      assert value == Scale(edge.callNum, min, max);
      node.inEdges := node.inEdges[d.i := edge.(callNum := value)];
    }

    /** Scales what the pointers point to, in place, and nothing else. */
    method NormalizeWeights(weights: seq<WeightRef>)
      requires Filed(callGraph)
      requires weights != [] && Distinct(weights) && ValidRefs(Graph(), weights)
      modifies callGraph.Values`inEdges
      ensures var values := ValuesAt(old(Graph()), weights);
              forall f :: f in callGraph ==>
                callGraph[f].inEdges == RescaledEdges(old(callGraph[f].inEdges), f, weights,
                                                      MinOf(values, |values|), MaxOf(values, |values|))
    {
      var min, max := Range(weights);
      RescaleAll(weights, min, max);
    }

    method RescaleAll(weights: seq<WeightRef>, min: real, max: real)
      requires Filed(callGraph) && Distinct(weights)
      requires forall k :: 0 <= k < |weights| ==>
                 weights[k].f in callGraph && weights[k].i < |callGraph[weights[k].f].inEdges|
      modifies callGraph.Values`inEdges
      ensures forall f :: f in callGraph ==>
                callGraph[f].inEdges == RescaledEdges(old(callGraph[f].inEdges), f, weights, min, max)
    {
      ghost var start := map f | f in callGraph :: callGraph[f].inEdges;
      for k := 0 to |weights|
        invariant RescaledUpTo(start, weights, k, min, max)
      {
        Rescale(weights, k, min, max, start);
      }
      assert weights[..|weights|] == weights;
    }

    /** The CALL_NUM part of assigning weights to a fresh graph. */
    method AssignWeights(ghost calls: Calls) returns (ghost min: real, ghost max: real)
      requires Filed(callGraph) && callNumWeights == []
      requires EdgesAre(Graph(), calls) && Unweighted(Graph()) && CallersKnown(calls, pdg)
      modifies this`callNumWeights, callGraph.Values`inEdges, callGraph.Values`outEdges
      ensures Produced(Graph(), calls, pdg, min, max)
      ensures CopiesAgree(Graph()) <==> OneCount(Counted(calls, pdg), CountIn(pdg))
    {
      ghost var start := Graph();
      CallersAreKnown(calls);
      ghost var data := AssignCallNumWeights();
      ghost var counted := Graph();
      assert AssignedFrom(start, counted, DataOf(pdg));
      AssignedWeights(start, counted, calls, pdg);
      assert PointsTo(counted, callNumWeights, pdg);
      min, max := Normalize(calls);
      NormalisedAgreement(Graph(), calls, pdg, min, max);
    }

    lemma CallersAreKnown(calls: Calls)
      requires EdgesAre(Graph(), calls) && CallersKnown(calls, pdg)
      ensures Known(DataOf(pdg))
    {
      var g := Graph();
      forall f, i | f in callGraph && f in pdg && 0 <= i < |callGraph[f].inEdges|
        ensures callGraph[f].inEdges[i].source in DataOf(pdg)[f]
      {
        assert f in g;
        CountedIsListed(g[f].inEdges, g[f].inEdges[i].source);
      }
    }

    /** An empty list of weights has no entry in the table and is not normalised. */
    method Normalize(ghost calls: Calls) returns (ghost min: real, ghost max: real)
      requires Filed(callGraph) && EdgesAre(Graph(), calls) && CallersKnown(calls, pdg)
      requires PointsTo(Graph(), callNumWeights, pdg)
      requires var count := OutCopies(Counted(calls, pdg), CountIn(pdg)); WeightedBy(Graph(), count, count)
      modifies this`callNumWeights, callGraph.Values`inEdges
      ensures Produced(Graph(), calls, pdg, min, max)
    {
      ghost var g, refs := Graph(), callNumWeights;
      min, max := NormalizeCollected();
      RescaledWeights(g, Graph(), calls, pdg, refs, min, max);
      if refs == [] {
        NothingCounted(g, calls);
      } else {
        CollectedRange(g, calls, pdg, refs);
      }
    }

    method NormalizeCollected() returns (ghost min: real, ghost max: real)
      requires Filed(callGraph) && PointsTo(Graph(), callNumWeights, pdg)
      modifies this`callNumWeights, callGraph.Values`inEdges
      ensures RescaledFrom(old(Graph()), Graph(), old(callNumWeights), min, max)
      ensures var values := ValuesAt(old(Graph()), old(callNumWeights));
              values != [] ==> min == MinOf(values, |values|) && max == MaxOf(values, |values|)
    {
      ghost var values := ValuesAt(Graph(), callNumWeights);
      min, max := 0.0, 0.0;
      if callNumWeights != [] {
        min, max := MinOf(values, |values|), MaxOf(values, |values|);
        NormalizeWeights(callNumWeights);
      }
      callNumWeights := [];
    }

    lemma NothingCounted(g: CallGraph, calls: Calls)
      requires EdgesAre(g, calls) && PointsTo(g, [], pdg)
      requires var count := OutCopies(Counted(calls, pdg), CountIn(pdg)); WeightedBy(g, count, count)
      ensures Counted(calls, pdg) == {}
    {
      if Counted(calls, pdg) != {} {
        var c :| c in Counted(calls, pdg);
        var k := CountedIsPointed(g, calls, pdg, [], c.0, c.1);
        assert false;
      }
    }
  }
}
