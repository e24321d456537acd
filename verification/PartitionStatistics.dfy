/** The reported number of context switches (lib/Analysis/PartitionStatistics.cpp). */
module PartitionStatistics {
  import opened Numbers
  import opened Sums
  import opened CallGraphs
  import opened KLSaturation
  import opened CutCost
  import opened Partitions

  ghost function Incident(g: CallGraph): FunctionId -> real {
    f => AbsWeight(LinksOf(g, f), |LinksOf(g, f)|)
  }

  /** The weights met while reporting on p stay below the sentinel. */
  ghost predicate ReportIsModerate(g: CallGraph, p: set<FunctionId>) {
    SetSum(p, Incident(g)) < POS_INFINITY
  }

  /** One more function of p on top of those already added. */
  lemma AddOneFunction(g: CallGraph, p: set<FunctionId>, done: set<FunctionId>, f: FunctionId, n: real)
    requires ReportIsModerate(g, p)
    requires f in p && f !in done && done <= p
    requires n == SetSum(done, OutsideWeight(g, p)) && Abs(n) <= SetSum(done, Incident(g))
    ensures var more := SafeSum(n, External(Saturating, g, f, p));
            more == SetSum(done + {f}, OutsideWeight(g, p)) && Abs(more) <= SetSum(done + {f}, Incident(g))
  {
    SetSumSubset(done, p, Incident(g));
    SetSumSubset(done + {f}, p, Incident(g));
    SetSumInsert(done, Incident(g), f);
    SetSumSubset(done, done, Incident(g));
    SetSumInsert(done, OutsideWeight(g, p), f);
    SmallWeights(LinksOf(g, f), |LinksOf(g, f)|, p, false);
    SmallSum(n, External(Exact, g, f, p));
  }

  class PartitionStatistics {
    const callgraph: CallGraph
    const securePartition: Partition
    const insecurePartition: Partition

    constructor (callgraph: CallGraph, securePartition: Partition, insecurePartition: Partition)
      ensures this.callgraph == callgraph
      ensures this.securePartition == securePartition && this.insecurePartition == insecurePartition
    {
      this.callgraph := callgraph;
      this.securePartition, this.insecurePartition := securePartition, insecurePartition;
    }

    /** For complementary partitions and agreeing edge copies both entries are the
        weight of the cut. */
    method Report() returns (secureSwitches: real, insecureSwitches: real)
      ensures var p, q := securePartition.functions, insecurePartition.functions;
              && ReportIsModerate(callgraph, p) && ReportIsModerate(callgraph, q)
              && CopiesAgree(callgraph) && p !! q && ClosedIn(callgraph, p + q)
              ==> secureSwitches == insecureSwitches == Crossing(callgraph, p, q)
    {
      secureSwitches := ReportNumOfContextSwitches(securePartition);
      insecureSwitches := ReportNumOfContextSwitches(insecurePartition);
      ghost var p, q := securePartition.functions, insecurePartition.functions;
      if CopiesAgree(callgraph) && p !! q && ClosedIn(callgraph, p + q) {
        BothReportsAreTheCut(callgraph, p, q);
      }
    }

    method ReportNumOfContextSwitches(partition: Partition) returns (ctxSwitchN: real)
      ensures ReportIsModerate(callgraph, partition.functions) ==>
                ctxSwitchN == Reported(callgraph, partition.functions)
    {
      ctxSwitchN := 0.0;
      var p := partition.functions;
      var remaining := p;
      SetSumZero({}, OutsideWeight(callgraph, p));
      SetSumZero({}, Incident(callgraph));
      assert p - remaining == {};
      while remaining != {}
        invariant remaining <= p
        invariant ReportIsModerate(callgraph, p) ==>
                    && ctxSwitchN == SetSum(p - remaining, OutsideWeight(callgraph, p))
                    && Abs(ctxSwitchN) <= SetSum(p - remaining, Incident(callgraph))
        decreases remaining
      {
        var f :| f in remaining;
        var inFunction := GetCtxSwitchesInFunction(f, partition);
        if ReportIsModerate(callgraph, p) {
          AddOneFunction(callgraph, p, p - remaining, f, ctxSwitchN);
        }
        ctxSwitchN := SafeSum(ctxSwitchN, inFunction);
        assert p - (remaining - {f}) == p - remaining + {f};
        remaining := remaining - {f};
      }
      assert p - remaining == p;
    }

    method GetCtxSwitchesInFunction(f: FunctionId, partition: Partition) returns (ctxSwitchN: real)
      ensures ctxSwitchN == External(Saturating, callgraph, f, partition.functions)
    {
      ctxSwitchN := 0.0;
      if f !in callgraph {
        return;
      }
      var node := callgraph[f];
      ghost var links := Links(node);
      for i := 0 to |node.inEdges|
        invariant ctxSwitchN == WeightTo(Saturating, links, i, partition.functions, false)
      {
        var edge := node.inEdges[i];
        assert links[i] == Link(edge.source, edge.callNum);
        if edge.source !in partition.functions {
          ctxSwitchN := SafeSum(ctxSwitchN, edge.callNum);
        }
      }
      for i := 0 to |node.outEdges|
        invariant ctxSwitchN == WeightTo(Saturating, links, |node.inEdges| + i, partition.functions, false)
      {
        var edge := node.outEdges[i];
        assert links[|node.inEdges| + i] == Link(edge.sink, edge.callNum);
        if edge.sink !in partition.functions {
          ctxSwitchN := SafeSum(ctxSwitchN, edge.callNum);
        }
      }
    }
  }
}
