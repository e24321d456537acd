/** The Kernighan-Lin pass as it runs (lib/Optimization/KLOptimizationPass.cpp):
    fields updated in place, on sticking numbers. */
module KLOptimizationPasses {
  import opened Numbers
  import opened CallGraphs
  import opened KLSpec
  import opened KLOptimality
  import opened Partitions

  /** Subscripting a map of numbers yields zero for a missing key. */
  function Lookup(costs: map<FunctionId, real>, f: FunctionId): real {
    if f in costs then costs[f] else 0.0
  }

  method MaxElement(gains: seq<real>) returns (k: nat)
    requires gains != []
    ensures k == FirstMax(gains, |gains|)
  {
    k := 0;
    for i := 1 to |gains|
      invariant k == FirstMax(gains, i)
    {
      if gains[k] < gains[i] {
        k := i;
      }
    }
  }

  /** The states of the selections, the exhausted one included. */
  lemma AllStates(g: CallGraph, insecure: set<FunctionId>, all: seq<FunctionId>) returns (states: seq<PassState>)
    requires Distinct(all)
    ensures |states| == |all| + 1
    ensures states[0] == PassState(all, InitialGains(Saturating, g, all, insecure), [])
    ensures states[|all|].moves == Trace(Saturating, g, insecure, all)
    ensures forall j :: 0 <= j < |all| ==> Follows(Saturating, g, states[j], states[j + 1])
    ensures forall j, f :: 0 <= j <= |all| && f in states[j].candidates ==> f in all
  {
    states := seq(|all| + 1, j requires 0 <= j <= |all| => After(Saturating, g, insecure, all, j));
    forall j | 0 <= j <= |all|
      ensures forall f :: f in states[j].candidates ==> f in all
    {
      CandidatesSplit(Saturating, g, insecure, all, j);
      RemainingAreCandidates(all, states[j]);
    }
    forall j | 0 <= j < |all|
      ensures Follows(Saturating, g, states[j], states[j + 1])
    {
      assert states[j + 1] == After(Saturating, g, insecure, all, j + 1) == Step(Saturating, g, states[j]);
    }
  }

  lemma OneMore(secure: set<FunctionId>, insecure: set<FunctionId>, moved: set<FunctionId>, f: FunctionId)
    ensures secure + moved + {f} == secure + (moved + {f})
    ensures insecure - moved - {f} == insecure - (moved + {f})
  {
  }

  class KLOptimizationPass {
    const callgraph: CallGraph
    const securePartition: Partition
    const insecurePartition: Partition
    var candidates: seq<FunctionId>
    var moveGains: seq<real>
    var functionMoveGains: seq<Move>
    var functionEdgeCosts: map<FunctionId, map<FunctionId, real>>
    var functionCosts: map<FunctionId, real>

    constructor (callgraph: CallGraph, securePartition: Partition, insecurePartition: Partition)
      ensures this.callgraph == callgraph
      ensures this.securePartition == securePartition && this.insecurePartition == insecurePartition
      ensures candidates == [] && Fresh()
    {
      this.callgraph := callgraph;
      this.securePartition, this.insecurePartition := securePartition, insecurePartition;
      candidates, moveGains, functionMoveGains := [], [], [];
      functionEdgeCosts, functionCosts := map[], map[];
    }

    /** Nothing has been run on this object yet. */
    ghost predicate Fresh()
      reads this
    {
      functionMoveGains == [] && functionEdgeCosts == map[] && functionCosts == map[]
    }

    /** The cost tables hold what the graph says about f. */
    ghost predicate Tabulated(f: FunctionId)
      reads this`functionEdgeCosts, this`functionCosts
    {
      f in callgraph && EdgeCostsKnown(f) && NodeCostKnown(f)
    }

    ghost predicate EdgeCostsKnown(f: FunctionId)
      reads this`functionEdgeCosts
    {
      && f in functionEdgeCosts
      && forall other :: Lookup(functionEdgeCosts[f], other) == EdgeCost(Saturating, callgraph, f, other)
    }

    ghost predicate NodeCostKnown(f: FunctionId)
      reads this`functionCosts
    {
      f in functionCosts && functionCosts[f] == NodeCost(callgraph, f)
    }

    method SetCandidates(candidates: seq<FunctionId>)
      modifies this`candidates
      ensures this.candidates == candidates
    {
      this.candidates := candidates;
    }

    method Run()
      requires Fresh() && securePartition != insecurePartition
      requires Distinct(candidates)
      requires forall f :: f in candidates ==> f in callgraph
      modifies this, securePartition`functions, securePartition`related, insecurePartition`functions
      ensures var moves := Trace(Saturating, callgraph, old(insecurePartition.functions), old(candidates));
              var keep := KeepCount(Saturating, callgraph, old(insecurePartition.functions), old(candidates));
              && functionMoveGains == moves
              && securePartition.functions
                 == old(securePartition.functions) + Functions(moves) - Functions(moves[keep..])
              && insecurePartition.functions
                 == old(insecurePartition.functions) - Functions(moves) + Functions(moves[keep..])
              && securePartition.related == old(securePartition.related) - Functions(moves[..keep])
    {
      ComputeCandidateEdgeCosts();
      ComputeNodeCosts();
      ghost var states := AllStates(callgraph, insecurePartition.functions, candidates);
      SelectAll(states);
      ApplyOptimization();
    }

    /** The selection loop of the pass; states are the specified states it goes through. */
    method SelectAll(ghost states: seq<PassState>)
      requires functionMoveGains == [] && securePartition != insecurePartition
      requires forall f :: f in candidates ==> Tabulated(f)
      requires |states| == |candidates| + 1
      requires states[0] == PassState(
                 candidates, InitialGains(Saturating, callgraph, candidates, insecurePartition.functions), [])
      requires forall j :: 0 <= j < |candidates| ==> Follows(Saturating, callgraph, states[j], states[j + 1])
      requires forall j, f :: 0 <= j <= |candidates| && f in states[j].candidates ==> f in candidates
      modifies this`candidates, this`moveGains, this`functionMoveGains
      modifies securePartition`functions, insecurePartition`functions
      ensures functionMoveGains == states[|old(candidates)|].moves
      ensures securePartition.functions == old(securePartition.functions) + Functions(functionMoveGains)
      ensures insecurePartition.functions == old(insecurePartition.functions) - Functions(functionMoveGains)
    {
      ghost var n, j, moved: set<FunctionId> := |candidates|, 0, {};
      ghost var secure, insecure := securePartition.functions, insecurePartition.functions;
      var movedF: Option<FunctionId> := None;
      while candidates != []
        invariant j + |candidates| == n
        invariant candidates == states[j].candidates && functionMoveGains == states[j].moves
        invariant movedF.None? ==> j == 0 && insecurePartition.functions == insecure
        invariant movedF.Some? ==> |moveGains| == |candidates|
        invariant movedF.Some? ==>
                    UpdatedGains(Saturating, callgraph, candidates, moveGains, movedF.value) == states[j].gains
        invariant moved == Functions(functionMoveGains)
        invariant securePartition.functions == secure + moved && insecurePartition.functions == insecure - moved
        decreases |candidates|
      {
        assert Follows(Saturating, callgraph, states[j], states[j + 1]);
        movedF := SelectAndMove(movedF, states[j]);
        OneMore(secure, insecure, moved, movedF.value);
        j, moved := j + 1, moved + {movedF.value};
      }
    }

    /** One round of the loop in Run; st is the state the selection is made in. */
    method SelectAndMove(movedF: Option<FunctionId>, ghost st: PassState) returns (nextF: Option<FunctionId>)
      requires securePartition != insecurePartition
      requires 0 < |candidates| == |st.gains| && candidates == st.candidates && functionMoveGains == st.moves
      requires forall f :: f in candidates ==> Tabulated(f)
      requires movedF.None? ==> st.gains == InitialGains(Saturating, callgraph, candidates, insecurePartition.functions)
      requires movedF.Some? ==> |moveGains| == |candidates|
      requires movedF.Some? ==> st.gains == UpdatedGains(Saturating, callgraph, candidates, moveGains, movedF.value)
      modifies this`candidates, this`moveGains, this`functionMoveGains
      modifies securePartition`functions, insecurePartition`functions
      ensures var k := FirstMax(st.gains, |st.gains|);
              && nextF == Some(st.candidates[k])
              && candidates == Erase(st.candidates, k)
              && moveGains == Erase(st.gains, k)
              && functionMoveGains == st.moves + [Move(st.candidates[k], st.gains[k])]
              && Functions(functionMoveGains) == Functions(st.moves) + {st.candidates[k]}
              && securePartition.functions == old(securePartition.functions) + {st.candidates[k]}
              && insecurePartition.functions == old(insecurePartition.functions) - {st.candidates[k]}
    {
      ComputeMoveGains(movedF);
      var maxGainIdx := MaxElement(moveGains);
      nextF := Some(candidates[maxGainIdx]);
      MoveFunction(maxGainIdx);
      FunctionsAppend(st.moves, Move(st.candidates[maxGainIdx], st.gains[maxGainIdx]));
    }

    method ComputeCandidateEdgeCosts()
      modifies this`functionEdgeCosts
      ensures forall f :: f in candidates && f in callgraph ==> EdgeCostsKnown(f)
      ensures forall f :: f !in candidates || f !in callgraph ==>
                (f in functionEdgeCosts <==> f in old(functionEdgeCosts))
    {
      for c := 0 to |candidates|
        invariant forall k :: 0 <= k < c && candidates[k] in callgraph ==> EdgeCostsKnown(candidates[k])
        invariant forall f :: f !in candidates || f !in callgraph ==>
                    (f in functionEdgeCosts <==> f in old(functionEdgeCosts))
      {
        var f := candidates[c];
        if f !in callgraph {
          continue;
        }
        var costs := AccumulateEdgeCosts(callgraph[f]);
        functionEdgeCosts := functionEdgeCosts[f := costs];
      }
    }

    /** The two edge loops for one candidate. */
    method AccumulateEdgeCosts(node: Node) returns (costs: map<FunctionId, real>)
      ensures forall other :: Lookup(costs, other) == WeightTo(Saturating, Links(node), |Links(node)|, {other}, true)
    {
      ghost var links := Links(node);
      costs := map[];
      for i := 0 to |node.inEdges|
        invariant forall other :: Lookup(costs, other) == WeightTo(Saturating, links, i, {other}, true)
      {
        var edge := node.inEdges[i];
        assert links[i] == Link(edge.source, edge.callNum);
        costs := costs[edge.source := SafeSum(Lookup(costs, edge.source), edge.callNum)];
      }
      for i := 0 to |node.outEdges|
        invariant forall other ::
                    Lookup(costs, other) == WeightTo(Saturating, links, |node.inEdges| + i, {other}, true)
      {
        var edge := node.outEdges[i];
        assert links[|node.inEdges| + i] == Link(edge.sink, edge.callNum);
        costs := costs[edge.sink := SafeSum(Lookup(costs, edge.sink), edge.callNum)];
      }
    }

    method ComputeNodeCosts()
      requires functionCosts == map[]
      modifies this`functionCosts
      ensures forall f :: f in candidates && f in callgraph ==> NodeCostKnown(f)
      ensures forall f :: f in candidates && f in callgraph ==>
                && f in functionCosts
                && functionCosts[f] ==
                   (match callgraph[f].sensitiveRelated case Some(s) => s case None => 0.0)
                   - (match callgraph[f].size case Some(z) => z case None => 0.0)
      ensures forall f :: f in functionCosts ==> f in candidates && f in callgraph
    {
      for c := 0 to |candidates|
        invariant forall k :: 0 <= k < c && candidates[k] in callgraph ==> NodeCostKnown(candidates[k])
        invariant forall f :: f in functionCosts ==> f in candidates && f in callgraph
      {
        var f := candidates[c];
        if f !in callgraph {
          continue;
        }
        var sensitiveRelatedFactor := FactorOrZero(callgraph[f].sensitiveRelated);
        var sizeFactor := FactorOrZero(callgraph[f].size);
        functionCosts := functionCosts[f := sensitiveRelatedFactor + -1.0 * sizeFactor];
      }
    }

    method ComputeMoveGains(movedF: Option<FunctionId>)
      requires forall f :: f in candidates ==> Tabulated(f)
      requires movedF.Some? ==> |moveGains| == |candidates|
      modifies this`moveGains
      ensures moveGains ==
              if movedF.None? then InitialGains(Saturating, callgraph, candidates, insecurePartition.functions)
              else UpdatedGains(Saturating, callgraph, candidates, old(moveGains), movedF.value)
    {
      if movedF.None? {
        ComputeInitialMoveGains();
        return;
      }
      UpdateMoveGains(movedF.value);
    }

    /** The loop over the remaining candidates after a move. */
    method UpdateMoveGains(movedF: FunctionId)
      requires forall f :: f in candidates ==> Tabulated(f)
      requires |moveGains| == |candidates|
      modifies this`moveGains
      ensures moveGains == UpdatedGains(Saturating, callgraph, candidates, old(moveGains), movedF)
    {
      ghost var target := UpdatedGains(Saturating, callgraph, candidates, moveGains, movedF);
      for i := 0 to |candidates|
        invariant |moveGains| == |candidates|
        invariant forall k :: 0 <= k < i ==> moveGains[k] == target[k]
        invariant forall k :: i <= k < |candidates| ==> moveGains[k] == old(moveGains)[k]
      {
        assert candidates[i] in candidates;
        var edgeCost := Lookup(functionEdgeCosts[candidates[i]], movedF);
        assert target[i] == SafeSum(moveGains[i], 2.0 * edgeCost);
        moveGains := moveGains[i := SafeSum(moveGains[i], 2.0 * edgeCost)];
      }
    }

    method ComputeInitialMoveGains()
      requires forall f :: f in candidates ==> Tabulated(f)
      modifies this`moveGains
      ensures moveGains == InitialGains(Saturating, callgraph, candidates, insecurePartition.functions)
    {
      moveGains := seq(|candidates|, _ => 0.0);
      ghost var target := InitialGains(Saturating, callgraph, candidates, insecurePartition.functions);
      for i := 0 to |candidates|
        invariant |moveGains| == |candidates|
        invariant forall k :: 0 <= k < i ==> moveGains[k] == target[k]
      {
        var f := candidates[i];
        assert f in candidates;
        var internalCost, externalCost := GetFunctionCosts(callgraph[f]);
        var nodeCost := functionCosts[f];
        moveGains := moveGains[i := SafeSum(SafeSum(externalCost, -internalCost), nodeCost)];
      }
    }

    method GetFunctionCosts(node: Node) returns (internalCost: real, externalCost: real)
      ensures internalCost == WeightTo(Saturating, Links(node), |Links(node)|, insecurePartition.functions, true)
      ensures externalCost == WeightTo(Saturating, Links(node), |Links(node)|, insecurePartition.functions, false)
    {
      ghost var links := Links(node);
      internalCost, externalCost := 0.0, 0.0;
      for i := 0 to |node.inEdges|
        invariant internalCost == WeightTo(Saturating, links, i, insecurePartition.functions, true)
        invariant externalCost == WeightTo(Saturating, links, i, insecurePartition.functions, false)
      {
        var edge := node.inEdges[i];
        assert links[i] == Link(edge.source, edge.callNum);
        if edge.source in insecurePartition.functions {
          internalCost := SafeSum(internalCost, edge.callNum);
        } else {
          externalCost := SafeSum(externalCost, edge.callNum);
        }
      }
      for i := 0 to |node.outEdges|
        invariant internalCost == WeightTo(Saturating, links, |node.inEdges| + i, insecurePartition.functions, true)
        invariant externalCost == WeightTo(Saturating, links, |node.inEdges| + i, insecurePartition.functions, false)
      {
        var edge := node.outEdges[i];
        assert links[|node.inEdges| + i] == Link(edge.sink, edge.callNum);
        if edge.sink in insecurePartition.functions {
          internalCost := SafeSum(internalCost, edge.callNum);
        } else {
          externalCost := SafeSum(externalCost, edge.callNum);
        }
      }
    }

    method MoveFunction(idx: nat)
      requires idx < |candidates| == |moveGains| && securePartition != insecurePartition
      modifies this`candidates, this`moveGains, this`functionMoveGains
      modifies securePartition`functions, insecurePartition`functions
      ensures functionMoveGains == old(functionMoveGains) + [Move(old(candidates)[idx], old(moveGains)[idx])]
      ensures candidates == Erase(old(candidates), idx) && moveGains == Erase(old(moveGains), idx)
      ensures securePartition.functions == old(securePartition.functions) + {old(candidates)[idx]}
      ensures insecurePartition.functions == old(insecurePartition.functions) - {old(candidates)[idx]}
    {
      var f, gain := candidates[idx], moveGains[idx];
      functionMoveGains := functionMoveGains + [Move(f, gain)];
      candidates := candidates[..idx] + candidates[idx + 1..];
      moveGains := moveGains[..idx] + moveGains[idx + 1..];
      securePartition.AddToPartition(f);
      insecurePartition.RemoveFromPartition(f);
    }

    /** Keep the best prefix, undo the other moves. */
    method ApplyOptimization()
      requires securePartition != insecurePartition
      modifies securePartition`functions, securePartition`related, insecurePartition`functions
      ensures var keep := Scan(Saturating, functionMoveGains, |functionMoveGains|).keep;
              && securePartition.functions == old(securePartition.functions) - Functions(functionMoveGains[keep..])
              && insecurePartition.functions == old(insecurePartition.functions) + Functions(functionMoveGains[keep..])
              && securePartition.related == old(securePartition.related) - Functions(functionMoveGains[..keep])
    {
      var idx := BestMove();
      RevertFrom(idx + 1);
      DropRelatedBefore(idx + 1);
    }

    /** Index of the last move to keep, -1 for none. */
    method BestMove() returns (idx: int)
      ensures idx + 1 == Scan(Saturating, functionMoveGains, |functionMoveGains|).keep
    {
      var maxGain, intmdGain := 0.0, 0.0;
      idx := -1;
      for i := 0 to |functionMoveGains|
        invariant Scan(Saturating, functionMoveGains, i) == Best(maxGain, intmdGain, idx + 1)
      {
        intmdGain := SafeSum(intmdGain, functionMoveGains[i].gain);
        if maxGain <= intmdGain {
          maxGain, idx := intmdGain, i;
        }
      }
    }

    method RevertFrom(first: nat)
      requires first <= |functionMoveGains| && securePartition != insecurePartition
      modifies securePartition`functions, insecurePartition`functions
      ensures securePartition.functions == old(securePartition.functions) - Functions(functionMoveGains[first..])
      ensures insecurePartition.functions == old(insecurePartition.functions) + Functions(functionMoveGains[first..])
    {
      var moves := functionMoveGains;
      for i := first to |moves|
        invariant securePartition.functions == old(securePartition.functions) - Functions(moves[first..i])
        invariant insecurePartition.functions == old(insecurePartition.functions) + Functions(moves[first..i])
      {
        securePartition.RemoveFromPartition(moves[i].moved);
        insecurePartition.AddToPartition(moves[i].moved);
        FunctionsAppend(moves[first..i], moves[i]);
        assert moves[first..i] + [moves[i]] == moves[first..i + 1];
      }
      assert moves[first..|moves|] == moves[first..];
    }

    method DropRelatedBefore(end: nat)
      requires end <= |functionMoveGains|
      modifies securePartition`related
      ensures securePartition.related == old(securePartition.related) - Functions(functionMoveGains[..end])
    {
      var moves := functionMoveGains;
      for i := 0 to end
        invariant securePartition.related == old(securePartition.related) - Functions(moves[..i])
      {
        securePartition.RemoveRelatedFunction(moves[i].moved);
        FunctionsAppend(moves[..i], moves[i]);
        assert moves[..i] + [moves[i]] == moves[..i + 1];
      }
    }
  }
}
