/** The ILP optimisation as it runs: build the model in the fields, hand it to the
    solver, keep the functions whose variable is 1, and apply them later. */
module ILPOptimizations {
  import opened Numbers
  import opened CallGraphs
  import opened ILPModels
  import opened ILPRounding
  import opened Partitions
  import opened KLOptimizers

  /** Functions that the model pins to 0 unless they are secure already. */
  function Outside(info: ModuleInfo): set<FunctionId> {
    info.declarations + info.mains
  }

  predicate IsEdgeVarOf(g: CallGraph, v: Var) {
    v.EdgeVar? && v.f in g && v.i < |g[v.f].outEdges|
  }

  function EdgeConstraintsOver(g: CallGraph, vs: set<Var>): set<Constraint> {
    set v, c | v in vs && IsEdgeVarOf(g, v) && c in EdgeConstraints(v.f, v.i, g[v.f].outEdges[v.i]) :: c
  }

  function CostsOver(g: CallGraph, vs: set<Var>): map<Var, real> {
    map v | v in vs :: CostOf(g, v)
  }

  lemma MoreCosts(g: CallGraph, vs: set<Var>, v: Var)
    ensures CostsOver(g, vs)[v := CostOf(g, v)] == CostsOver(g, vs + {v})
  {
  }

  lemma EdgeConstraintsOverAll(g: CallGraph)
    ensures EdgeConstraintsOver(g, EdgeVars(g)) == AllEdgeConstraints(g)
  {
    forall c | c in AllEdgeConstraints(g)
      ensures c in EdgeConstraintsOver(g, EdgeVars(g))
    {
      var f, i :| f in g && 0 <= i < |g[f].outEdges| && c in EdgeConstraints(f, i, g[f].outEdges[i]);
      assert EdgeVar(f, i) in EdgeVars(g) && IsEdgeVarOf(g, EdgeVar(f, i));
    }
  }

  /** What the pins mean: secure functions stay, and no other declaration or main comes in. */
  lemma PinsMean(g: CallGraph, info: ModuleInfo, secure: set<FunctionId>, a: Assignment)
    requires Feasible(ModelOf(g, secure, Outside(info)), a)
    ensures forall f :: f in g && f in secure ==> a(NodeVar(f)) == 1.0
    ensures forall f :: f in g && f !in secure && (f in info.declarations || f in info.mains) ==> a(NodeVar(f)) == 0.0
  {
    FeasibleMeans(g, secure, Outside(info), a);
  }

  lemma PinnedOnes(g: CallGraph, info: ModuleInfo, secure: set<FunctionId>, a: Assignment)
    ensures Feasible(ModelOf(g, secure, Outside(info)), a) ==>
              && g.Keys * secure <= Ones(g, a)
              && forall f :: f in Ones(g, a) - secure ==> f !in info.declarations && f !in info.mains
  {
    if Feasible(ModelOf(g, secure, Outside(info)), a) {
      PinsMean(g, info, secure, a);
    }
  }

  /** A choice of functions is feasible exactly when it contains the secure ones and adds
      no declaration and no main. */
  lemma FeasibleChoices(g: CallGraph, info: ModuleInfo, secure: set<FunctionId>, chosen: set<FunctionId>)
    requires WellFormed(g)
    ensures Feasible(ModelOf(g, secure, Outside(info)), Indicator(g, chosen)) <==>
            forall f :: f in g ==>
              && (f in secure ==> f in chosen)
              && (f in chosen && f !in secure ==> f !in info.declarations && f !in info.mains)
  {
    var a := Indicator(g, chosen);
    if Feasible(ModelOf(g, secure, Outside(info)), a) {
      PinsMean(g, info, secure, a);
      forall f | f in g
        ensures a(NodeVar(f)) == if f in chosen then 1.0 else 0.0
      {
      }
    } else if forall f :: f in g ==>
                && (f in secure ==> f in chosen)
                && (f in chosen && f !in secure ==> f !in info.declarations && f !in info.mains) {
      TightIsFeasible(g, secure, Outside(info), Membership(chosen));
    }
  }

  class ILPOptimization {
    const callgraph: CallGraph
    const info: ModuleInfo
    const securePartition: Partition
    const insecurePartition: Partition
    var nodeVariables: set<Var>
    var edgeVariables: set<Var>
    var constraints: set<Constraint>
    var objective: map<Var, real>
    var movedFunctions: set<FunctionId>

    constructor (callgraph: CallGraph, info: ModuleInfo, securePartition: Partition, insecurePartition: Partition)
      ensures this.callgraph == callgraph && this.info == info
      ensures this.securePartition == securePartition && this.insecurePartition == insecurePartition
      ensures Empty() && movedFunctions == {}
    {
      this.callgraph, this.info := callgraph, info;
      this.securePartition, this.insecurePartition := securePartition, insecurePartition;
      nodeVariables, edgeVariables, constraints, objective, movedFunctions := {}, {}, {}, map[], {};
    }

    ghost predicate Empty()
      reads this
    {
      nodeVariables == {} && edgeVariables == {} && constraints == {} && objective == map[]
    }

    /** `solve` stands for the external solver, which may fail. */
    method Run(solve: Model -> Option<Assignment>)
      requires Empty() && WellFormed(callgraph)
      modifies this
      ensures var m := ModelOf(callgraph, securePartition.functions, Outside(info));
              movedFunctions == old(movedFunctions) + (if solve(m).Some? then Ones(callgraph, solve(m).value) else {})
      ensures var m := ModelOf(callgraph, securePartition.functions, Outside(info));
              solve(m).Some? && Feasible(m, solve(m).value) ==>
                && callgraph.Keys * securePartition.functions <= movedFunctions
                && forall f :: f in movedFunctions - old(movedFunctions) - securePartition.functions ==>
                     f !in info.declarations && f !in info.mains
    {
      var model := CreateModel();
      var solution := solve(model);
      if solution.None? {
        return;
      }
      CollectMoved(solution.value);
      PinnedOnes(callgraph, info, securePartition.functions, solution.value);
    }

    method CreateModel() returns (model: Model)
      requires Empty() && WellFormed(callgraph)
      modifies this`nodeVariables, this`edgeVariables, this`constraints, this`objective
      ensures model == ModelOf(callgraph, securePartition.functions, Outside(info))
    {
      CreateNodeVariables();
      CreateEdgeVariables();
      CreateConstraints();
      CreateObjective();
      model := Model(nodeVariables + edgeVariables, constraints, objective);
    }

    /** Keeps the functions whose variable is 1. */
    method CollectMoved(a: Assignment)
      modifies this`movedFunctions
      ensures movedFunctions == old(movedFunctions) + Ones(callgraph, a)
      ensures forall f :: f in callgraph && a(NodeVar(f)) == 1.0 ==> f in movedFunctions
    {
      var remaining := callgraph.Keys;
      while remaining != {}
        invariant remaining <= callgraph.Keys
        invariant movedFunctions == old(movedFunctions) + (Ones(callgraph, a) - remaining)
        decreases remaining
      {
        var f :| f in remaining;
        if a(NodeVar(f)) == 1.0 {
          movedFunctions := movedFunctions + {f};
        }
        remaining := remaining - {f};
      }
    }

    method CreateNodeVariables()
      requires nodeVariables == {}
      modifies this`nodeVariables
      ensures nodeVariables == NodeVars(callgraph)
    {
      var remaining := callgraph.Keys;
      while remaining != {}
        invariant remaining <= callgraph.Keys
        invariant nodeVariables == NodeVarsIn(callgraph.Keys - remaining)
        decreases remaining
      {
        var f :| f in remaining;
        nodeVariables := nodeVariables + {NodeVar(f)};
        remaining := remaining - {f};
      }
    }

    method CreateEdgeVariables()
      requires edgeVariables == {}
      modifies this`edgeVariables
      ensures edgeVariables == EdgeVars(callgraph)
    {
      var remaining := callgraph.Keys;
      while remaining != {}
        invariant remaining <= callgraph.Keys
        invariant edgeVariables == EdgeVarsIn(callgraph, callgraph.Keys - remaining)
        decreases remaining
      {
        var f :| f in remaining;
        CreateEdgeVariablesOf(f);
        remaining := remaining - {f};
      }
    }

    method CreateEdgeVariablesOf(f: FunctionId)
      requires f in callgraph
      modifies this`edgeVariables
      ensures edgeVariables == old(edgeVariables) + EdgeVarsOf(f, |callgraph[f].outEdges|)
    {
      for i := 0 to |callgraph[f].outEdges|
        invariant edgeVariables == old(edgeVariables) + EdgeVarsOf(f, i)
      {
        edgeVariables := edgeVariables + {EdgeVar(f, i)};
      }
    }

    method CreateConstraints()
      requires nodeVariables == NodeVars(callgraph) && edgeVariables == EdgeVars(callgraph) && constraints == {}
      requires WellFormed(callgraph)
      modifies this`constraints
      ensures constraints == NodeConstraintsIn(callgraph.Keys, securePartition.functions, Outside(info))
                             + AllEdgeConstraints(callgraph)
    {
      CreateNodeConstraints();
      CreateEdgeConstraints();
      EdgeConstraintsOverAll(callgraph);
    }

    method CreateNodeConstraints()
      requires nodeVariables == NodeVars(callgraph) && constraints == {}
      modifies this`constraints
      ensures constraints == NodeConstraintsIn(callgraph.Keys, securePartition.functions, Outside(info))
    {
      var remaining := callgraph.Keys;
      while remaining != {}
        invariant remaining <= callgraph.Keys
        invariant constraints == NodeConstraintsIn(callgraph.Keys - remaining, securePartition.functions, Outside(info))
        decreases remaining
      {
        var f :| f in remaining;
        var v := NodeVar(f);
        if f in securePartition.functions {
          constraints := constraints + {AtMost([v], [], 1.0), AtMost([], [v], -1.0)};
        } else if f in info.declarations || f in info.mains {
          constraints := constraints + {AtMost([v], [], 0.0)};
        }
        MoreNodeConstraints(callgraph.Keys - remaining, f, securePartition.functions, Outside(info));
        assert callgraph.Keys - (remaining - {f}) == callgraph.Keys - remaining + {f};
        remaining := remaining - {f};
      }
    }

    method CreateEdgeConstraints()
      requires edgeVariables == EdgeVars(callgraph) && WellFormed(callgraph)
      modifies this`constraints
      ensures constraints == old(constraints) + EdgeConstraintsOver(callgraph, EdgeVars(callgraph))
    {
      var remaining := edgeVariables;
      while remaining != {}
        invariant remaining <= edgeVariables
        invariant constraints == old(constraints) + EdgeConstraintsOver(callgraph, edgeVariables - remaining)
        decreases remaining
      {
        var v :| v in remaining;
        assert IsEdgeVarOf(callgraph, v);
        var edge := callgraph[v.f].outEdges[v.i];
        var sourceVar, sinkVar := NodeVar(edge.source), NodeVar(edge.sink);
        constraints := constraints + {AtMost([v, sinkVar], [sourceVar], 1.0), AtMost([v, sourceVar], [sinkVar], 1.0)};
        MoreEdgeConstraints(callgraph, edgeVariables - remaining, v);
        assert edgeVariables - (remaining - {v}) == edgeVariables - remaining + {v};
        remaining := remaining - {v};
      }
      assert edgeVariables - remaining == edgeVariables;
    }

    method CreateObjective()
      requires nodeVariables == NodeVars(callgraph) && edgeVariables == EdgeVars(callgraph)
      requires objective == map[]
      modifies this`objective
      ensures objective == CostsOver(callgraph, NodeVars(callgraph) + EdgeVars(callgraph))
      ensures forall f :: f in callgraph ==>
                && NodeVar(f) in objective
                && objective[NodeVar(f)] ==
                   SafeSum((match callgraph[f].sensitiveRelated case Some(s) => s case None => 0.0),
                           -(match callgraph[f].size case Some(z) => z case None => 0.0))
      ensures forall f, i :: f in callgraph && 0 <= i < |callgraph[f].outEdges| ==>
                EdgeVar(f, i) in objective && objective[EdgeVar(f, i)] == callgraph[f].outEdges[i].callNum
    {
      SetEdgeCoefficients();
      SetNodeCoefficients();
      assert NodeVars(callgraph) + EdgeVars(callgraph) == EdgeVars(callgraph) + NodeVars(callgraph);
    }

    method SetEdgeCoefficients()
      requires edgeVariables == EdgeVars(callgraph) && objective == map[]
      modifies this`objective
      ensures objective == CostsOver(callgraph, EdgeVars(callgraph))
    {
      var remaining := edgeVariables;
      while remaining != {}
        invariant remaining <= edgeVariables
        invariant objective == CostsOver(callgraph, edgeVariables - remaining)
        decreases remaining
      {
        var v :| v in remaining;
        assert IsEdgeVarOf(callgraph, v);
        var edge := callgraph[v.f].outEdges[v.i];
        objective := objective[v := edge.callNum];
        MoreCosts(callgraph, edgeVariables - remaining, v);
        assert edgeVariables - (remaining - {v}) == edgeVariables - remaining + {v};
        remaining := remaining - {v};
      }
    }

    method SetNodeCoefficients()
      requires nodeVariables == NodeVars(callgraph)
      requires objective == CostsOver(callgraph, EdgeVars(callgraph))
      modifies this`objective
      ensures objective == CostsOver(callgraph, EdgeVars(callgraph) + NodeVars(callgraph))
    {
      ghost var done := EdgeVars(callgraph);
      var remaining := nodeVariables;
      while remaining != {}
        invariant remaining <= nodeVariables
        invariant done + remaining == EdgeVars(callgraph) + nodeVariables
        invariant objective == CostsOver(callgraph, done)
        decreases remaining
      {
        var v :| v in remaining;
        var sensitiveRelatedCost := FactorOrZero(callgraph[v.f].sensitiveRelated);
        var sizeCost := FactorOrZero(callgraph[v.f].size);
        objective := objective[v := SafeSum(sensitiveRelatedCost, -sizeCost)];
        MoreCosts(callgraph, done, v);
        done, remaining := done + {v}, remaining - {v};
      }
    }

    method Apply()
      requires securePartition != insecurePartition
      modifies securePartition`functions, securePartition`related, insecurePartition`functions
      ensures securePartition.functions == old(securePartition.functions) + movedFunctions
      ensures securePartition.related == old(securePartition.related) - movedFunctions
      ensures insecurePartition.functions == old(insecurePartition.functions) - movedFunctions
    {
      var remaining := movedFunctions;
      while remaining != {}
        invariant remaining <= movedFunctions
        invariant securePartition.functions == old(securePartition.functions) + (movedFunctions - remaining)
        invariant securePartition.related == old(securePartition.related) - (movedFunctions - remaining)
        invariant insecurePartition.functions == old(insecurePartition.functions) - (movedFunctions - remaining)
        decreases remaining
      {
        var f :| f in remaining;
        securePartition.AddToPartition(f);
        securePartition.RemoveRelatedFunction(f);
        insecurePartition.RemoveFromPartition(f);
        assert movedFunctions - (remaining - {f}) == movedFunctions - remaining + {f};
        remaining := remaining - {f};
      }
      assert movedFunctions - remaining == movedFunctions;
    }
  }

  lemma MoreNodeConstraints(fs: set<FunctionId>, f: FunctionId, secure: set<FunctionId>, outside: set<FunctionId>)
    ensures NodeConstraintsIn(fs + {f}, secure, outside)
         == NodeConstraintsIn(fs, secure, outside) + NodeConstraints(f, secure, outside)
  {
  }

  lemma MoreEdgeConstraints(g: CallGraph, vs: set<Var>, v: Var)
    requires IsEdgeVarOf(g, v)
    ensures EdgeConstraintsOver(g, vs + {v})
         == EdgeConstraintsOver(g, vs) + EdgeConstraints(v.f, v.i, g[v.f].outEdges[v.i])
  {
  }
}
