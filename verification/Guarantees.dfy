/** What the optimisers guarantee together, on the graphs that the program builds. */
module Guarantees {
  import opened Numbers
  import opened Sums
  import opened CallGraphs
  import opened CallGraphBuilders
  import opened CutCost
  import opened KLSpec
  import opened KLOptimality
  import opened KLSaturation
  import opened KLOptimizers
  import ILPModels
  import opened ILPRounding
  import opened ILPValues
  import opened ILPOptimizations
  import opened PipelineSpec
  import opened PipelineEffects

  /** A graph with the edges of the builder is what the optimisers ask for. */
  lemma BuiltGraphIsUsable(g: CallGraph, calls: set<(FunctionId, FunctionId)>)
    requires EdgesAre(g, calls)
    ensures ILPModels.WellFormed(g) && ClosedIn(g, g.Keys)
  {
    forall f, i | f in g && 0 <= i < |Links(g[f])|
      ensures Links(g[f])[i].other in g
    {
      EdgesStayInside(g, calls, f, i);
    }
    forall f, i | f in g && 0 <= i < |g[f].outEdges|
      ensures g[f].outEdges[i].source == f && g[f].outEdges[i].sink in g
    {
      assert Links(g[f])[|g[f].inEdges| + i] == Link(g[f].outEdges[i].sink, g[f].outEdges[i].callNum);
    }
  }

  /** Where nothing is lost, a pass on the program's own numbers never makes the real
      cost worse, provided that self-calls cover the mismatches of the copies. */
  lemma LosslessPassNeverWorsens(g: CallGraph, insecure: set<FunctionId>, secure: set<FunctionId>,
                                 candidates: seq<FunctionId>)
    requires SelfCallsCover(g) && PassLosesNothing(g, insecure, candidates)
    requires Distinct(candidates) && Elements(candidates) <= insecure && Elements(candidates) !! secure
    ensures var kept := Kept(Saturating, g, insecure, candidates);
            Loss(g, insecure - kept, secure + kept) <= Loss(g, insecure, secure)
  {
    LosslessPassIsExact(g, insecure, candidates);
    PassNeverWorsens(g, insecure, secure, candidates);
  }

  lemma ModeratePassNeverWorsens(g: CallGraph, insecure: set<FunctionId>, secure: set<FunctionId>,
                                 candidates: seq<FunctionId>)
    requires SelfCallsCover(g) && Moderate(g, candidates)
    requires Distinct(candidates) && Elements(candidates) <= insecure && Elements(candidates) !! secure
    ensures var kept := Kept(Saturating, g, insecure, candidates);
            Loss(g, insecure - kept, secure + kept) <= Loss(g, insecure, secure)
  {
    ModeratePassIsExact(g, insecure, candidates);
    LosslessPassNeverWorsens(g, insecure, secure, candidates);
  }

  /** Nor does it stop short of a better partition it has visited, without self-calls. */
  lemma LosslessPassKeepsTheBestVisited(g: CallGraph, insecure: set<FunctionId>, secure: set<FunctionId>,
                                        candidates: seq<FunctionId>, n: nat)
    requires CopiesAgree(g) && PassLosesNothing(g, insecure, candidates) && n <= |candidates|
    requires Distinct(candidates) && Elements(candidates) <= insecure && Elements(candidates) !! secure
    requires forall c :: c in candidates ==> EdgeCost(Exact, g, c, c) == 0.0
    ensures var kept := Kept(Saturating, g, insecure, candidates);
            Loss(g, insecure - kept, secure + kept)
            <= VisitedLoss(g, insecure, secure, Trace(Saturating, g, insecure, candidates), n)
  {
    LosslessPassIsExact(g, insecure, candidates);
    PassKeepsTheBestVisited(g, insecure, secure, candidates, n);
  }

  // ---------- One more move after the pass ----------

  /** The pass has run on a graph whose copies agree and has left c behind.  On the
      program's numbers each candidate's load is to be below the sentinel. */
  ghost predicate LeavesBehind(m: Arithmetic, g: CallGraph, insecure: set<FunctionId>, secure: set<FunctionId>,
                               candidates: seq<FunctionId>, c: FunctionId) {
    && CopiesAgree(g) && NonNegativeWeights(g)
    && (m.Saturating? ==> Light(g, candidates))
    && Distinct(candidates) && Elements(candidates) <= insecure && insecure !! secure
    && c in candidates && c !in Kept(m, g, insecure, candidates)
  }

  /** By how much moving c as well would raise the real cost. */
  ghost function CostOfMoving(m: Arithmetic, g: CallGraph, insecure: set<FunctionId>, secure: set<FunctionId>,
                              candidates: seq<FunctionId>, c: FunctionId): real {
    var kept := Kept(m, g, insecure, candidates);
    Loss(g, insecure - kept - {c}, secure + kept + {c}) - Loss(g, insecure - kept, secure + kept)
  }

  /** A function that was left behind and does not call itself is strictly not worth
      moving. */
  lemma NoFurtherMoveHelps(m: Arithmetic, g: CallGraph, insecure: set<FunctionId>, secure: set<FunctionId>,
                           candidates: seq<FunctionId>, c: FunctionId)
    requires LeavesBehind(m, g, insecure, secure, candidates, c)
    ensures CostOfMoving(m, g, insecure, secure, candidates, c)
         == -Gain(Exact, g, c, insecure - Kept(m, g, insecure, candidates)) - EdgeCost(Exact, g, c, c)
    ensures EdgeCost(Exact, g, c, c) == 0.0 ==> CostOfMoving(m, g, insecure, secure, candidates, c) > 0.0
  {
    var kept := Kept(m, g, insecure, candidates);
    assert c in Elements(candidates);
    if m.Saturating? {
      LightPassIsLocallyOptimal(g, insecure, candidates);
    } else {
      LocallyOptimal(g, insecure, candidates);
    }
    assert NoneWorthMoving(g, insecure, candidates, kept);
    LossAfterMove(g, insecure - kept, secure + kept, c);
  }

  // ---------- The ILP result against a pass ----------

  /** From the same start the ILP result costs no more than that of a pass, on
      whichever numbers the pass computes. */
  lemma IlpIsNoWorseThanPass(g: CallGraph, info: ModuleInfo, secure: set<FunctionId>, insecure: set<FunctionId>,
                             m: Arithmetic, candidates: seq<FunctionId>, a: ILPModels.Assignment)
    requires ILPModels.WellFormed(g) && ClosedIn(g, g.Keys) && CopiesAgree(g)
    requires NonNegativeEdgeCosts(g) && NonNegativeFactors(g)
    requires secure !! insecure && secure + insecure == g.Keys
    requires Distinct(candidates) && Elements(candidates) == MovableIn(info, insecure)
    requires ILPModels.Optimal(ILPModels.ModelOf(g, secure, Outside(info)), a)
    ensures var kept := Kept(m, g, insecure, candidates);
            Loss(g, g.Keys - Ones(g, a), Ones(g, a)) <= Loss(g, insecure - kept, secure + kept)
  {
    var kept := Kept(m, g, insecure, candidates);
    KeptAreCandidates(m, g, insecure, candidates);
    assert g.Keys - (secure + kept) == insecure - kept;
    IlpMinimisesLoss(g, secure, Outside(info), a, kept);
  }

  // ---------- Through the whole optimiser ----------

  /** The loads of the movable functions together are below the sentinel. */
  ghost predicate ModerateAround(cfg: Config, insecure: set<FunctionId>) {
    TotalLoad(cfg.callgraph, MovableIn(cfg.info, insecure)) < POS_INFINITY
  }

  lemma PassStepNeverWorsens(cfg: Config, before: State, after: State)
    requires SelfCallsCover(cfg.callgraph) && ModerateAround(cfg, before.insecure.functions)
    requires before.secure.functions !! before.insecure.functions && PassStep(cfg, before, after)
    ensures after.secure.functions !! after.insecure.functions
    ensures Loss(cfg.callgraph, after.insecure.functions, after.secure.functions)
         <= Loss(cfg.callgraph, before.insecure.functions, before.secure.functions)
  {
    var insecure := before.insecure.functions;
    var order :| Distinct(order) && Elements(order) == MovableIn(cfg.info, insecure)
                 && after == Moved(before, Kept(Saturating, cfg.callgraph, insecure, order));
    ModeratePassNeverWorsens(cfg.callgraph, insecure, before.secure.functions, order);
  }

  /** However many passes a list of optimisations asks for, no state of the run costs more
      than the first. */
  lemma {:induction false} RunNeverWorsens(cfg: Config, opts: seq<Optimization>, states: seq<State>, i: nat)
    requires IsRun(cfg, opts, states) && i <= |opts|
    requires SelfCallsCover(cfg.callgraph) && ModerateAround(cfg, states[0].insecure.functions)
    requires states[0].secure.functions !! states[0].insecure.functions
    ensures states[i].secure.functions !! states[i].insecure.functions
    ensures Loss(cfg.callgraph, states[i].insecure.functions, states[i].secure.functions)
         <= Loss(cfg.callgraph, states[0].insecure.functions, states[0].secure.functions)
  {
    if i > 0 {
      RunNeverWorsens(cfg, opts, states, i - 1);
      assert IsRunStep(cfg, opts[i - 1], states[i - 1], states[i]);
      if opts[i - 1] == KERNIGHAN_LIN {
        RunGrows(cfg, opts, states, i - 1);
        StaysModerate(cfg, states[0].insecure.functions, states[i - 1].insecure.functions);
        PassStepNeverWorsens(cfg, states[i - 1], states[i]);
      }
    }
  }

  lemma StaysModerate(cfg: Config, insecure: set<FunctionId>, rest: set<FunctionId>)
    requires ModerateAround(cfg, insecure) && rest <= insecure
    ensures ModerateAround(cfg, rest)
  {
    SetSumSubset(MovableIn(cfg.info, rest), MovableIn(cfg.info, insecure), LoadsOf(cfg.callgraph));
  }

  /** The ILP optimisation alone, with a solver that finds an optimum, ends in a partition
      of least loss among those that keep the secure functions and add no declaration and
      no main. */
  lemma IlpAloneIsBest(cfg: Config, solve: Solver, states: seq<State>, records: seq<Record>, added: set<FunctionId>)
    requires Ran(cfg, solve, [ILP], states, records) && states[0].secure.functions <= cfg.callgraph.Keys
    requires ILPModels.WellFormed(cfg.callgraph) && ClosedIn(cfg.callgraph, cfg.callgraph.Keys)
    requires CopiesAgree(cfg.callgraph)
    requires NonNegativeEdgeCosts(cfg.callgraph) && NonNegativeFactors(cfg.callgraph)
    requires var m := ILPModels.ModelOf(cfg.callgraph, states[0].secure.functions, Outside(cfg.info));
             solve(m).Some? && ILPModels.Optimal(m, solve(m).value)
    requires forall f :: f in added ==> f in cfg.callgraph && f !in cfg.info.declarations && f !in cfg.info.mains
    ensures var g, secure := cfg.callgraph, Finish(ApplyAll(records, states[1])).secure.functions;
            var other := states[0].secure.functions + added;
            Loss(g, g.Keys - secure, secure) <= Loss(g, g.Keys - other, other)
  {
    var g, start := cfg.callgraph, states[0].secure.functions;
    var a := solve(ILPModels.ModelOf(g, start, Outside(cfg.info))).value;
    IlpAloneTakesOnes(cfg, solve, states, records, a);
    IlpMinimisesLoss(g, start, Outside(cfg.info), a, added);
  }

  lemma IlpAloneTakesOnes(cfg: Config, solve: Solver, states: seq<State>, records: seq<Record>,
                          a: ILPModels.Assignment)
    requires Ran(cfg, solve, [ILP], states, records) && states[0].secure.functions <= cfg.callgraph.Keys
    requires var m := ILPModels.ModelOf(cfg.callgraph, states[0].secure.functions, Outside(cfg.info));
             solve(m) == Some(a) && ILPModels.Feasible(m, a)
    ensures Finish(ApplyAll(records, states[1])).secure.functions == Ones(cfg.callgraph, a)
  {
    PinnedOnes(cfg.callgraph, cfg.info, states[0].secure.functions, a);
    var final := Finish(ApplyAll(records, states[1])).secure.functions;
    forall f
      ensures f in final <==> f in states[0].secure.functions || f in Ones(cfg.callgraph, a)
    {
      IlpAloneTakes(cfg, solve, states, records, f);
    }
  }

  lemma IlpAloneTakes(cfg: Config, solve: Solver, states: seq<State>, records: seq<Record>, f: FunctionId)
    requires Ran(cfg, solve, [ILP], states, records)
    ensures f in Finish(ApplyAll(records, states[1])).secure.functions <==>
            f in states[0].secure.functions || ChosenAt(cfg, solve, states[0].secure.functions, f)
  {
    FinalSecure(cfg, solve, [ILP], states, records, f);
    RunGrows(cfg, [ILP], states, 1);
    assert Decided(cfg, solve, [ILP], states, f) <==> DecidesAt(cfg, solve, [ILP][0], states[0], f);
  }
}
