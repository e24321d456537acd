/** What the ILP objective says about a 0/1 partition: a constant minus the loss that
    the Kernighan-Lin pass lowers. */
module ILPValues {
  import opened Numbers
  import opened Sums
  import opened CallGraphs
  import opened CutCost
  import opened ILPModels
  import opened ILPRounding

  // ---------- Sums over the variables ----------

  lemma {:induction false} NodeVarSum(fs: set<FunctionId>, h: Var -> real, hf: FunctionId -> real)
    requires forall f :: f in fs ==> hf(f) == h(NodeVar(f))
    ensures SetSum(NodeVarsIn(fs), h) == SetSum(fs, hf)
    decreases fs
  {
    if fs == {} {
      assert NodeVarsIn(fs) == {};
    } else {
      var f :| f in fs;
      NodeVarSum(fs - {f}, h, hf);
      SetSumPick(fs, hf, f);
      assert NodeVarsIn(fs - {f}) == NodeVarsIn(fs) - {NodeVar(f)};
      SetSumPick(NodeVarsIn(fs), h, NodeVar(f));
    }
  }

  function FirstEdges(f: FunctionId, n: nat, h: Var -> real): real {
    if n == 0 then 0.0 else FirstEdges(f, n - 1, h) + h(EdgeVar(f, n - 1))
  }

  lemma {:induction false} FirstEdgesSum(f: FunctionId, n: nat, h: Var -> real)
    ensures SetSum(EdgeVarsOf(f, n), h) == FirstEdges(f, n, h)
  {
    if n == 0 {
      assert EdgeVarsOf(f, n) == {};
    } else {
      FirstEdgesSum(f, n - 1, h);
      assert EdgeVarsOf(f, n) - {EdgeVar(f, n - 1)} == EdgeVarsOf(f, n - 1);
      SetSumPick(EdgeVarsOf(f, n), h, EdgeVar(f, n - 1));
    }
  }

  lemma {:induction false} EdgeVarSum(g: CallGraph, fs: set<FunctionId>, h: Var -> real, hf: FunctionId -> real)
    requires fs <= g.Keys
    requires forall f :: f in fs ==> hf(f) == FirstEdges(f, |g[f].outEdges|, h)
    ensures SetSum(EdgeVarsIn(g, fs), h) == SetSum(fs, hf)
    decreases fs
  {
    if fs == {} {
      assert EdgeVarsIn(g, fs) == {};
    } else {
      var f :| f in fs;
      var mine, others := EdgeVarsOf(f, |g[f].outEdges|), EdgeVarsIn(g, fs - {f});
      EdgeVarSum(g, fs - {f}, h, hf);
      SetSumPick(fs, hf, f);
      assert EdgeVarsIn(g, fs) == others + mine;
      SetSumUnion(others, mine, h);
      FirstEdgesSum(f, |g[f].outEdges|, h);
    }
  }

  // ---------- The objective at a 0/1 point ----------

  /** Weight of f's out-edges that stay on f's side of t. */
  function KeptOut(g: CallGraph, f: FunctionId, t: set<FunctionId>): real {
    WeightTo(Exact, OutLinksOf(g, f), |OutLinksOf(g, f)|, t, f in t)
  }

  ghost function KeptOuts(g: CallGraph, t: set<FunctionId>): FunctionId -> real {
    f => KeptOut(g, f, t)
  }

  ghost function IlpCosts(g: CallGraph): FunctionId -> real {
    f => CostOf(g, NodeVar(f))
  }

  ghost function AllWeight(g: CallGraph): real {
    SetSum(g.Keys, Outflow(g, g.Keys))
  }

  /** The coefficients of m are those of the graph. */
  ghost predicate PricedBy(g: CallGraph, m: Model) {
    forall v :: v in NodeVars(g) + EdgeVars(g) ==> Coefficient(m, v) == CostOf(g, v)
  }

  lemma EdgeTermAt(g: CallGraph, m: Model, f: FunctionId, t: set<FunctionId>, i: nat)
    requires WellFormed(g) && PricedBy(g, m) && f in g && i < |g[f].outEdges|
    ensures Terms(m, Indicator(g, t))(EdgeVar(f, i))
         == if (g[f].outEdges[i].sink in t) == (f in t) then g[f].outEdges[i].callNum else 0.0
  {
    assert EdgeVar(f, i) in EdgeVars(g);
    assert Indicator(g, t)(EdgeVar(f, i)) == if (g[f].outEdges[i].sink in t) == (f in t) then 1.0 else 0.0;
  }

  lemma {:induction false} EdgeTermsAreKept(g: CallGraph, m: Model, f: FunctionId, t: set<FunctionId>, n: nat)
    requires WellFormed(g) && PricedBy(g, m) && f in g && n <= |g[f].outEdges|
    ensures FirstEdges(f, n, Terms(m, Indicator(g, t))) == WeightTo(Exact, OutLinks(g[f]), n, t, f in t)
  {
    if n > 0 {
      EdgeTermsAreKept(g, m, f, t, n - 1);
      EdgeTermAt(g, m, f, t, n - 1);
    }
  }

  lemma EdgeTerms(g: CallGraph, m: Model, t: set<FunctionId>)
    requires WellFormed(g) && PricedBy(g, m)
    ensures SetSum(EdgeVars(g), Terms(m, Indicator(g, t))) == SetSum(g.Keys, KeptOuts(g, t))
  {
    forall f | f in g.Keys
      ensures KeptOuts(g, t)(f) == FirstEdges(f, |g[f].outEdges|, Terms(m, Indicator(g, t)))
    {
      EdgeTermsAreKept(g, m, f, t, |g[f].outEdges|);
    }
    EdgeVarSum(g, g.Keys, Terms(m, Indicator(g, t)), KeptOuts(g, t));
  }

  /** Value of the 0/1 point of t: kept edge weight plus node costs of t. */
  lemma ValueIsKeptPlusCosts(g: CallGraph, secure: set<FunctionId>, outside: set<FunctionId>, t: set<FunctionId>)
    requires WellFormed(g) && t <= g.Keys
    ensures Value(ModelOf(g, secure, outside), Indicator(g, t))
         == SetSum(g.Keys, KeptOuts(g, t)) + SetSum(t, IlpCosts(g))
  {
    var m := ModelOf(g, secure, outside);
    SetSumUnion(NodeVars(g), EdgeVars(g), Terms(m, Indicator(g, t)));
    EdgeTerms(g, m, t);
    NodeTerms(g, m, t);
  }

  lemma NodeTermAt(g: CallGraph, m: Model, f: FunctionId, t: set<FunctionId>)
    requires f in g && PricedBy(g, m)
    ensures Terms(m, Indicator(g, t))(NodeVar(f)) == if f in t then IlpCosts(g)(f) else 0.0
  {
    assert NodeVar(f) in NodeVars(g);
    assert Indicator(g, t)(NodeVar(f)) == if f in t then 1.0 else 0.0;
  }

  lemma NodeTerms(g: CallGraph, m: Model, t: set<FunctionId>)
    requires t <= g.Keys
    requires PricedBy(g, m)
    ensures SetSum(NodeVars(g), Terms(m, Indicator(g, t))) == SetSum(t, IlpCosts(g))
  {
    var h := Terms(m, Indicator(g, t));
    var hf := f => h(NodeVar(f));
    NodeVarSum(g.Keys, h, hf);
    SetSumUnion(t, g.Keys - t, hf);
    assert t + (g.Keys - t) == g.Keys;
    forall f | f in g
      ensures hf(f) == if f in t then IlpCosts(g)(f) else 0.0
    {
      NodeTermAt(g, m, f, t);
    }
    SetSumEqual(t, hf, IlpCosts(g));
    SetSumZero(g.Keys - t, hf);
  }

  lemma {:induction false} LinksSplit(links: seq<Link>, n: nat, s: set<FunctionId>, t: set<FunctionId>)
    requires n <= |links| && s !! t
    ensures WeightTo(Exact, links, n, s + t, true)
         == WeightTo(Exact, links, n, s, true) + WeightTo(Exact, links, n, t, true)
  {
    if n > 0 {
      LinksSplit(links, n - 1, s, t);
    }
  }

  lemma KeptAndCrossing(g: CallGraph, f: FunctionId, t: set<FunctionId>)
    requires WellFormed(g) && f in g && t <= g.Keys
    ensures OutTo(g, f, g.Keys) == KeptOut(g, f, t) + OutTo(g, f, if f in t then g.Keys - t else t)
  {
    var links, rest := OutLinksOf(g, f), g.Keys - t;
    LinksSplit(links, |links|, t, rest);
    assert t + rest == g.Keys;
    OutsideIsComplement(links, |links|, t, rest);
  }

  /** Total edge weight minus cut weight plus chosen node costs; an edge from a
      function to itself is never cut. */
  lemma ValueOfPartition(g: CallGraph, secure: set<FunctionId>, outside: set<FunctionId>, t: set<FunctionId>)
    requires WellFormed(g) && t <= g.Keys
    ensures Value(ModelOf(g, secure, outside), Indicator(g, t))
         == AllWeight(g) - Crossing(g, t, g.Keys - t) + SetSum(t, IlpCosts(g))
  {
    ValueIsKeptPlusCosts(g, secure, outside, t);
    KeptPlusCut(g, t);
  }

  lemma KeptPlusCut(g: CallGraph, t: set<FunctionId>)
    requires WellFormed(g) && t <= g.Keys
    ensures AllWeight(g) == SetSum(g.Keys, KeptOuts(g, t)) + Crossing(g, t, g.Keys - t)
  {
    var rest := g.Keys - t;
    KeptPlusCutOn(g, t, t, rest);
    KeptPlusCutOn(g, t, rest, t);
    assert t + rest == g.Keys;
    SetSumUnion(t, rest, Outflow(g, g.Keys));
    SetSumUnion(t, rest, KeptOuts(g, t));
  }

  lemma KeptPlusCutOn(g: CallGraph, t: set<FunctionId>, side: set<FunctionId>, other: set<FunctionId>)
    requires WellFormed(g) && t <= g.Keys
    requires (side == t && other == g.Keys - t) || (side == g.Keys - t && other == t)
    ensures SetSum(side, Outflow(g, g.Keys)) == SetSum(side, KeptOuts(g, t)) + SetSum(side, Outflow(g, other))
  {
    forall f | f in side
      ensures Outflow(g, g.Keys)(f) == KeptOuts(g, t)(f) + Outflow(g, other)(f)
    {
      KeptAndCrossing(g, f, t);
    }
    SetSumPlus(side, KeptOuts(g, t), Outflow(g, other), Outflow(g, g.Keys));
  }

  /** The best a 0/1 choice of nodes can reach is that value: feasible edge values
      never give more. */
  lemma BestEdgeValues(g: CallGraph, secure: set<FunctionId>, outside: set<FunctionId>, a: Assignment)
    requires WellFormed(g) && NonNegativeEdgeCosts(g)
    requires Feasible(ModelOf(g, secure, outside), a)
    requires forall f :: f in g ==> a(NodeVar(f)) == 0.0 || a(NodeVar(f)) == 1.0
    ensures var t := Ones(g, a);
            Value(ModelOf(g, secure, outside), a)
            <= AllWeight(g) - Crossing(g, t, g.Keys - t) + SetSum(t, IlpCosts(g))
    ensures Feasible(ModelOf(g, secure, outside), Indicator(g, Ones(g, a)))
  {
    SharesAreAdmissible(g, secure, outside, a);
    TightIsFeasible(g, secure, outside, Membership(Ones(g, a)));
    TightIsBest(g, secure, outside, a);
    ZeroOneIsIndicator(g, a, ModelOf(g, secure, outside));
    ValueOfPartition(g, secure, outside, Ones(g, a));
  }

  lemma ZeroOneIsIndicator(g: CallGraph, a: Assignment, m: Model)
    requires WellFormed(g) && m.vars == NodeVars(g) + EdgeVars(g)
    requires forall f :: f in g ==> a(NodeVar(f)) == 0.0 || a(NodeVar(f)) == 1.0
    ensures Value(m, Tight(g, Shares(a))) == Value(m, Indicator(g, Ones(g, a)))
  {
    forall v | v in m.vars
      ensures Tight(g, Shares(a))(v) == Indicator(g, Ones(g, a))(v)
    {
    }
    SameSum(m, Tight(g, Shares(a)), Indicator(g, Ones(g, a)), Enumerate(m.vars));
  }

  // ---------- Against the true loss ----------

  ghost predicate NonNegativeFactors(g: CallGraph) {
    forall f :: f in g ==> FactorOrZero(g[f].sensitiveRelated) >= 0.0 && FactorOrZero(g[f].size) >= 0.0
  }

  lemma SameNodeCosts(g: CallGraph, t: set<FunctionId>)
    requires NonNegativeFactors(g) && t <= g.Keys
    ensures SetSum(t, IlpCosts(g)) == CostSum(g, t)
  {
    forall f | f in t
      ensures IlpCosts(g)(f) == Costs(g)(f)
    {
      assert f in g;
    }
    SetSumEqual(t, IlpCosts(g), Costs(g));
  }

  /** The objective of a partition is a constant minus its loss. */
  lemma ValueIsMinusLoss(g: CallGraph, secure: set<FunctionId>, outside: set<FunctionId>, t: set<FunctionId>)
    requires WellFormed(g) && t <= g.Keys && NonNegativeFactors(g)
    requires CopiesAgree(g) && ClosedIn(g, g.Keys)
    ensures Value(ModelOf(g, secure, outside), Indicator(g, t)) == AllWeight(g) - Loss(g, g.Keys - t, t)
  {
    ValueOfPartition(g, secure, outside, t);
    SameNodeCosts(g, t);
    assert t + (g.Keys - t) == g.Keys;
    BothReportsAreTheCut(g, t, g.Keys - t);
  }

  /** The ILP result has the least loss among all partitions that keep the secure
      functions and add no declaration and no main. */
  lemma IlpMinimisesLoss(g: CallGraph, secure: set<FunctionId>, outside: set<FunctionId>, a: Assignment,
                         added: set<FunctionId>)
    requires WellFormed(g) && NonNegativeEdgeCosts(g) && NonNegativeFactors(g)
    requires CopiesAgree(g) && ClosedIn(g, g.Keys)
    requires Optimal(ModelOf(g, secure, outside), a)
    requires secure <= g.Keys && added <= g.Keys && added !! outside
    ensures Loss(g, g.Keys - Ones(g, a), Ones(g, a)) <= Loss(g, g.Keys - (secure + added), secure + added)
  {
    var t := secure + added;
    assert t * g.Keys * outside <= secure;
    ExtractedPartitionIsBest(g, secure, outside, a, t);
    ValueIsMinusLoss(g, secure, outside, t);
    ValueIsMinusLoss(g, secure, outside, Ones(g, a));
  }
}
