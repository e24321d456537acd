/** What the two factors of a node are worth, in a move of the Kernighan-Lin pass and in
    the objective of the linear model. */
module NodeFactors {
  import opened Numbers
  import opened Sums
  import opened CallGraphs
  import opened KLSpec
  import opened CutCost
  import opened ILPModels
  import opened ILPRounding
  import opened ILPValues

  /** The same graph with other factors at f. */
  function WithFactors(g: CallGraph, f: FunctionId, sensitivity: Option<real>, size: Option<real>): CallGraph
    requires f in g
  {
    g[f := g[f].(sensitiveRelated := sensitivity, size := size)]
  }

  lemma SameWeights(g: CallGraph, f: FunctionId, sensitivity: Option<real>, size: Option<real>, m: Arithmetic,
                    u: FunctionId, s: set<FunctionId>)
    requires f in g
    ensures External(m, WithFactors(g, f, sensitivity, size), u, s) == External(m, g, u, s)
    ensures Internal(m, WithFactors(g, f, sensitivity, size), u, s) == Internal(m, g, u, s)
  {
    assert LinksOf(WithFactors(g, f, sensitivity, size), u) == LinksOf(g, u);
  }

  /** The gain of f is external minus internal weight, plus sensitivity and minus size
      where the node has them. */
  lemma GainOfFactors(m: Arithmetic, g: CallGraph, f: FunctionId, insecure: set<FunctionId>,
                      sensitivity: Option<real>, size: Option<real>)
    requires f in g
    ensures Gain(m, WithFactors(g, f, sensitivity, size), f, insecure)
         == Plus(m, Plus(m, External(m, g, f, insecure), -Internal(m, g, f, insecure)),
                 (match sensitivity case Some(s) => s case None => 0.0)
                 - (match size case Some(z) => z case None => 0.0))
  {
    SameWeights(g, f, sensitivity, size, m, f, insecure);
  }

  lemma SameCrossing(g: CallGraph, f: FunctionId, sensitivity: Option<real>, size: Option<real>,
                     p: set<FunctionId>, q: set<FunctionId>)
    requires f in g
    ensures Crossing(WithFactors(g, f, sensitivity, size), p, q) == Crossing(g, p, q)
    ensures AllWeight(WithFactors(g, f, sensitivity, size)) == AllWeight(g)
  {
    var h := WithFactors(g, f, sensitivity, size);
    assert h.Keys == g.Keys;
    assert forall u :: OutLinksOf(h, u) == OutLinksOf(g, u);
    SetSumEqual(p, Outflow(h, q), Outflow(g, q));
    SetSumEqual(q, Outflow(h, p), Outflow(g, p));
    SetSumEqual(g.Keys, Outflow(h, h.Keys), Outflow(g, g.Keys));
  }

  /** Apart from its factors, a node's part in a 0/1 point is the cut. */
  lemma ValueWithFactors(g: CallGraph, f: FunctionId, sensitivity: Option<real>, size: Option<real>,
                         secure: set<FunctionId>, outside: set<FunctionId>, t: set<FunctionId>)
    requires WellFormed(g) && f in g && t <= g.Keys
    ensures var h := WithFactors(g, f, sensitivity, size);
            Value(ModelOf(h, secure, outside), Indicator(h, t))
            == AllWeight(g) - Crossing(g, t, g.Keys - t) + SetSum(t, IlpCosts(h))
  {
    var h := WithFactors(g, f, sensitivity, size);
    assert h.Keys == g.Keys;
    WellFormedWithFactors(g, f, sensitivity, size);
    ValueOfPartition(h, secure, outside, t);
    SameCrossing(g, f, sensitivity, size, t, g.Keys - t);
  }

  lemma WellFormedWithFactors(g: CallGraph, f: FunctionId, sensitivity: Option<real>, size: Option<real>)
    requires WellFormed(g) && f in g
    ensures WellFormed(WithFactors(g, f, sensitivity, size))
  {
  }

  /** Taking f into a 0/1 point changes the objective by the change of the cut, plus
      sensitivity and minus size, unless the program's difference of the two sticks. */
  lemma ValueOfFactors(g: CallGraph, f: FunctionId, t: set<FunctionId>, sensitivity: Option<real>, size: Option<real>,
                       secure: set<FunctionId>, outside: set<FunctionId>)
    requires WellFormed(g) && f in g && f !in t && t <= g.Keys
    requires sensitivity.Some? && size.Some? ==> !Sticks(sensitivity.value, -size.value)
    ensures var h := WithFactors(g, f, sensitivity, size);
            var m := ModelOf(h, secure, outside);
            Value(m, Indicator(h, t + {f})) - Value(m, Indicator(h, t))
            == Crossing(g, t, g.Keys - t) - Crossing(g, t + {f}, g.Keys - (t + {f}))
               + (match sensitivity case Some(s) => s case None => 0.0)
               - (match size case Some(z) => z case None => 0.0)
  {
    var h := WithFactors(g, f, sensitivity, size);
    ValueWithFactors(g, f, sensitivity, size, secure, outside, t);
    ValueWithFactors(g, f, sensitivity, size, secure, outside, t + {f});
    SetSumInsert(t, IlpCosts(h), f);
    CostWithFactors(g, f, sensitivity, size);
  }

  lemma CostWithFactors(g: CallGraph, f: FunctionId, sensitivity: Option<real>, size: Option<real>)
    requires f in g
    requires sensitivity.Some? && size.Some? ==> !Sticks(sensitivity.value, -size.value)
    ensures IlpCosts(WithFactors(g, f, sensitivity, size))(f)
         == (match sensitivity case Some(s) => s case None => 0.0)
            - (match size case Some(z) => z case None => 0.0)
  {
  }

  /** Factors as the program assigns them, which are not negative, never stick. */
  lemma AssignedFactorsDoNotStick(sensitivity: real, size: real)
    requires sensitivity >= 0.0 && size >= 0.0
    ensures !Sticks(sensitivity, -size)
  {
  }
}
