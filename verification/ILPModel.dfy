/** The linear model that the ILP optimisation builds (lib/Optimization/ILPOptimization.cpp),
    and a readable account of its feasible points. */
module ILPModels {
  import opened Numbers
  import opened Sums
  import opened CallGraphs

  /** One variable per node and one per out-edge, the latter named by its node and
      its position there. */
  datatype Var = NodeVar(f: FunctionId) | EdgeVar(f: FunctionId, i: nat)

  /** The sum of `plus` minus the sum of `minus` is at most `bound`. */
  datatype Constraint = AtMost(plus: seq<Var>, minus: seq<Var>, bound: real)

  /** All variables range over [0, 1]; the objective is maximised. */
  datatype Model = Model(vars: set<Var>, constraints: set<Constraint>, objective: map<Var, real>)

  type Assignment = Var -> real

  function Total(vs: seq<Var>, a: Assignment): real {
    if vs == [] then 0.0 else a(vs[0]) + Total(vs[1..], a)
  }

  predicate Satisfies(c: Constraint, a: Assignment) {
    Total(c.plus, a) - Total(c.minus, a) <= c.bound
  }

  ghost predicate Feasible(m: Model, a: Assignment) {
    && (forall v :: v in m.vars ==> 0.0 <= a(v) <= 1.0)
    && (forall c :: c in m.constraints ==> Satisfies(c, a))
  }

  function Coefficient(m: Model, v: Var): real {
    if v in m.objective then m.objective[v] else 0.0
  }

  ghost function Terms(m: Model, a: Assignment): Var -> real {
    v => Coefficient(m, v) * a(v)
  }

  ghost function Value(m: Model, a: Assignment): real {
    SetSum(m.vars, Terms(m, a))
  }

  /** What a solver that succeeds is trusted to return. */
  ghost predicate Optimal(m: Model, a: Assignment) {
    Feasible(m, a) && forall b: Assignment :: Feasible(m, b) ==> Value(m, b) <= Value(m, a)
  }

  // ---------- The model of a call graph ----------

  /** Out-edges start at their node, and both ends of every edge are nodes. */
  ghost predicate WellFormed(g: CallGraph) {
    forall f, i :: f in g && 0 <= i < |g[f].outEdges| ==>
      g[f].outEdges[i].source == f && g[f].outEdges[i].sink in g
  }

  function NodeVarsIn(fs: set<FunctionId>): set<Var> {
    set f | f in fs :: NodeVar(f)
  }

  function NodeVars(g: CallGraph): set<Var> {
    NodeVarsIn(g.Keys)
  }

  function EdgeVarsOf(f: FunctionId, n: nat): set<Var> {
    set i | 0 <= i < n :: EdgeVar(f, i)
  }

  function EdgeVarsIn(g: CallGraph, fs: set<FunctionId>): set<Var> {
    set f, i | f in fs && f in g && 0 <= i < |g[f].outEdges| :: EdgeVar(f, i)
  }

  function EdgeVars(g: CallGraph): set<Var> {
    EdgeVarsIn(g, g.Keys)
  }

  /** Secure functions are pinned to 1; other declarations and main to 0. */
  function NodeConstraints(f: FunctionId, secure: set<FunctionId>, outside: set<FunctionId>): set<Constraint> {
    if f in secure then {AtMost([NodeVar(f)], [], 1.0), AtMost([], [NodeVar(f)], -1.0)}
    else if f in outside then {AtMost([NodeVar(f)], [], 0.0)}
    else {}
  }

  function EdgeConstraints(f: FunctionId, i: nat, edge: Edge): set<Constraint> {
    {AtMost([EdgeVar(f, i), NodeVar(edge.sink)], [NodeVar(edge.source)], 1.0),
     AtMost([EdgeVar(f, i), NodeVar(edge.source)], [NodeVar(edge.sink)], 1.0)}
  }

  function NodeConstraintsIn(fs: set<FunctionId>, secure: set<FunctionId>, outside: set<FunctionId>): set<Constraint> {
    set f, c | f in fs && c in NodeConstraints(f, secure, outside) :: c
  }

  function AllEdgeConstraints(g: CallGraph): set<Constraint> {
    set f, i, c | f in g && 0 <= i < |g[f].outEdges| && c in EdgeConstraints(f, i, g[f].outEdges[i]) :: c
  }

  /** An out-edge copy carries no factor but CALL_NUM, so that is its whole cost; the
      node cost is a difference of two sticking numbers. */
  function CostOf(g: CallGraph, v: Var): real {
    match v
    case NodeVar(f) =>
      if f in g then SafeSum(FactorOrZero(g[f].sensitiveRelated), -FactorOrZero(g[f].size)) else 0.0
    case EdgeVar(f, i) =>
      if f in g && i < |g[f].outEdges| then g[f].outEdges[i].callNum else 0.0
  }

  function ModelOf(g: CallGraph, secure: set<FunctionId>, outside: set<FunctionId>): Model {
    Model(NodeVars(g) + EdgeVars(g),
          NodeConstraintsIn(g.Keys, secure, outside) + AllEdgeConstraints(g),
          map v | v in NodeVars(g) + EdgeVars(g) :: CostOf(g, v))
  }

  // ---------- The feasible points, read off the graph ----------

  function Distance(x: real, y: real): real {
    Abs(x - y)
  }

  /** Every value is a share, pins are met, and no edge counts as kept more than its
      ends agree. */
  ghost predicate Respects(g: CallGraph, secure: set<FunctionId>, outside: set<FunctionId>, a: Assignment) {
    && (forall f :: f in g ==> 0.0 <= a(NodeVar(f)) <= 1.0)
    && (forall f :: f in g && f in secure ==> a(NodeVar(f)) == 1.0)
    && (forall f :: f in g && f !in secure && f in outside ==> a(NodeVar(f)) == 0.0)
    && (forall f, i :: f in g && 0 <= i < |g[f].outEdges| ==>
          var edge := g[f].outEdges[i];
          0.0 <= a(EdgeVar(f, i)) <= 1.0 - Distance(a(NodeVar(edge.source)), a(NodeVar(edge.sink))))
  }

  lemma TotalOfTwo(u: Var, v: Var, a: Assignment)
    ensures Total([u, v], a) == a(u) + a(v)
    ensures Total([v], a) == a(v) && Total([], a) == 0.0
  {
    assert [v][1..] == [];
    assert Total([v], a) == a([v][0]) + Total([v][1..], a);
    assert [u, v][1..] == [v];
    assert Total([u, v], a) == a([u, v][0]) + Total([u, v][1..], a);
  }

  lemma EdgeConstraintsMean(f: FunctionId, i: nat, edge: Edge, a: Assignment)
    ensures (forall c :: c in EdgeConstraints(f, i, edge) ==> Satisfies(c, a))
       <==> a(EdgeVar(f, i)) <= 1.0 - Distance(a(NodeVar(edge.source)), a(NodeVar(edge.sink)))
  {
    var e, s, t := EdgeVar(f, i), NodeVar(edge.source), NodeVar(edge.sink);
    TotalOfTwo(e, s, a);
    TotalOfTwo(e, t, a);
    assert AtMost([e, t], [s], 1.0) in EdgeConstraints(f, i, edge);
    assert AtMost([e, s], [t], 1.0) in EdgeConstraints(f, i, edge);
  }

  lemma NodeConstraintsMean(f: FunctionId, secure: set<FunctionId>, outside: set<FunctionId>, a: Assignment)
    requires 0.0 <= a(NodeVar(f)) <= 1.0
    ensures (forall c :: c in NodeConstraints(f, secure, outside) ==> Satisfies(c, a))
       <==> (f in secure ==> a(NodeVar(f)) == 1.0) && (f !in secure && f in outside ==> a(NodeVar(f)) == 0.0)
  {
    var v := NodeVar(f);
    TotalOfTwo(v, v, a);
    if f in secure {
      assert AtMost([], [v], -1.0) in NodeConstraints(f, secure, outside);
    } else if f in outside {
      assert AtMost([v], [], 0.0) in NodeConstraints(f, secure, outside);
    }
  }

  /** The constraints the program adds say exactly that. */
  lemma FeasibleMeans(g: CallGraph, secure: set<FunctionId>, outside: set<FunctionId>, a: Assignment)
    ensures Feasible(ModelOf(g, secure, outside), a) <==> Respects(g, secure, outside, a)
  {
    if Feasible(ModelOf(g, secure, outside), a) {
      FeasibleRespects(g, secure, outside, a);
    }
    if Respects(g, secure, outside, a) {
      RespectsFeasible(g, secure, outside, a);
    }
  }

  lemma FeasibleRespects(g: CallGraph, secure: set<FunctionId>, outside: set<FunctionId>, a: Assignment)
    requires Feasible(ModelOf(g, secure, outside), a)
    ensures Respects(g, secure, outside, a)
  {
    var m := ModelOf(g, secure, outside);
    forall f | f in g
      ensures 0.0 <= a(NodeVar(f)) <= 1.0
      ensures f in secure ==> a(NodeVar(f)) == 1.0
      ensures f !in secure && f in outside ==> a(NodeVar(f)) == 0.0
    {
      assert NodeVar(f) in m.vars;
      NodeConstraintsMean(f, secure, outside, a);
      assert forall c :: c in NodeConstraints(f, secure, outside) ==> c in m.constraints;
    }
    forall f, i | f in g && 0 <= i < |g[f].outEdges|
      ensures var edge := g[f].outEdges[i];
              0.0 <= a(EdgeVar(f, i)) <= 1.0 - Distance(a(NodeVar(edge.source)), a(NodeVar(edge.sink)))
    {
      assert EdgeVar(f, i) in m.vars;
      EdgeConstraintsMean(f, i, g[f].outEdges[i], a);
      assert forall c :: c in EdgeConstraints(f, i, g[f].outEdges[i]) ==> c in m.constraints;
    }
  }

  lemma RespectsFeasible(g: CallGraph, secure: set<FunctionId>, outside: set<FunctionId>, a: Assignment)
    requires Respects(g, secure, outside, a)
    ensures Feasible(ModelOf(g, secure, outside), a)
  {
    var m := ModelOf(g, secure, outside);
    forall c | c in m.constraints
      ensures Satisfies(c, a)
    {
      if c in NodeConstraintsIn(g.Keys, secure, outside) {
        var f :| f in g && c in NodeConstraints(f, secure, outside);
        NodeConstraintsMean(f, secure, outside, a);
      } else {
        var f, i :| f in g && 0 <= i < |g[f].outEdges| && c in EdgeConstraints(f, i, g[f].outEdges[i]);
        EdgeConstraintsMean(f, i, g[f].outEdges[i], a);
      }
    }
  }
}
