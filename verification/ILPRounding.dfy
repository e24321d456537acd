/** Why keeping only the variables equal to 1 loses nothing: the rounded point of
    an optimal continuous solution is itself optimal. */
module ILPRounding {
  import opened Numbers
  import opened Sums
  import opened CallGraphs
  import opened ILPModels

  /** The functions whose variable is exactly 1. */
  function Ones(g: CallGraph, a: Assignment): set<FunctionId> {
    set f | f in g && a(NodeVar(f)) == 1.0
  }

  /** Best values for the edge variables, given node values. */
  function Tight(g: CallGraph, share: FunctionId -> real): Assignment {
    (v: Var) => match v
         case NodeVar(f) => share(f)
         case EdgeVar(f, i) =>
           if f in g && i < |g[f].outEdges|
           then 1.0 - Distance(share(g[f].outEdges[i].source), share(g[f].outEdges[i].sink))
           else 0.0
  }

  function Shares(a: Assignment): FunctionId -> real {
    f => a(NodeVar(f))
  }

  function Membership(s: set<FunctionId>): FunctionId -> real {
    f => if f in s then 1.0 else 0.0
  }

  /** The 0/1 point of a partition, with its best edge values. */
  function Indicator(g: CallGraph, s: set<FunctionId>): Assignment {
    Tight(g, Membership(s))
  }

  ghost predicate NonNegativeEdgeCosts(g: CallGraph) {
    forall f, i :: f in g && 0 <= i < |g[f].outEdges| ==> g[f].outEdges[i].callNum >= 0.0
  }

  /** Shares in [0, 1] that meet the pins. */
  ghost predicate Admissible(g: CallGraph, secure: set<FunctionId>, outside: set<FunctionId>,
                             share: FunctionId -> real) {
    && (forall f :: f in g ==> 0.0 <= share(f) <= 1.0)
    && (forall f :: f in g && f in secure ==> share(f) == 1.0)
    && (forall f :: f in g && f !in secure && f in outside ==> share(f) == 0.0)
  }

  lemma TightIsFeasible(g: CallGraph, secure: set<FunctionId>, outside: set<FunctionId>, share: FunctionId -> real)
    requires WellFormed(g) && Admissible(g, secure, outside, share)
    ensures Feasible(ModelOf(g, secure, outside), Tight(g, share))
  {
    FeasibleMeans(g, secure, outside, Tight(g, share));
  }

  /** The system always has a solution: the partition it starts from. */
  lemma AlwaysFeasible(g: CallGraph, secure: set<FunctionId>, outside: set<FunctionId>)
    requires WellFormed(g)
    ensures Feasible(ModelOf(g, secure, outside), Indicator(g, secure))
  {
    TightIsFeasible(g, secure, outside, Membership(secure));
  }

  lemma TightIsBest(g: CallGraph, secure: set<FunctionId>, outside: set<FunctionId>, a: Assignment)
    requires NonNegativeEdgeCosts(g)
    requires Feasible(ModelOf(g, secure, outside), a)
    ensures Value(ModelOf(g, secure, outside), a) <= Value(ModelOf(g, secure, outside), Tight(g, Shares(a)))
  {
    var m, best := ModelOf(g, secure, outside), Tight(g, Shares(a));
    FeasibleMeans(g, secure, outside, a);
    forall v | v in m.vars
      ensures NoWorse(m, a, best, v)
    {
      match v
      case NodeVar(f) => assert a(v) == best(v);
      case EdgeVar(f, i) => assert a(v) <= best(v);
    }
    NoWorseSum(m, a, best, Enumerate(m.vars));
  }

  ghost predicate NoWorse(m: Model, a: Assignment, b: Assignment, v: Var) {
    a(v) == b(v) || (Coefficient(m, v) >= 0.0 && a(v) <= b(v))
  }

  lemma {:induction false} NoWorseSum(m: Model, a: Assignment, b: Assignment, vs: seq<Var>)
    requires forall v :: v in vs ==> NoWorse(m, a, b, v)
    ensures SeqSum(vs, Terms(m, a)) <= SeqSum(vs, Terms(m, b))
  {
    if vs != [] {
      NoWorseTerm(m, a, b, vs[0]);
      NoWorseSum(m, a, b, vs[1..]);
    }
  }

  lemma NoWorseTerm(m: Model, a: Assignment, b: Assignment, v: Var)
    requires NoWorse(m, a, b, v)
    ensures Terms(m, a)(v) <= Terms(m, b)(v)
  {
    if a(v) != b(v) {
      TimesMonotone(Coefficient(m, v), a(v), b(v));
    }
  }

  lemma TimesMonotone(c: real, x: real, y: real)
    requires c >= 0.0 && x <= y
    ensures c * x <= c * y
  {
  }

  // ---------- Splitting a point along its rounding ----------

  /** The largest share below 1, or 0 if there is none. */
  ghost predicate IsTopBelowOne(fs: set<FunctionId>, share: FunctionId -> real, top: real) {
    && 0.0 <= top < 1.0
    && (forall f :: f in fs && share(f) != 1.0 ==> share(f) <= top)
  }

  lemma {:induction false} TopBelowOne(fs: set<FunctionId>, share: FunctionId -> real) returns (top: real)
    requires forall f :: f in fs ==> 0.0 <= share(f) <= 1.0
    ensures IsTopBelowOne(fs, share, top)
    decreases fs
  {
    top := 0.0;
    if fs != {} {
      var f :| f in fs;
      top := TopBelowOne(fs - {f}, share);
      if share(f) != 1.0 && share(f) > top {
        top := share(f);
      }
    }
  }

  /** What remains of the shares when a (1 - top) part of the rounding is taken off. */
  function Stretched(g: CallGraph, share: FunctionId -> real, top: real): FunctionId -> real
    requires top > 0.0
  {
    f => if share(f) == 1.0 then 1.0 else share(f) / top
  }

  lemma Quotient(x: real, top: real)
    requires 0.0 <= x <= top && top > 0.0
    ensures 0.0 <= x / top <= 1.0 && top * (x / top) == x
  {
  }

  lemma StretchedIsAdmissible(g: CallGraph, secure: set<FunctionId>, outside: set<FunctionId>,
                              share: FunctionId -> real, top: real)
    requires Admissible(g, secure, outside, share)
    requires top > 0.0 && IsTopBelowOne(g.Keys, share, top)
    ensures Admissible(g, secure, outside, Stretched(g, share, top))
  {
    forall f | f in g && share(f) != 1.0
      ensures 0.0 <= share(f) / top <= 1.0
    {
      Quotient(share(f), top);
    }
  }

  /** A value of the form (1 - top) * b + top * c. */
  ghost predicate Mixture(x: real, b: real, c: real, top: real) {
    x == (1.0 - top) * b + top * c
  }

  /** One variable: its value is the mixture of the rounded and the stretched one. */
  lemma MixedAt(g: CallGraph, s: set<FunctionId>, share: FunctionId -> real, top: real, v: Var)
    requires WellFormed(g) && v in NodeVars(g) + EdgeVars(g)
    requires forall f :: f in g ==> 0.0 <= share(f) <= 1.0 && (f in s <==> share(f) == 1.0)
    requires top > 0.0 && IsTopBelowOne(g.Keys, share, top)
    ensures Mixture(Tight(g, share)(v), Indicator(g, s)(v), Tight(g, Stretched(g, share, top))(v), top)
  {
    match v
    case NodeVar(f) =>
      MixedShare(share(f), top);
    case EdgeVar(f, i) =>
      var p, q := g[f].outEdges[i].source, g[f].outEdges[i].sink;
      MixedDistance(share(p), share(q), top);
  }

  lemma MixedShare(x: real, top: real)
    requires 0.0 <= x <= 1.0 && 0.0 < top < 1.0 && (x != 1.0 ==> x <= top)
    ensures Mixture(x, if x == 1.0 then 1.0 else 0.0, if x == 1.0 then 1.0 else x / top, top)
  {
    if x != 1.0 {
      Quotient(x, top);
    }
  }

  lemma MixedDistance(x: real, y: real, top: real)
    requires 0.0 <= x <= 1.0 && 0.0 <= y <= 1.0 && 0.0 < top < 1.0
    requires (x != 1.0 ==> x <= top) && (y != 1.0 ==> y <= top)
    ensures var x1, y1 := (if x == 1.0 then 1.0 else 0.0), (if y == 1.0 then 1.0 else 0.0);
            var x2, y2 := (if x == 1.0 then 1.0 else x / top), (if y == 1.0 then 1.0 else y / top);
            Mixture(1.0 - Distance(x, y), 1.0 - Distance(x1, y1), 1.0 - Distance(x2, y2), top)
  {
    if x != 1.0 {
      Quotient(x, top);
    }
    if y != 1.0 {
      Quotient(y, top);
    }
    if x != 1.0 && y != 1.0 {
      ScaledDistance(x / top, y / top, top);
    }
  }

  lemma ScaledDistance(x: real, y: real, top: real)
    requires top > 0.0
    ensures Distance(top * x, top * y) == top * Distance(x, y)
  {
  }

  /** The objective splits along the same mixture. */
  lemma {:induction false} MixedSum(m: Model, a: Assignment, b: Assignment, c: Assignment, top: real, vs: seq<Var>)
    requires forall v :: v in vs ==> Mixture(a(v), b(v), c(v), top)
    ensures Mixture(SeqSum(vs, Terms(m, a)), SeqSum(vs, Terms(m, b)), SeqSum(vs, Terms(m, c)), top)
  {
    if vs != [] {
      MixedTermAt(m, a, b, c, top, vs[0]);
      MixedSum(m, a, b, c, top, vs[1..]);
      MixturesAdd(Terms(m, a)(vs[0]), Terms(m, b)(vs[0]), Terms(m, c)(vs[0]), SeqSum(vs[1..], Terms(m, a)),
                  SeqSum(vs[1..], Terms(m, b)), SeqSum(vs[1..], Terms(m, c)), top);
    }
  }

  lemma MixedTermAt(m: Model, a: Assignment, b: Assignment, c: Assignment, top: real, v: Var)
    requires Mixture(a(v), b(v), c(v), top)
    ensures Mixture(Terms(m, a)(v), Terms(m, b)(v), Terms(m, c)(v), top)
  {
    MixedTerm(Coefficient(m, v), top, a(v), b(v), c(v));
  }

  lemma MixedTerm(k: real, top: real, a: real, b: real, c: real)
    requires Mixture(a, b, c, top)
    ensures Mixture(k * a, k * b, k * c, top)
  {
  }

  lemma MixturesAdd(a: real, b: real, c: real, x: real, y: real, z: real, top: real)
    requires Mixture(a, b, c, top) && Mixture(x, y, z, top)
    ensures Mixture(a + x, b + y, c + z, top)
  {
  }

  lemma {:induction false} SameSum(m: Model, a: Assignment, b: Assignment, vs: seq<Var>)
    requires forall v :: v in vs ==> a(v) == b(v)
    ensures SeqSum(vs, Terms(m, a)) == SeqSum(vs, Terms(m, b))
  {
    if vs != [] {
      SameSum(m, a, b, vs[1..]);
    }
  }

  /** A mixture is no better than its first part if the second is no better than it. */
  lemma FirstPartWins(mixed: real, first: real, second: real, top: real)
    requires 0.0 < top < 1.0
    requires Mixture(mixed, first, second, top)
    requires second <= mixed
    ensures mixed <= first
  {
    WeightedPartWins(mixed, first, second, 1.0 - top, top);
  }

  lemma WeightedPartWins(mixed: real, first: real, second: real, k: real, top: real)
    requires 0.0 < top && 0.0 < k && k + top == 1.0
    requires mixed == k * first + top * second
    requires second <= mixed
    ensures mixed <= first
  {
    TimesMonotone(top, second, mixed);
    PartsOfWhole(k, top, mixed);
    Compare(mixed, k * first, top * second, k * mixed, top * mixed);
    CancelFactor(k, mixed, first);
  }

  lemma Compare(whole: real, p: real, q: real, r: real, s: real)
    requires whole == p + q && whole == r + s && q <= s
    ensures r <= p
  {
  }

  lemma PartsOfWhole(k: real, top: real, x: real)
    requires k + top == 1.0
    ensures k * x + top * x == x
  {
    assert (k + top) * x == x;
  }

  lemma CancelFactor(k: real, x: real, y: real)
    requires k > 0.0 && k * x <= k * y
    ensures x <= y
  {
  }

  // ---------- The rounding theorem ----------

  lemma RoundedIsAsGood(g: CallGraph, secure: set<FunctionId>, outside: set<FunctionId>, share: FunctionId -> real,
                        s: set<FunctionId>, top: real)
    requires WellFormed(g) && Admissible(g, secure, outside, share)
    requires forall f :: f in g ==> (f in s <==> share(f) == 1.0)
    requires IsTopBelowOne(g.Keys, share, top)
    requires Optimal(ModelOf(g, secure, outside), Tight(g, share))
    ensures Value(ModelOf(g, secure, outside), Tight(g, share)) <= Value(ModelOf(g, secure, outside), Indicator(g, s))
  {
    var m := ModelOf(g, secure, outside);
    if top == 0.0 {
      ZeroOneSharesAreRounded(g, share, s, m);
    } else {
      var rest := Stretched(g, share, top);
      StretchedIsAdmissible(g, secure, outside, share, top);
      TightIsFeasible(g, secure, outside, rest);
      MixedValue(g, share, s, top, m);
      FirstPartWins(Value(m, Tight(g, share)), Value(m, Indicator(g, s)), Value(m, Tight(g, rest)), top);
    }
  }

  lemma ZeroOneSharesAreRounded(g: CallGraph, share: FunctionId -> real, s: set<FunctionId>, m: Model)
    requires WellFormed(g) && m.vars == NodeVars(g) + EdgeVars(g)
    requires forall f :: f in g ==> (if f in s then share(f) == 1.0 else share(f) == 0.0)
    ensures Value(m, Tight(g, share)) == Value(m, Indicator(g, s))
  {
    forall v | v in m.vars
      ensures Tight(g, share)(v) == Indicator(g, s)(v)
    {
    }
    SameSum(m, Tight(g, share), Indicator(g, s), Enumerate(m.vars));
  }

  lemma MixedValue(g: CallGraph, share: FunctionId -> real, s: set<FunctionId>, top: real, m: Model)
    requires WellFormed(g) && m.vars == NodeVars(g) + EdgeVars(g)
    requires forall f :: f in g ==> 0.0 <= share(f) <= 1.0 && (f in s <==> share(f) == 1.0)
    requires top > 0.0 && IsTopBelowOne(g.Keys, share, top)
    ensures Mixture(Value(m, Tight(g, share)), Value(m, Indicator(g, s)),
                    Value(m, Tight(g, Stretched(g, share, top))), top)
  {
    MixedEverywhere(g, share, s, top);
    MixedSum(m, Tight(g, share), Indicator(g, s), Tight(g, Stretched(g, share, top)), top, Enumerate(m.vars));
  }

  lemma MixedEverywhere(g: CallGraph, share: FunctionId -> real, s: set<FunctionId>, top: real)
    requires WellFormed(g)
    requires forall f :: f in g ==> 0.0 <= share(f) <= 1.0 && (f in s <==> share(f) == 1.0)
    requires top > 0.0 && IsTopBelowOne(g.Keys, share, top)
    ensures forall v :: v in NodeVars(g) + EdgeVars(g) ==>
              Mixture(Tight(g, share)(v), Indicator(g, s)(v), Tight(g, Stretched(g, share, top))(v), top)
  {
    forall v | v in NodeVars(g) + EdgeVars(g)
      ensures Mixture(Tight(g, share)(v), Indicator(g, s)(v), Tight(g, Stretched(g, share, top))(v), top)
    {
      MixedAt(g, s, share, top, v);
    }
  }

  lemma SharesAreAdmissible(g: CallGraph, secure: set<FunctionId>, outside: set<FunctionId>, a: Assignment)
    requires Feasible(ModelOf(g, secure, outside), a)
    ensures Admissible(g, secure, outside, Shares(a))
    ensures Admissible(g, secure, outside, Membership(Ones(g, a)))
  {
    FeasibleMeans(g, secure, outside, a);
  }

  /** Taking the functions whose variable is exactly 1 gives an optimal point. */
  lemma RoundingIsOptimal(g: CallGraph, secure: set<FunctionId>, outside: set<FunctionId>, a: Assignment)
    requires WellFormed(g) && NonNegativeEdgeCosts(g)
    requires Optimal(ModelOf(g, secure, outside), a)
    ensures Optimal(ModelOf(g, secure, outside), Indicator(g, Ones(g, a)))
  {
    SharesAreAdmissible(g, secure, outside, a);
    TightIsFeasible(g, secure, outside, Membership(Ones(g, a)));
    TightIsFeasible(g, secure, outside, Shares(a));
    TightIsBest(g, secure, outside, a);
    var top := TopBelowOne(g.Keys, Shares(a));
    RoundedIsAsGood(g, secure, outside, Shares(a), Ones(g, a), top);
  }

  /** Among all partitions that meet the pins, the extracted one is the best. */
  lemma ExtractedPartitionIsBest(g: CallGraph, secure: set<FunctionId>, outside: set<FunctionId>,
                                 a: Assignment, other: set<FunctionId>)
    requires WellFormed(g) && NonNegativeEdgeCosts(g)
    requires Optimal(ModelOf(g, secure, outside), a)
    requires g.Keys * secure <= other && other * g.Keys * outside <= secure
    ensures g.Keys * secure <= Ones(g, a) && Ones(g, a) * outside <= secure
    ensures Value(ModelOf(g, secure, outside), Indicator(g, other))
         <= Value(ModelOf(g, secure, outside), Indicator(g, Ones(g, a)))
  {
    RoundingIsOptimal(g, secure, outside, a);
    FeasibleMeans(g, secure, outside, a);
    TightIsFeasible(g, secure, outside, Membership(other));
  }
}
