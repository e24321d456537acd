/** Normalisation of one factor's weights, and what it does to the two copies of a
    call edge (lib/Analysis/CallGraph.cpp). */
module Weights {
  import opened Numbers
  import opened CallGraphs
  import opened CallGraphBuilders
  import opened CutCost

  /** What a caller counts for that calls from a loop. */
  const LOOP_COST := 1000.0

  // ---------- The scaling ----------

  function MinOf(s: seq<real>, n: nat): (m: real)
    requires 0 < n <= |s|
    ensures exists i :: 0 <= i < n && s[i] == m
    ensures forall i :: 0 <= i < n ==> m <= s[i]
  {
    if n == 1 then s[0]
    else
      var m := MinOf(s, n - 1);
      if s[n - 1] < m then s[n - 1] else m
  }

  function MaxOf(s: seq<real>, n: nat): (m: real)
    requires 0 < n <= |s|
    ensures exists i :: 0 <= i < n && s[i] == m
    ensures forall i :: 0 <= i < n ==> s[i] <= m
  {
    if n == 1 then s[0]
    else
      var m := MaxOf(s, n - 1);
      if m < s[n - 1] then s[n - 1] else m
  }

  lemma NextRange(s: seq<real>, n: nat)
    requires 0 < n < |s|
    ensures MinOf(s, n + 1) == if s[n] < MinOf(s, n) then s[n] else MinOf(s, n)
    ensures MaxOf(s, n + 1) == if MaxOf(s, n) < s[n] then s[n] else MaxOf(s, n)
  {
  }

  /** Where x lands; a single-valued list keeps its value. */
  function Scale(x: real, min: real, max: real): real {
    if max - min == 0.0 then min else (x - min) / (max - min)
  }

  function Normalized(s: seq<real>): seq<real>
    requires s != []
  {
    seq(|s|, i requires 0 <= i < |s| => Scale(s[i], MinOf(s, |s|), MaxOf(s, |s|)))
  }

  lemma DivideOrder(x: real, y: real, d: real)
    requires d > 0.0
    ensures x < y <==> x / d < y / d
  {
  }

  lemma DivideEnds(d: real)
    requires d != 0.0
    ensures 0.0 / d == 0.0 && d / d == 1.0
  {
  }

  /** Scaling a proper range spreads it over [0, 1] in the old order. */
  lemma ScaleSpreads(x: real, y: real, min: real, max: real)
    requires min <= x <= max && min <= y <= max && min < max
    ensures 0.0 <= Scale(x, min, max) <= 1.0
    ensures x < y <==> Scale(x, min, max) < Scale(y, min, max)
    ensures Scale(min, min, max) == 0.0 && Scale(max, min, max) == 1.0
  {
    var d := max - min;
    DivideOrder(x - min, y - min, d);
    DivideOrder(x - min, 0.0, d);
    DivideOrder(d, x - min, d);
    DivideEnds(d);
    assert Scale(x, min, max) == (x - min) / d && Scale(y, min, max) == (y - min) / d;
  }

  lemma NormalizedKeepsOrder(s: seq<real>, i: nat, j: nat)
    requires i < |s| && j < |s| && MinOf(s, |s|) < MaxOf(s, |s|)
    ensures 0.0 <= Normalized(s)[i] <= 1.0
    ensures s[i] < s[j] <==> Normalized(s)[i] < Normalized(s)[j]
  {
    ScaleSpreads(s[i], s[j], MinOf(s, |s|), MaxOf(s, |s|));
  }

  lemma DivideBack(x: real, d: real)
    requires d != 0.0
    ensures x / d * d == x
  {
  }

  /** Scaling divides differences by the range; a single-valued list stays as it is. */
  lemma ScaleIsLinear(x: real, min: real, max: real, range: real)
    requires min <= x <= max && range == max - min
    ensures range == 0.0 ==> Scale(x, min, max) == x
    ensures range != 0.0 ==> Scale(x, min, max) * range == x - min
  {
    if range != 0.0 {
      DivideBack(x - min, range);
    }
  }

  // ---------- The two copies of an edge ----------

  type Calls = set<(FunctionId, FunctionId)>

  /** A number for each call, by caller and callee. */
  type PerCall = (FunctionId, FunctionId) -> real

  ghost predicate NodeWeightedBy(node: CallGraphs.Node, f: FunctionId, ins: PerCall, outs: PerCall) {
    && (forall i :: 0 <= i < |node.inEdges| ==> node.inEdges[i].callNum == ins(node.inEdges[i].source, f))
    && (forall i :: 0 <= i < |node.outEdges| ==> node.outEdges[i].callNum == outs(f, node.outEdges[i].sink))
  }

  /** Weights of the in-edge and of the out-edge copies. */
  ghost predicate WeightedBy(g: CallGraph, ins: PerCall, outs: PerCall) {
    forall f :: f in g ==> NodeWeightedBy(g[f], f, ins, outs)
  }

  lemma {:induction false} OneOutEdge(node: CallGraphs.Node, n: nat, v: FunctionId, w: real)
    requires n <= |node.outEdges| && SinkCount(node.outEdges[..n], v) <= 1
    requires forall i :: 0 <= i < |node.outEdges| && node.outEdges[i].sink == v ==> node.outEdges[i].callNum == w
    ensures WeightTo(Exact, OutLinks(node), n, {v}, true) == if SinkCount(node.outEdges[..n], v) == 1 then w else 0.0
  {
    if n > 0 {
      assert node.outEdges[..n][..n - 1] == node.outEdges[..n - 1];
      OneOutEdge(node, n - 1, v, w);
    }
  }

  lemma {:induction false} OneInEdge(node: CallGraphs.Node, n: nat, u: FunctionId, w: real)
    requires n <= |node.inEdges| && SourceCount(node.inEdges[..n], u) <= 1
    requires forall i :: 0 <= i < |node.inEdges| && node.inEdges[i].source == u ==> node.inEdges[i].callNum == w
    ensures WeightTo(Exact, InLinks(node), n, {u}, true) == if SourceCount(node.inEdges[..n], u) == 1 then w else 0.0
  {
    if n > 0 {
      assert node.inEdges[..n][..n - 1] == node.inEdges[..n - 1];
      OneInEdge(node, n - 1, u, w);
    }
  }

  /** Both copies of an edge are found where they belong, with their weights. */
  lemma CopyWeights(g: CallGraph, calls: Calls, ins: PerCall,
                    outs: PerCall, u: FunctionId, v: FunctionId)
    requires EdgesAre(g, calls) && WeightedBy(g, ins, outs)
    ensures OutTo(g, u, {v}) == if (u, v) in calls then outs(u, v) else 0.0
    ensures InFrom(g, v, {u}) == if (u, v) in calls then ins(u, v) else 0.0
  {
    if u in g {
      assert g[u].outEdges[..|g[u].outEdges|] == g[u].outEdges;
      OneOutEdge(g[u], |g[u].outEdges|, v, outs(u, v));
    }
    if v in g {
      assert g[v].inEdges[..|g[v].inEdges|] == g[v].inEdges;
      OneInEdge(g[v], |g[v].inEdges|, u, ins(u, v));
    }
  }

  ghost predicate SameWeights(calls: Calls, ins: PerCall, outs: PerCall) {
    forall u, v :: (u, v) in calls ==> ins(u, v) == outs(u, v)
  }

  lemma PairAgrees(g: CallGraph, calls: Calls, ins: PerCall,
                   outs: PerCall, u: FunctionId, v: FunctionId)
    requires EdgesAre(g, calls) && WeightedBy(g, ins, outs)
    ensures OutTo(g, u, {v}) == InFrom(g, v, {u}) <==> ((u, v) in calls ==> ins(u, v) == outs(u, v))
  {
    CopyWeights(g, calls, ins, outs, u, v);
  }

  /** The copies agree exactly when every call weighs the same on both sides. */
  lemma AgreementIsSameWeights(g: CallGraph, calls: Calls, ins: PerCall,
                               outs: PerCall)
    requires EdgesAre(g, calls) && WeightedBy(g, ins, outs)
    ensures CopiesAgree(g) <==> SameWeights(calls, ins, outs)
  {
    if CopiesAgree(g) {
      forall u, v | (u, v) in calls
        ensures ins(u, v) == outs(u, v)
      {
        PairAgrees(g, calls, ins, outs, u, v);
      }
    }
    if SameWeights(calls, ins, outs) {
      forall u, v
        ensures OutTo(g, u, {v}) == InFrom(g, v, {u})
      {
        PairAgrees(g, calls, ins, outs, u, v);
      }
    }
  }

  /** min and max are the least and the greatest call count. */
  ghost predicate IsRange(calls: Calls, count: PerCall, min: real, max: real) {
    && (forall u, v :: (u, v) in calls ==> min <= count(u, v) <= max)
    && (exists u, v :: (u, v) in calls && count(u, v) == min)
    && (exists u, v :: (u, v) in calls && count(u, v) == max)
  }

  /** Out-edge copies: the call count where the callee has a dependence graph. */
  function OutCopies(counted: Calls, count: PerCall): PerCall {
    (u, v) => if (u, v) in counted then count(u, v) else 0.0
  }

  /** In-edge copies after normalisation of exactly these copies. */
  function InCopies(counted: Calls, count: PerCall, min: real, max: real): PerCall {
    (u, v) => if (u, v) in counted then Scale(count(u, v), min, max) else 0.0
  }

  /** Before normalisation both copies carry the call count.  Normalisation then
      rescales the in-edge copies only, so the copies agree exactly when all counted
      calls have the same count. */
  lemma NormalizedCopiesAgree(g: CallGraph, calls: Calls, counted: Calls, count: PerCall,
                              min: real, max: real)
    requires EdgesAre(g, calls) && counted <= calls && IsRange(counted, count, min, max)
    requires forall u, v :: (u, v) in counted ==> count(u, v) >= 1.0
    requires WeightedBy(g, InCopies(counted, count, min, max), OutCopies(counted, count))
    ensures CopiesAgree(g) <==> min == max
  {
    var ins, outs := InCopies(counted, count, min, max), OutCopies(counted, count);
    AgreementIsSameWeights(g, calls, ins, outs);
    if min < max {
      var u, v :| (u, v) in counted && count(u, v) == min;
      ScaleSpreads(min, max, min, max);
      assert ins(u, v) == 0.0 && outs(u, v) >= 1.0;
    }
  }
}
