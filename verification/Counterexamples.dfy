/** Inputs on which the program does less well than its design suggests.  The
    edges of each graph are what building, weight assignment and normalisation make of
    some call sites. */
module Counterexamples {
  import opened Numbers
  import opened Sums
  import opened CallGraphs
  import opened CallGraphBuilders
  import opened Weights
  import opened CallCounts
  import opened PartitionUtils
  import opened CutCost
  import opened KLSpec
  import opened KLOptimality
  import opened KLSaturation
  import opened KLOptimizers
  import opened Guarantees

  // ---------- Graphs that the program produces ----------

  lemma NoInEdges(v: FunctionId, calls: Calls)
    requires forall u :: (u, v) !in calls
    ensures InEdgesAre([], v, calls)
  {
  }

  lemma NoOutEdges(u: FunctionId, calls: Calls)
    requires forall v :: (u, v) !in calls
    ensures OutEdgesAre([], u, calls)
  {
  }

  /** Only the calls into v matter to its in-edges, and those out of u to its out-edges. */
  lemma InEdgesOf(edges: seq<Edge>, v: FunctionId, some: Calls, calls: Calls)
    requires InEdgesAre(edges, v, some)
    requires forall u :: (u, v) in calls <==> (u, v) in some
    ensures InEdgesAre(edges, v, calls)
  {
  }

  lemma OutEdgesOf(edges: seq<Edge>, u: FunctionId, some: Calls, calls: Calls)
    requires OutEdgesAre(edges, u, some)
    requires forall v :: (u, v) in calls <==> (u, v) in some
    ensures OutEdgesAre(edges, u, calls)
  {
  }

  lemma OneInEdge(e: Edge, calls: Calls)
    requires forall u :: (u, e.sink) in calls <==> u == e.source
    ensures InEdgesAre([e], e.sink, calls)
  {
    NoInEdges(e.sink, {});
    InEdgeAdded([], e.source, e.sink, {}, e);
    assert [] + [e] == [e];
    InEdgesOf([e], e.sink, {} + {(e.source, e.sink)}, calls);
  }

  lemma OneOutEdge(e: Edge, calls: Calls)
    requires forall v :: (e.source, v) in calls <==> v == e.sink
    ensures OutEdgesAre([e], e.source, calls)
  {
    NoOutEdges(e.source, {});
    OutEdgeAdded([], e.source, e.sink, {}, e);
    assert [] + [e] == [e];
    OutEdgesOf([e], e.source, {} + {(e.source, e.sink)}, calls);
  }

  lemma TwoInEdges(d: Edge, e: Edge, calls: Calls)
    requires d.sink == e.sink && d.source != e.source
    requires forall u :: (u, e.sink) in calls <==> u == d.source || u == e.source
    ensures InEdgesAre([d, e], e.sink, calls)
  {
    var v := e.sink;
    OneInEdge(d, {(d.source, v)});
    InEdgeAdded([d], e.source, v, {(d.source, v)}, e);
    assert [d] + [e] == [d, e];
    InEdgesOf([d, e], v, {(d.source, v)} + {(e.source, v)}, calls);
  }

  lemma TwoOutEdges(d: Edge, e: Edge, calls: Calls)
    requires d.source == e.source && d.sink != e.sink
    requires forall v :: (e.source, v) in calls <==> v == d.sink || v == e.sink
    ensures OutEdgesAre([d, e], e.source, calls)
  {
    var u := e.source;
    OneOutEdge(d, {(u, d.sink)});
    OutEdgeAdded([d], u, e.sink, {(u, d.sink)}, e);
    assert [d] + [e] == [d, e];
    OutEdgesOf([d, e], u, {(u, d.sink)} + {(u, e.sink)}, calls);
  }

  // ---------- Equally many calls everywhere ----------

  function Plain(caller: FunctionId, n: nat): seq<CallSite> {
    seq(n, i => CallSite(caller, false))
  }

  /** Call sites outside loops, n for each caller. */
  function SitesOf(callers: seq<FunctionId>, n: nat): seq<CallSite> {
    if callers == [] then [] else SitesOf(callers[..|callers| - 1], n) + Plain(callers[|callers| - 1], n)
  }

  lemma {:induction false} CountOfPrefix(a: seq<CallSite>, b: seq<CallSite>, k: nat, caller: FunctionId)
    requires k <= |a|
    ensures CountOf(a + b, k, caller) == CountOf(a, k, caller)
  {
    if k > 0 {
      CountOfPrefix(a, b, k - 1, caller);
    }
  }

  /** Up to the sentinel, plain calls add up; those of others change nothing. */
  lemma {:induction false} CountOfPlain(a: seq<CallSite>, f: FunctionId, n: nat, k: nat, caller: FunctionId)
    requires k <= n && n as real <= POS_INFINITY
    requires caller == f ==> CountOf(a, |a|, caller) == 0.0
    ensures CountOf(a + Plain(f, n), |a| + k, caller) ==
            if caller == f then k as real else CountOf(a, |a|, caller)
  {
    if k == 0 {
      CountOfPrefix(a, Plain(f, n), |a|, caller);
    } else {
      CountOfPlain(a, f, n, k - 1, caller);
      assert (a + Plain(f, n))[|a| + k - 1] == CallSite(f, false);
    }
  }

  lemma {:induction false} CountOfSites(callers: seq<FunctionId>, n: nat, caller: FunctionId)
    requires Distinct(callers) && n as real <= POS_INFINITY
    ensures CountOf(SitesOf(callers, n), |SitesOf(callers, n)|, caller) ==
            if caller in callers then n as real else 0.0
  {
    if callers != [] {
      var init, last := callers[..|callers| - 1], callers[|callers| - 1];
      CountOfSites(init, n, caller);
      CountOfPlain(SitesOf(init, n), last, n, n, caller);
      assert callers == init + [last];
    }
  }

  lemma {:induction false} CallersOfSites(callers: seq<FunctionId>, n: nat, caller: FunctionId)
    requires caller in callers && n > 0
    ensures caller in Callers(SitesOf(callers, n), |SitesOf(callers, n)|)
  {
    var init, last := callers[..|callers| - 1], callers[|callers| - 1];
    var sites := SitesOf(callers, n);
    assert callers == init + [last];
    if caller == last {
      assert sites[|sites| - 1].caller == caller;
    } else {
      CallersOfSites(init, n, caller);
      var i :| 0 <= i < |SitesOf(init, n)| && SitesOf(init, n)[i].caller == caller;
      assert sites[i].caller == caller;
    }
  }

  /** Every call goes to f, from one of the callers. */
  ghost predicate AllTo(calls: Calls, f: FunctionId, callers: seq<FunctionId>) {
    forall u, v :: (u, v) in calls <==> v == f && u in callers
  }

  function PlainPdg(f: FunctionId, callers: seq<FunctionId>, n: nat): Pdg {
    map[f := FunctionPdg(SitesOf(callers, n), [])]
  }

  lemma PlainCounts(calls: Calls, f: FunctionId, callers: seq<FunctionId>, n: nat)
    requires AllTo(calls, f, callers) && Distinct(callers) && 0 < n && n as real <= POS_INFINITY
    ensures Counted(calls, PlainPdg(f, callers, n)) == calls && CallersKnown(calls, PlainPdg(f, callers, n))
    ensures forall u, v :: (u, v) in calls ==> CountIn(PlainPdg(f, callers, n))(u, v) == n as real
  {
    var pdg := PlainPdg(f, callers, n);
    forall u, v | (u, v) in calls
      ensures (u, v) in Counted(calls, pdg) && CountIn(pdg)(u, v) == n as real
    {
      CountOfSites(callers, n, u);
      CallersOfSites(callers, n, u);
    }
  }

  /** All edge copies of g weigh w. */
  ghost predicate Uniform(g: CallGraph, w: real) {
    forall f, i :: f in g && 0 <= i < |Links(g[f])| ==> Links(g[f])[i].weight == w
  }

  lemma UniformWeights(g: CallGraph, calls: Calls, count: PerCall, w: real)
    requires EdgesAre(g, calls) && Uniform(g, w)
    requires forall u, v :: (u, v) in calls ==> count(u, v) == w
    ensures WeightedBy(g, InCopies(calls, count, w, w), OutCopies(calls, count))
  {
    forall f | f in g
      ensures NodeWeightedBy(g[f], f, InCopies(calls, count, w, w), OutCopies(calls, count))
    {
      UniformNode(g, calls, count, f, w);
    }
  }

  /** With a single call count normalisation changes nothing. */
  lemma UniformIsProduced(g: CallGraph, calls: Calls, f: FunctionId, callers: seq<FunctionId>, n: nat)
    requires EdgesAre(g, calls) && AllTo(calls, f, callers) && callers != [] && Distinct(callers)
    requires 0 < n && n as real <= POS_INFINITY && Uniform(g, n as real)
    ensures Produced(g, calls, PlainPdg(f, callers, n), n as real, n as real)
    ensures CopiesAgree(g)
  {
    var pdg, w := PlainPdg(f, callers, n), n as real;
    PlainCounts(calls, f, callers, n);
    assert (callers[0], f) in calls;
    UniformWeights(g, calls, CountIn(pdg), w);
    NormalisedAgreement(g, calls, pdg, w, w);
  }

  lemma UniformCopies(calls: Calls, count: PerCall, u: FunctionId, v: FunctionId, w: real)
    requires (u, v) in calls && count(u, v) == w
    ensures InCopies(calls, count, w, w)(u, v) == w && OutCopies(calls, count)(u, v) == w
  {
    assert Scale(w, w, w) == w;
  }

  lemma UniformNode(g: CallGraph, calls: Calls, count: PerCall, f: FunctionId, w: real)
    requires EdgesAre(g, calls) && Uniform(g, w) && f in g
    requires forall u, v :: (u, v) in calls ==> count(u, v) == w
    ensures NodeWeightedBy(g[f], f, InCopies(calls, count, w, w), OutCopies(calls, count))
  {
    var ins, outs := g[f].inEdges, g[f].outEdges;
    forall i | 0 <= i < |ins|
      ensures ins[i].callNum == InCopies(calls, count, w, w)(ins[i].source, f)
    {
      CountedIsListed(ins, ins[i].source);
      UniformCopies(calls, count, ins[i].source, f, w);
      assert Links(g[f])[i].weight == ins[i].callNum;
    }
    forall i | 0 <= i < |outs|
      ensures outs[i].callNum == OutCopies(calls, count)(f, outs[i].sink)
    {
      CountedIsListed(outs, outs[i].sink);
      UniformCopies(calls, count, f, outs[i].sink, w);
      assert Links(g[f])[|ins| + i].weight == outs[i].callNum;
    }
  }

  // ---------- Calls from loops beside a plain one ----------

  /** Function 1, secure, and function 2, main, each call function 0 in a loop; function 1
      calls function 3, secure, once.  The in-edge copies have become 1, 1 and 0. */
  function LoopGraph(): CallGraph {
    map[Fn(0) := Node([Edge(Fn(1), Fn(0), 1.0), Edge(Fn(2), Fn(0), 1.0)], [], None, Some(0.0)),
        Fn(1) := Node([], [Edge(Fn(1), Fn(0), 1000.0), Edge(Fn(1), Fn(3), 1.0)], None, Some(0.0)),
        Fn(2) := Node([], [Edge(Fn(2), Fn(0), 1000.0)], None, Some(0.0)),
        Fn(3) := Node([Edge(Fn(1), Fn(3), 0.0)], [], None, Some(0.0))]
  }

  const LOOP_CALLS: Calls := {(Fn(1), Fn(0)), (Fn(2), Fn(0)), (Fn(1), Fn(3))}

  const LOOP_SITES: seq<CallSite> := [CallSite(Fn(1), true), CallSite(Fn(2), true)]

  const PLAIN_SITE: seq<CallSite> := [CallSite(Fn(1), false)]

  function LoopPdg(): Pdg {
    map[Fn(0) := FunctionPdg(LOOP_SITES, []), Fn(3) := FunctionPdg(PLAIN_SITE, [])]
  }

  lemma LoopGraphHasEdges()
    ensures EdgesAre(LoopGraph(), LOOP_CALLS)
  {
    TwoInEdges(Edge(Fn(1), Fn(0), 1.0), Edge(Fn(2), Fn(0), 1.0), LOOP_CALLS);
    TwoOutEdges(Edge(Fn(1), Fn(0), 1000.0), Edge(Fn(1), Fn(3), 1.0), LOOP_CALLS);
    OneOutEdge(Edge(Fn(2), Fn(0), 1000.0), LOOP_CALLS);
    OneInEdge(Edge(Fn(1), Fn(3), 0.0), LOOP_CALLS);
    NoOutEdges(Fn(0), LOOP_CALLS);
    NoInEdges(Fn(1), LOOP_CALLS);
    NoInEdges(Fn(2), LOOP_CALLS);
    NoOutEdges(Fn(3), LOOP_CALLS);
  }

  lemma LoopCounts()
    ensures Counted(LOOP_CALLS, LoopPdg()) == LOOP_CALLS && CallersKnown(LOOP_CALLS, LoopPdg())
    ensures CountIn(LoopPdg())(Fn(1), Fn(0)) == LOOP_COST && CountIn(LoopPdg())(Fn(2), Fn(0)) == LOOP_COST
    ensures CountIn(LoopPdg())(Fn(1), Fn(3)) == 1.0
  {
    assert LOOP_SITES[0].caller == Fn(1) && LOOP_SITES[1].caller == Fn(2) && PLAIN_SITE[0].caller == Fn(1);
    forall caller
      ensures CountOf(LOOP_SITES, 2, caller) == if caller == Fn(1) || caller == Fn(2) then LOOP_COST else 0.0
      ensures CountOf(PLAIN_SITE, 1, caller) == if caller == Fn(1) then 1.0 else 0.0
    {
      assert CountOf(LOOP_SITES, 1, caller) == if caller == Fn(1) then LOOP_COST else 0.0;
      assert CountOf(PLAIN_SITE, 0, caller) == 0.0;
    }
  }

  lemma LoopCopies()
    ensures var count := CountIn(LoopPdg());
            var ins, outs := InCopies(LOOP_CALLS, count, 1.0, LOOP_COST), OutCopies(LOOP_CALLS, count);
            && ins(Fn(1), Fn(0)) == 1.0 && ins(Fn(2), Fn(0)) == 1.0 && ins(Fn(1), Fn(3)) == 0.0
            && outs(Fn(1), Fn(0)) == 1000.0 && outs(Fn(2), Fn(0)) == 1000.0 && outs(Fn(1), Fn(3)) == 1.0
  {
    LoopCounts();
    ScaleSpreads(1.0, LOOP_COST, 1.0, LOOP_COST);
  }

  lemma LoopGraphHasWeights()
    ensures var count := CountIn(LoopPdg());
            WeightedBy(LoopGraph(), InCopies(LOOP_CALLS, count, 1.0, LOOP_COST), OutCopies(LOOP_CALLS, count))
  {
    var g, count := LoopGraph(), CountIn(LoopPdg());
    LoopCopies();
    forall f | f in g
      ensures NodeWeightedBy(g[f], f, InCopies(LOOP_CALLS, count, 1.0, LOOP_COST), OutCopies(LOOP_CALLS, count))
    {
      assert f == Fn(0) || f == Fn(1) || f == Fn(2) || f == Fn(3);
    }
  }

  lemma LoopRange()
    ensures IsRange(LOOP_CALLS, CountIn(LoopPdg()), 1.0, LOOP_COST)
  {
    LoopCounts();
    assert (Fn(1), Fn(3)) in LOOP_CALLS && (Fn(1), Fn(0)) in LOOP_CALLS;
  }

  lemma LoopGraphIsProduced()
    ensures Produced(LoopGraph(), LOOP_CALLS, LoopPdg(), 1.0, LOOP_COST)
  {
    LoopGraphHasEdges();
    LoopCounts();
    LoopGraphHasWeights();
    LoopRange();
  }

  /** Call counts that differ are enough for the copies to differ. */
  lemma LoopAndPlainCallDisagree()
    ensures !CopiesAgree(LoopGraph())
  {
    LoopGraphIsProduced();
    LoopCounts();
    NormalisedAgreement(LoopGraph(), LOOP_CALLS, LoopPdg(), 1.0, LOOP_COST);
    var c, d := (Fn(1), Fn(0)), (Fn(1), Fn(3));
    assert c in LOOP_CALLS && d in LOOP_CALLS && CountIn(LoopPdg())(c.0, c.1) != CountIn(LoopPdg())(d.0, d.1);
  }

  lemma LoopLinks(m: Arithmetic, s: set<FunctionId>, inside: bool)
    ensures WeightTo(m, LinksOf(LoopGraph(), Fn(0)), 2, s, inside) ==
            (if (Fn(1) in s) == inside then 1.0 else 0.0) + (if (Fn(2) in s) == inside then 1.0 else 0.0)
  {
    var links := LinksOf(LoopGraph(), Fn(0));
    assert links == [Link(Fn(1), 1.0), Link(Fn(2), 1.0)];
    assert WeightTo(m, links, 1, s, inside) == if (Fn(1) in s) == inside then 1.0 else 0.0;
  }

  lemma LoopWeights(m: Arithmetic)
    ensures Gain(m, LoopGraph(), Fn(0), {Fn(0), Fn(2)}) == 0.0
    ensures EdgeCost(Exact, LoopGraph(), Fn(0), Fn(0)) == 0.0 && EdgeCost(Exact, LoopGraph(), Fn(0), Fn(2)) == 1.0
  {
    assert |LinksOf(LoopGraph(), Fn(0))| == 2;
    LoopLinks(m, {Fn(0), Fn(2)}, true);
    LoopLinks(m, {Fn(0), Fn(2)}, false);
    LoopLinks(Exact, {Fn(0)}, true);
    LoopLinks(Exact, {Fn(2)}, true);
  }

  lemma LoopCallerWeight()
    ensures EdgeCost(Exact, LoopGraph(), Fn(2), Fn(0)) == 1000.0
  {
    var links := LinksOf(LoopGraph(), Fn(2));
    assert links == [Link(Fn(0), 1000.0)];
    assert WeightTo(Exact, links, 0, {Fn(0)}, true) == 0.0;
  }

  lemma LoopMismatch()
    ensures Mismatch(LoopGraph(), {Fn(2)}, Fn(0)) == 999.0
  {
    var g := LoopGraph();
    LoopWeights(Exact);
    LoopCallerWeight();
    var towards, own := TowardsOne(g, Fn(0)), ToEach(LinksOf(g, Fn(0)));
    assert {Fn(2)} - {Fn(2)} == {};
    SetSumPick({Fn(2)}, towards, Fn(2));
    SetSumPick({Fn(2)}, own, Fn(2));
    SetSumZero({}, towards);
    SetSumZero({}, own);
  }

  lemma LoopLoss()
    ensures Loss(LoopGraph(), {Fn(2)}, {Fn(1), Fn(3)} + {Fn(0)})
         == Loss(LoopGraph(), {Fn(0), Fn(2)}, {Fn(1), Fn(3)}) + 999.0
  {
    LoopWeights(Exact);
    LoopMismatch();
    MoveOf(LoopGraph(), {Fn(0), Fn(2)}, {Fn(2)}, {Fn(1), Fn(3)}, Fn(0));
  }

  lemma MoveOf(g: CallGraph, insecure: set<FunctionId>, rest: set<FunctionId>, secure: set<FunctionId>, f: FunctionId)
    requires f in insecure && f !in secure && rest == insecure - {f}
    ensures Loss(g, rest, secure + {f})
         == Loss(g, insecure, secure) - Gain(Exact, g, f, insecure) - EdgeCost(Exact, g, f, f) + Mismatch(g, rest, f)
  {
    LossAfterMove(g, insecure, secure, f);
  }

  lemma LoopCandidates()
    ensures MovableIn(ModuleInfo(LoopGraph().Keys, {}, {}, {Fn(2)}), {Fn(0), Fn(2)}) == Elements([Fn(0)]) == {Fn(0)}
  {
  }

  /** By the rescaled in-edge copies function 0 is worth as much inside as outside, so the
      pass moves it - and the calls of main, counted by their out-edge copy, now cross. */
  lemma PassRaisesLoss()
    ensures MovableIn(ModuleInfo(LoopGraph().Keys, {}, {}, {Fn(2)}), {Fn(0), Fn(2)}) == Elements([Fn(0)])
    ensures Kept(Saturating, LoopGraph(), {Fn(0), Fn(2)}, [Fn(0)]) == {Fn(0)}
    ensures Loss(LoopGraph(), {Fn(2)}, {Fn(1), Fn(3)} + {Fn(0)})
         == Loss(LoopGraph(), {Fn(0), Fn(2)}, {Fn(1), Fn(3)}) + 999.0
  {
    LoopCandidates();
    LoopWeights(Saturating);
    SinglePass(Saturating, LoopGraph(), {Fn(0), Fn(2)}, Fn(0));
    LoopLoss();
  }

  // ---------- A function that calls itself ----------

  /** Function 0 calls itself and is called by function 1, equally often. */
  function RecursiveGraph(w: real): CallGraph {
    var self, call := Edge(Fn(0), Fn(0), w), Edge(Fn(1), Fn(0), w);
    map[Fn(0) := Node([self, call], [self], None, Some(0.0)), Fn(1) := Node([], [call], None, Some(0.0))]
  }

  const RECURSIVE_CALLS: Calls := {(Fn(0), Fn(0)), (Fn(1), Fn(0))}

  lemma RecursiveGraphIsProduced(n: nat)
    requires 0 < n && n as real <= POS_INFINITY
    ensures var w := n as real;
            Produced(RecursiveGraph(w), RECURSIVE_CALLS, PlainPdg(Fn(0), [Fn(0), Fn(1)], n), w, w)
    ensures CopiesAgree(RecursiveGraph(n as real))
  {
    var self, call := Edge(Fn(0), Fn(0), n as real), Edge(Fn(1), Fn(0), n as real);
    OneOutEdge(self, RECURSIVE_CALLS);
    OneOutEdge(call, RECURSIVE_CALLS);
    TwoInEdges(self, call, RECURSIVE_CALLS);
    NoInEdges(Fn(1), RECURSIVE_CALLS);
    UniformIsProduced(RecursiveGraph(n as real), RECURSIVE_CALLS, Fn(0), [Fn(0), Fn(1)], n);
  }

  lemma RecursiveWeights(w: real)
    requires w >= 0.0
    ensures var g := RecursiveGraph(w);
            && Gain(Exact, g, Fn(0), {Fn(0)}) == -w
            && EdgeCost(Exact, g, Fn(0), Fn(0)) == 2.0 * w
            && Load(g, Fn(0)) == 3.0 * w
  {
    var links := LinksOf(RecursiveGraph(w), Fn(0));
    assert links == [Link(Fn(0), w), Link(Fn(1), w), Link(Fn(0), w)];
    assert AbsWeight(links, 1) == w;
    assert AbsWeight(links, 2) == AbsWeight(links, 1) + w;
    forall inside: bool
      ensures WeightTo(Exact, links, 3, {Fn(0)}, inside) == if inside then 2.0 * w else w
    {
      assert WeightTo(Exact, links, 1, {Fn(0)}, inside) == if inside then w else 0.0;
      assert WeightTo(Exact, links, 2, {Fn(0)}, inside) == w;
    }
  }

  lemma RecursiveWeightsAreNotNegative(w: real)
    requires w >= 0.0
    ensures NonNegativeWeights(RecursiveGraph(w))
  {
    forall f, i | f in RecursiveGraph(w) && 0 <= i < |Links(RecursiveGraph(w)[f])|
      ensures Links(RecursiveGraph(w)[f])[i].weight == w
    {
    }
  }

  lemma RecursivePassKeepsNothing(m: Arithmetic, w: real)
    requires w > 0.0 && (m.Saturating? ==> 3.0 * w < POS_INFINITY)
    ensures Kept(m, RecursiveGraph(w), {Fn(0)}, [Fn(0)]) == {}
  {
    RecursiveWeights(w);
    if m.Saturating? {
      SmallGain(RecursiveGraph(w), Fn(0), {Fn(0)});
    }
    SinglePass(m, RecursiveGraph(w), {Fn(0)}, Fn(0));
  }

  lemma RecursiveFunctionStays(m: Arithmetic, n: nat)
    requires 0 < n && n as real <= POS_INFINITY && (m.Saturating? ==> 3.0 * n as real < POS_INFINITY)
    ensures LeavesBehind(m, RecursiveGraph(n as real), {Fn(0)}, {Fn(1)}, [Fn(0)], Fn(0))
  {
    RecursiveGraphIsProduced(n);
    RecursiveWeightsAreNotNegative(n as real);
    RecursivePassKeepsNothing(m, n as real);
    RecursiveIsLight(m, n as real);
    assert Elements([Fn(0)]) == {Fn(0)};
  }

  lemma RecursiveIsLight(m: Arithmetic, w: real)
    requires w > 0.0 && (m.Saturating? ==> 3.0 * w < POS_INFINITY)
    ensures m.Saturating? ==> Light(RecursiveGraph(w), [Fn(0)])
  {
    RecursiveWeights(w);
  }

  /** The pass leaves function 0 behind, although moving it would lower the cost by n. */
  lemma RecursiveFunctionIsLeftBehind(m: Arithmetic, n: nat)
    requires 0 < n && n as real <= POS_INFINITY && (m.Saturating? ==> 3.0 * n as real < POS_INFINITY)
    ensures LeavesBehind(m, RecursiveGraph(n as real), {Fn(0)}, {Fn(1)}, [Fn(0)], Fn(0))
    ensures CostOfMoving(m, RecursiveGraph(n as real), {Fn(0)}, {Fn(1)}, [Fn(0)], Fn(0)) == -(n as real)
  {
    var w := n as real;
    RecursiveFunctionStays(m, n);
    RecursivePassKeepsNothing(m, w);
    NoFurtherMoveHelps(m, RecursiveGraph(w), {Fn(0)}, {Fn(1)}, [Fn(0)], Fn(0));
    RecursiveWeights(w);
    assert {Fn(0)} - {} == {Fn(0)};
  }

  // ---------- Weights that stick ----------

  /** Function 0 is called 100000 times by each of two secure functions and by main,
      function 3, and is the largest of the four. */
  function HeavyGraph(): CallGraph {
    map[Fn(0) := Node([HeavyCall(1), HeavyCall(2), HeavyCall(3)], [], None, Some(1.0)),
        Fn(1) := Node([], [HeavyCall(1)], None, Some(0.0)),
        Fn(2) := Node([], [HeavyCall(2)], None, Some(0.0)),
        Fn(3) := Node([], [HeavyCall(3)], None, Some(0.0))]
  }

  function HeavyCall(caller: nat): Edge {
    Edge(Fn(caller), Fn(0), POS_INFINITY)
  }

  const HEAVY_CALLS: Calls := {(Fn(1), Fn(0)), (Fn(2), Fn(0)), (Fn(3), Fn(0))}

  const HEAVY_CALLERS: seq<FunctionId> := [Fn(1), Fn(2), Fn(3)]

  lemma HeavyInEdges()
    ensures InEdgesAre([HeavyCall(1), HeavyCall(2), HeavyCall(3)], Fn(0), HEAVY_CALLS)
  {
    TwoInEdges(HeavyCall(1), HeavyCall(2), HEAVY_CALLS - {(Fn(3), Fn(0))});
    CountAppended([HeavyCall(1), HeavyCall(2)], HeavyCall(3));
    assert [HeavyCall(1), HeavyCall(2)] + [HeavyCall(3)] == [HeavyCall(1), HeavyCall(2), HeavyCall(3)];
  }

  lemma HeavyGraphHasEdges()
    ensures EdgesAre(HeavyGraph(), HEAVY_CALLS)
  {
    HeavyInEdges();
    NoOutEdges(Fn(0), HEAVY_CALLS);
    forall k | 1 <= k <= 3
      ensures OutEdgesAre([HeavyCall(k)], Fn(k), HEAVY_CALLS) && InEdgesAre([], Fn(k), HEAVY_CALLS)
    {
      OneOutEdge(HeavyCall(k), HEAVY_CALLS);
      NoInEdges(Fn(k), HEAVY_CALLS);
    }
  }

  lemma HeavyGraphIsUniform()
    ensures Uniform(HeavyGraph(), 100000 as real)
  {
    assert 100000 as real == POS_INFINITY;
  }

  lemma HeavyGraphIsProduced()
    ensures Produced(HeavyGraph(), HEAVY_CALLS, PlainPdg(Fn(0), HEAVY_CALLERS, 100000), POS_INFINITY, POS_INFINITY)
  {
    HeavyGraphHasEdges();
    HeavyGraphIsUniform();
    assert 100000 as real == POS_INFINITY;
    UniformIsProduced(HeavyGraph(), HEAVY_CALLS, Fn(0), HEAVY_CALLERS, 100000);
  }

  lemma HeavyWeights(m: Arithmetic)
    ensures External(m, HeavyGraph(), Fn(0), {Fn(0), Fn(3)}) == if m.Exact? then 200000.0 else 100000.0
    ensures Internal(m, HeavyGraph(), Fn(0), {Fn(0), Fn(3)}) == 100000.0
  {
    var links, insecure := LinksOf(HeavyGraph(), Fn(0)), {Fn(0), Fn(3)};
    assert links == [Link(Fn(1), 100000.0), Link(Fn(2), 100000.0), Link(Fn(3), 100000.0)];
    assert WeightTo(m, links, 1, insecure, true) == 0.0 && WeightTo(m, links, 1, insecure, false) == 100000.0;
    assert WeightTo(m, links, 2, insecure, true) == 0.0;
    assert WeightTo(m, links, 2, insecure, false) == if m.Exact? then 200000.0 else 100000.0;
  }

  /** The secure calls stick at 100000 and cancel against those of main, so the size
      decides: the only candidate stays, although moving it would gain 99999. */
  lemma HeavyPassMissesAGain()
    ensures MovableIn(ModuleInfo(HeavyGraph().Keys, {}, {}, {Fn(3)}), {Fn(0), Fn(3)}) == Elements([Fn(0)])
    ensures Kept(Saturating, HeavyGraph(), {Fn(0), Fn(3)}, [Fn(0)]) == {}
    ensures Gain(Exact, HeavyGraph(), Fn(0), {Fn(0), Fn(3)}) == 99999.0
  {
    HeavyWeights(Exact);
    HeavyWeights(Saturating);
    SinglePass(Saturating, HeavyGraph(), {Fn(0), Fn(3)}, Fn(0));
    assert Elements([Fn(0)]) == {Fn(0)};
  }
}
