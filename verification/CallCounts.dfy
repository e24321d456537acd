/** What assigning and normalising CALL_NUM weights (lib/Analysis/CallGraph.cpp) does to
    the edges, and what that means for the two copies of a call edge. */
module CallCounts {
  import opened Numbers
  import opened CallGraphs
  import opened CallGraphBuilders
  import opened CutCost
  import opened KLSpec
  import opened PartitionUtils
  import opened Weights

  // ---------- Counting call sites ----------

  /** Callers of the first n call sites. */
  function Callers(sites: seq<CallSite>, n: nat): set<FunctionId>
    requires n <= |sites|
  {
    set i | 0 <= i < n :: sites[i].caller
  }

  /** One more call site: a loop sets the count, a plain call adds one unless the count
      is the sentinel. */
  function CountStep(count: real, inLoop: bool): real {
    if inLoop then LOOP_COST else if count != POS_INFINITY then count + 1.0 else count
  }

  function CountOf(sites: seq<CallSite>, n: nat, caller: FunctionId): real
    requires n <= |sites|
  {
    if n == 0 then 0.0
    else
      var before := CountOf(sites, n - 1, caller);
      if sites[n - 1].caller == caller then CountStep(before, sites[n - 1].inLoop) else before
  }

  /** A whole number of calls, at least one for a caller, at most the sentinel. */
  lemma {:induction false} CountIsWhole(sites: seq<CallSite>, n: nat, caller: FunctionId)
    requires n <= |sites|
    ensures var count := CountOf(sites, n, caller);
            && count.Floor as real == count
            && 0.0 <= count <= POS_INFINITY
            && (caller in Callers(sites, n) ==> 1.0 <= count)
  {
    if n > 0 {
      CountIsWhole(sites, n - 1, caller);
      var before := CountOf(sites, n - 1, caller);
      assert (before + 1.0).Floor == before.Floor + 1;
    }
  }

  /** The call sites of the caller among sites[from..to]. */
  function SitesBy(sites: seq<CallSite>, caller: FunctionId, from: nat, to: nat): set<nat>
    requires to <= |sites|
  {
    set i | from <= i < to && sites[i].caller == caller
  }

  /** Whole numbers reach the sentinel without jumping over it. */
  lemma WholeBelow(count: real, k: nat)
    requires count.Floor as real == count && count + k as real < POS_INFINITY
    ensures count + (k + 1) as real <= POS_INFINITY
  {
    var whole := count.Floor + k;
    assert whole as real == count + k as real;
    assert whole < 100000;
  }

  function Capped(count: real): real {
    if count < POS_INFINITY then count else POS_INFINITY
  }

  lemma CappedStep(count: real, k: nat)
    requires count.Floor as real == count
    ensures CountStep(Capped(count + k as real), false) == Capped(count + (k + 1) as real)
  {
    if count + k as real < POS_INFINITY {
      WholeBelow(count, k);
    }
  }

  lemma NextSite(sites: seq<CallSite>, caller: FunctionId, from: nat, to: nat)
    requires from <= to < |sites|
    ensures SitesBy(sites, caller, from, to + 1)
         == SitesBy(sites, caller, from, to) + if sites[to].caller == caller then {to} else {}
  {
  }

  lemma CountNextSite(sites: seq<CallSite>, caller: FunctionId, from: nat, to: nat)
    requires from <= to < |sites|
    ensures |SitesBy(sites, caller, from, to + 1)|
         == |SitesBy(sites, caller, from, to)| + if sites[to].caller == caller then 1 else 0
  {
    NextSite(sites, caller, from, to);
    assert to !in SitesBy(sites, caller, from, to);
  }

  lemma {:induction false} PlainSitesAdd(sites: seq<CallSite>, caller: FunctionId, from: nat, to: nat)
    requires from <= to <= |sites|
    requires forall i :: from <= i < to && sites[i].caller == caller ==> !sites[i].inLoop
    ensures CountOf(sites, to, caller)
         == Capped(CountOf(sites, from, caller) + |SitesBy(sites, caller, from, to)| as real)
  {
    CountIsWhole(sites, from, caller);
    if from == to {
      assert SitesBy(sites, caller, from, to) == {};
    } else {
      PlainSitesAdd(sites, caller, from, to - 1);
      CountNextSite(sites, caller, from, to - 1);
      CappedStep(CountOf(sites, from, caller), |SitesBy(sites, caller, from, to - 1)|);
    }
  }

  /** With no call from a loop, what counts is the number of calls, up to the sentinel. */
  lemma PlainCallsCount(sites: seq<CallSite>, caller: FunctionId)
    requires forall i :: 0 <= i < |sites| && sites[i].caller == caller ==> !sites[i].inLoop
    ensures var k := |SitesBy(sites, caller, 0, |sites|)| as real;
            CountOf(sites, |sites|, caller) == if k < 100000.0 then k else 100000.0
  {
    PlainSitesAdd(sites, caller, 0, |sites|);
  }

  /** Otherwise the last call from a loop sets the count to 1000, whatever came before,
      and the plain calls after it are added, up to the sentinel. */
  lemma LastLoopCallCounts(sites: seq<CallSite>, caller: FunctionId, last: nat)
    requires last < |sites| && sites[last] == CallSite(caller, true)
    requires forall i :: last < i < |sites| && sites[i].caller == caller ==> !sites[i].inLoop
    ensures var k := |SitesBy(sites, caller, last + 1, |sites|)| as real;
            CountOf(sites, |sites|, caller) == if 1000.0 + k < 100000.0 then 1000.0 + k else 100000.0
  {
    assert CountOf(sites, last + 1, caller) == 1000.0;
    PlainSitesAdd(sites, caller, last + 1, |sites|);
  }

  function CountTable(sites: seq<CallSite>, n: nat): map<FunctionId, real>
    requires n <= |sites|
  {
    map caller | caller in Callers(sites, n) :: CountOf(sites, n, caller)
  }

  type CallSiteData = map<FunctionId, map<FunctionId, real>>

  function DataOf(pdg: Pdg): CallSiteData {
    map f | f in pdg :: CountTable(pdg[f].callSites, |pdg[f].callSites|)
  }

  lemma {:induction false} NeverCalled(sites: seq<CallSite>, n: nat, caller: FunctionId)
    requires n <= |sites| && caller !in Callers(sites, n)
    ensures CountOf(sites, n, caller) == 0.0
  {
    if n > 0 {
      assert sites[n - 1].caller in Callers(sites, n);
      NeverCalled(sites, n - 1, caller);
    }
  }

  lemma CountTableNext(sites: seq<CallSite>, n: nat)
    requires n < |sites|
    ensures var f := sites[n].caller;
            var before := if f in CountTable(sites, n) then CountTable(sites, n)[f] else 0.0;
            CountTable(sites, n + 1) == CountTable(sites, n)[f := CountStep(before, sites[n].inLoop)]
  {
    var f := sites[n].caller;
    assert Callers(sites, n + 1) == Callers(sites, n) + {f};
    if f !in Callers(sites, n) {
      NeverCalled(sites, n, f);
    }
  }

  // ---------- What the loops leave on the edges ----------

  /** A pointer to the weight of an in-edge copy. */
  datatype WeightRef = WeightRef(f: FunctionId, i: nat)

  /** The weight is a truncated count; an edge that nothing is known about keeps its own. */
  function AssignedEdge(e: Edge, caller: FunctionId, callee: FunctionId, data: CallSiteData): Edge {
    if callee in data && caller in data[callee] then e.(callNum := data[callee][caller].Floor as real) else e
  }

  function AssignedIn(edges: seq<Edge>, f: FunctionId, data: CallSiteData): (r: seq<Edge>)
    ensures |r| == |edges|
  {
    seq(|edges|, i requires 0 <= i < |edges| => AssignedEdge(edges[i], edges[i].source, f, data))
  }

  function AssignedOut(edges: seq<Edge>, f: FunctionId, data: CallSiteData): (r: seq<Edge>)
    ensures |r| == |edges|
  {
    seq(|edges|, i requires 0 <= i < |edges| => AssignedEdge(edges[i], f, edges[i].sink, data))
  }

  function RefsOf(f: FunctionId, n: nat): seq<WeightRef> {
    seq(n, i requires 0 <= i < n => WeightRef(f, i))
  }

  ghost predicate ValidRefs(g: CallGraph, refs: seq<WeightRef>) {
    forall r :: r in refs ==> r.f in g && r.i < |g[r.f].inEdges|
  }

  /** The values that the pointers point to. */
  ghost function ValuesAt(g: CallGraph, refs: seq<WeightRef>): seq<real>
    requires ValidRefs(g, refs)
  {
    seq(|refs|, k requires 0 <= k < |refs| =>
      assert refs[k] in refs;
      g[refs[k].f].inEdges[refs[k].i].callNum)
  }

  function RescaledEdges(edges: seq<Edge>, f: FunctionId, refs: seq<WeightRef>, min: real, max: real): (r: seq<Edge>)
    ensures |r| == |edges|
  {
    seq(|edges|, i requires 0 <= i < |edges| =>
      if WeightRef(f, i) in refs then edges[i].(callNum := Scale(edges[i].callNum, min, max)) else edges[i])
  }

  lemma AssignedWithoutData(edges: seq<Edge>, f: FunctionId, data: CallSiteData)
    requires f !in data
    ensures AssignedIn(edges, f, data) == edges
  {
  }

  lemma RefsExtend(refs: seq<WeightRef>, f: FunctionId, n: nat)
    requires Distinct(refs) && forall r :: r in refs ==> r.f != f
    ensures Distinct(refs + RefsOf(f, n))
    ensures forall r :: r in refs + RefsOf(f, n) <==> r in refs || (r.f == f && r.i < n)
  {
    assert forall i :: 0 <= i < n ==> RefsOf(f, n)[i] == WeightRef(f, i);
  }

  /** One more pointer changes the entry it points to, once. */
  ghost predicate NextRescaled(edges: seq<Edge>, f: FunctionId, refs: seq<WeightRef>, k: nat, min: real, max: real)
    requires k < |refs|
  {
    var before, after := RescaledEdges(edges, f, refs[..k], min, max), RescaledEdges(edges, f, refs[..k + 1], min, max);
    var i := refs[k].i;
    if refs[k].f == f && i < |edges|
    then before[i] == edges[i] && after == before[i := edges[i].(callNum := Scale(edges[i].callNum, min, max))]
    else after == before
  }

  lemma RescaledNext(edges: seq<Edge>, f: FunctionId, refs: seq<WeightRef>, k: nat, min: real, max: real)
    requires k < |refs| && Distinct(refs)
    ensures NextRescaled(edges, f, refs, k, min, max)
  {
    assert refs[..k + 1] == refs[..k] + [refs[k]];
    assert refs[k] !in refs[..k];
  }

  // ---------- What that means for the graph ----------

  /** How often u calls v, counted at the call sites of v. */
  function CountIn(pdg: Pdg): PerCall {
    (u, v) => if v in pdg then CountOf(pdg[v].callSites, |pdg[v].callSites|, u) else 0.0
  }

  /** The calls whose callee has call site data from the caller. */
  function Counted(calls: Calls, pdg: Pdg): Calls {
    set c | c in calls && c.1 in pdg && c.0 in Callers(pdg[c.1].callSites, |pdg[c.1].callSites|)
  }

  /** Call sites are known for every call to a function that has any data. */
  ghost predicate CallersKnown(calls: Calls, pdg: Pdg) {
    forall u, v :: (u, v) in calls && v in pdg ==> u in Callers(pdg[v].callSites, |pdg[v].callSites|)
  }

  ghost predicate Unweighted(g: CallGraph) {
    forall f :: f in g ==>
      && (forall i :: 0 <= i < |g[f].inEdges| ==> g[f].inEdges[i].callNum == 0.0)
      && (forall i :: 0 <= i < |g[f].outEdges| ==> g[f].outEdges[i].callNum == 0.0)
  }

  ghost predicate AssignedFrom(g: CallGraph, h: CallGraph, data: CallSiteData) {
    && h.Keys == g.Keys
    && forall f :: f in g ==>
         h[f].inEdges == AssignedIn(g[f].inEdges, f, data) && h[f].outEdges == AssignedOut(g[f].outEdges, f, data)
  }

  ghost predicate RescaledFrom(g: CallGraph, h: CallGraph, refs: seq<WeightRef>, min: real, max: real) {
    && h.Keys == g.Keys
    && forall f :: f in g ==>
         h[f].inEdges == RescaledEdges(g[f].inEdges, f, refs, min, max) && h[f].outEdges == g[f].outEdges
  }

  /** The same ends, whatever the weights. */
  ghost predicate SameEnds(a: seq<Edge>, b: seq<Edge>) {
    && |a| == |b|
    && forall i :: 0 <= i < |a| ==> a[i].source == b[i].source && a[i].sink == b[i].sink
  }

  lemma {:induction false} SameCounts(a: seq<Edge>, b: seq<Edge>, f: FunctionId)
    requires SameEnds(a, b)
    ensures SinkCount(a, f) == SinkCount(b, f) && SourceCount(a, f) == SourceCount(b, f)
  {
    if a != [] {
      SameCounts(a[..|a| - 1], b[..|b| - 1], f);
    }
  }

  lemma SameEdges(g: CallGraph, h: CallGraph, calls: Calls)
    requires EdgesAre(g, calls) && h.Keys == g.Keys
    requires forall f :: f in g ==> SameEnds(g[f].inEdges, h[f].inEdges) && SameEnds(g[f].outEdges, h[f].outEdges)
    ensures EdgesAre(h, calls)
  {
    forall f | f in h
      ensures OutEdgesAre(h[f].outEdges, f, calls) && InEdgesAre(h[f].inEdges, f, calls)
    {
      SameNodeEdges(g[f], h[f], f, calls);
    }
  }

  lemma SameNodeEdges(a: CallGraphs.Node, b: CallGraphs.Node, f: FunctionId, calls: Calls)
    requires OutEdgesAre(a.outEdges, f, calls) && InEdgesAre(a.inEdges, f, calls)
    requires SameEnds(a.inEdges, b.inEdges) && SameEnds(a.outEdges, b.outEdges)
    ensures OutEdgesAre(b.outEdges, f, calls) && InEdgesAre(b.inEdges, f, calls)
  {
    forall v
      ensures SinkCount(b.outEdges, v) == SinkCount(a.outEdges, v)
      ensures SourceCount(b.inEdges, v) == SourceCount(a.inEdges, v)
    {
      SameCounts(a.outEdges, b.outEdges, v);
      SameCounts(a.inEdges, b.inEdges, v);
    }
  }

  /** One copy of a recorded call that had no weight. */
  lemma AssignedIsCounted(e: Edge, u: FunctionId, v: FunctionId, calls: Calls, pdg: Pdg)
    requires (u, v) in calls && e.callNum == 0.0
    ensures AssignedEdge(e, u, v, DataOf(pdg)).callNum == OutCopies(Counted(calls, pdg), CountIn(pdg))(u, v)
  {
    if v in pdg {
      CountIsWhole(pdg[v].callSites, |pdg[v].callSites|, u);
    }
  }

  /** Before normalisation both copies of each edge carry the count. */
  lemma AssignedWeights(g: CallGraph, h: CallGraph, calls: Calls, pdg: Pdg)
    requires EdgesAre(g, calls) && Unweighted(g) && AssignedFrom(g, h, DataOf(pdg))
    ensures EdgesAre(h, calls)
    ensures var count := OutCopies(Counted(calls, pdg), CountIn(pdg)); WeightedBy(h, count, count)
  {
    SameEdges(g, h, calls);
    var count := OutCopies(Counted(calls, pdg), CountIn(pdg));
    forall f | f in h
      ensures NodeWeightedBy(h[f], f, count, count)
    {
      AssignedNode(g[f], h[f], f, calls, pdg);
    }
  }

  lemma AssignedNode(a: CallGraphs.Node, b: CallGraphs.Node, f: FunctionId, calls: Calls, pdg: Pdg)
    requires OutEdgesAre(a.outEdges, f, calls) && InEdgesAre(a.inEdges, f, calls)
    requires forall i :: 0 <= i < |a.inEdges| ==> a.inEdges[i].callNum == 0.0
    requires forall i :: 0 <= i < |a.outEdges| ==> a.outEdges[i].callNum == 0.0
    requires b.inEdges == AssignedIn(a.inEdges, f, DataOf(pdg)) && b.outEdges == AssignedOut(a.outEdges, f, DataOf(pdg))
    ensures var count := OutCopies(Counted(calls, pdg), CountIn(pdg)); NodeWeightedBy(b, f, count, count)
  {
    var count := OutCopies(Counted(calls, pdg), CountIn(pdg));
    forall i | 0 <= i < |b.inEdges|
      ensures b.inEdges[i].callNum == count(b.inEdges[i].source, f)
    {
      CountedIsListed(a.inEdges, a.inEdges[i].source);
      AssignedIsCounted(a.inEdges[i], a.inEdges[i].source, f, calls, pdg);
    }
    forall i | 0 <= i < |b.outEdges|
      ensures b.outEdges[i].callNum == count(f, b.outEdges[i].sink)
    {
      CountedIsListed(a.outEdges, a.outEdges[i].sink);
      AssignedIsCounted(a.outEdges[i], f, a.outEdges[i].sink, calls, pdg);
    }
  }

  /** The pointers to the in-edge copies of all functions with data, each once. */
  ghost predicate PointsTo(g: CallGraph, refs: seq<WeightRef>, pdg: Pdg) {
    && Distinct(refs)
    && forall r :: r in refs <==> r.f in g && r.f in pdg && r.i < |g[r.f].inEdges|
  }

  /** Each pointer points to the count of a counted call. */
  lemma PointedIsCounted(g: CallGraph, calls: Calls, pdg: Pdg, refs: seq<WeightRef>, k: nat)
    returns (u: FunctionId, v: FunctionId)
    requires EdgesAre(g, calls) && CallersKnown(calls, pdg) && PointsTo(g, refs, pdg) && k < |refs|
    requires var count := OutCopies(Counted(calls, pdg), CountIn(pdg)); WeightedBy(g, count, count)
    ensures (u, v) in Counted(calls, pdg) && ValuesAt(g, refs)[k] == CountIn(pdg)(u, v)
  {
    var r := refs[k];
    assert r in refs;
    u, v := g[r.f].inEdges[r.i].source, r.f;
    CountedIsListed(g[v].inEdges, u);
    assert (u, v) in Counted(calls, pdg);
  }

  /** And each counted call is pointed to. */
  lemma CountedIsPointed(g: CallGraph, calls: Calls, pdg: Pdg, refs: seq<WeightRef>, u: FunctionId, v: FunctionId)
    returns (k: nat)
    requires EdgesAre(g, calls) && PointsTo(g, refs, pdg) && (u, v) in Counted(calls, pdg)
    requires var count := OutCopies(Counted(calls, pdg), CountIn(pdg)); WeightedBy(g, count, count)
    ensures k < |refs| && ValuesAt(g, refs)[k] == CountIn(pdg)(u, v)
  {
    CountedIsListed(g[v].inEdges, u);
    var i :| 0 <= i < |g[v].inEdges| && g[v].inEdges[i].source == u;
    assert WeightRef(v, i) in refs;
    k :| 0 <= k < |refs| && refs[k] == WeightRef(v, i);
  }

  /** So the range of the collected weights is the range of the counts. */
  lemma CollectedRange(g: CallGraph, calls: Calls, pdg: Pdg, refs: seq<WeightRef>)
    requires EdgesAre(g, calls) && CallersKnown(calls, pdg) && PointsTo(g, refs, pdg) && refs != []
    requires var count := OutCopies(Counted(calls, pdg), CountIn(pdg)); WeightedBy(g, count, count)
    ensures var values := ValuesAt(g, refs);
            IsRange(Counted(calls, pdg), CountIn(pdg), MinOf(values, |values|), MaxOf(values, |values|))
  {
    var values := ValuesAt(g, refs);
    var min, max := MinOf(values, |values|), MaxOf(values, |values|);
    forall u, v | (u, v) in Counted(calls, pdg)
      ensures min <= CountIn(pdg)(u, v) <= max
    {
      var k := CountedIsPointed(g, calls, pdg, refs, u, v);
    }
    var i :| 0 <= i < |values| && values[i] == min;
    var u, v := PointedIsCounted(g, calls, pdg, refs, i);
    var j :| 0 <= j < |values| && values[j] == max;
    var w, x := PointedIsCounted(g, calls, pdg, refs, j);
  }

  /** Normalisation rescales the in-edge copies of the counted calls only. */
  lemma RescaledWeights(g: CallGraph, h: CallGraph, calls: Calls, pdg: Pdg, refs: seq<WeightRef>, min: real, max: real)
    requires EdgesAre(g, calls) && PointsTo(g, refs, pdg) && CallersKnown(calls, pdg)
    requires var count := OutCopies(Counted(calls, pdg), CountIn(pdg)); WeightedBy(g, count, count)
    requires RescaledFrom(g, h, refs, min, max)
    ensures EdgesAre(h, calls)
    ensures WeightedBy(h, InCopies(Counted(calls, pdg), CountIn(pdg), min, max),
                       OutCopies(Counted(calls, pdg), CountIn(pdg)))
  {
    SameEdges(g, h, calls);
    forall f | f in h
      ensures NodeWeightedBy(h[f], f, InCopies(Counted(calls, pdg), CountIn(pdg), min, max),
                             OutCopies(Counted(calls, pdg), CountIn(pdg)))
    {
      RescaledNode(g, h, calls, pdg, refs, min, max, f);
    }
  }

  lemma RescaledNode(g: CallGraph, h: CallGraph, calls: Calls, pdg: Pdg, refs: seq<WeightRef>, min: real, max: real,
                     f: FunctionId)
    requires f in g && InEdgesAre(g[f].inEdges, f, calls) && PointsTo(g, refs, pdg) && CallersKnown(calls, pdg)
    requires var count := OutCopies(Counted(calls, pdg), CountIn(pdg)); NodeWeightedBy(g[f], f, count, count)
    requires RescaledFrom(g, h, refs, min, max)
    ensures NodeWeightedBy(h[f], f, InCopies(Counted(calls, pdg), CountIn(pdg), min, max),
                           OutCopies(Counted(calls, pdg), CountIn(pdg)))
  {
    var ins := InCopies(Counted(calls, pdg), CountIn(pdg), min, max);
    forall i | 0 <= i < |h[f].inEdges|
      ensures h[f].inEdges[i].callNum == ins(h[f].inEdges[i].source, f)
    {
      var u := g[f].inEdges[i].source;
      CountedIsListed(g[f].inEdges, u);
      assert (u, f) in Counted(calls, pdg) <==> WeightRef(f, i) in refs;
    }
  }

  /** What assigning and normalising the weights makes of these calls and call sites. */
  ghost predicate Produced(g: CallGraph, calls: Calls, pdg: Pdg, min: real, max: real) {
    && EdgesAre(g, calls) && CallersKnown(calls, pdg)
    && WeightedBy(g, InCopies(Counted(calls, pdg), CountIn(pdg), min, max),
                  OutCopies(Counted(calls, pdg), CountIn(pdg)))
    && (Counted(calls, pdg) != {} ==> IsRange(Counted(calls, pdg), CountIn(pdg), min, max))
  }

  ghost predicate OneCount(counted: Calls, count: PerCall) {
    forall c, d :: c in counted && d in counted ==> count(c.0, c.1) == count(d.0, d.1)
  }

  /** The copies agree exactly when all counted calls have the same count. */
  lemma NormalisedAgreement(g: CallGraph, calls: Calls, pdg: Pdg, min: real, max: real)
    requires Produced(g, calls, pdg, min, max)
    ensures CopiesAgree(g) <==> OneCount(Counted(calls, pdg), CountIn(pdg))
  {
    var counted, count := Counted(calls, pdg), CountIn(pdg);
    if counted == {} {
      AgreementIsSameWeights(g, calls, InCopies(counted, count, min, max), OutCopies(counted, count));
    } else {
      forall u, v | (u, v) in counted
        ensures count(u, v) >= 1.0
      {
        CountIsWhole(pdg[v].callSites, |pdg[v].callSites|, u);
      }
      NormalizedCopiesAgree(g, calls, counted, count, min, max);
      RangeIsOneCount(counted, count, min, max);
    }
  }

  lemma RangeIsOneCount(counted: Calls, count: PerCall, min: real, max: real)
    requires IsRange(counted, count, min, max)
    ensures min == max <==> OneCount(counted, count)
  {
    var u, v :| (u, v) in counted && count(u, v) == min;
    var w, x :| (w, x) in counted && count(w, x) == max;
    if OneCount(counted, count) {
      assert count((u, v).0, (u, v).1) == count((w, x).0, (w, x).1);
    }
  }
}
