/** The cost a partition really has - context switches against node costs - and
    what a Kernighan-Lin pass does to it. */
module CutCost {
  import opened Numbers
  import opened Sums
  import opened CallGraphs
  import opened KLSpec
  import opened KLOptimality

  function InLinksOf(g: CallGraph, f: FunctionId): seq<Link> {
    if f in g then InLinks(g[f]) else []
  }

  function OutLinksOf(g: CallGraph, f: FunctionId): seq<Link> {
    if f in g then OutLinks(g[f]) else []
  }

  /** Weight of the in-edge copies at f that come from s. */
  function InFrom(g: CallGraph, f: FunctionId, s: set<FunctionId>): real {
    WeightTo(Exact, InLinksOf(g, f), |InLinksOf(g, f)|, s, true)
  }

  /** Weight of the out-edge copies at f that lead to s. */
  function OutTo(g: CallGraph, f: FunctionId, s: set<FunctionId>): real {
    WeightTo(Exact, OutLinksOf(g, f), |OutLinksOf(g, f)|, s, true)
  }

  /** Both copies of every call edge carry the same weight. */
  ghost predicate CopiesAgree(g: CallGraph) {
    forall u, v :: OutTo(g, u, {v}) == InFrom(g, v, {u})
  }

  /** Every edge ends at functions of `all`. */
  ghost predicate ClosedIn(g: CallGraph, all: set<FunctionId>) {
    && g.Keys <= all
    && forall f, i :: f in g && 0 <= i < |Links(g[f])| ==> Links(g[f])[i].other in all
  }

  ghost function OutsideWeight(g: CallGraph, p: set<FunctionId>): FunctionId -> real {
    f => External(Exact, g, f, p)
  }

  ghost function Inflow(g: CallGraph, q: set<FunctionId>): FunctionId -> real {
    f => InFrom(g, f, q)
  }

  ghost function Outflow(g: CallGraph, q: set<FunctionId>): FunctionId -> real {
    f => OutTo(g, f, q)
  }

  ghost function Costs(g: CallGraph): FunctionId -> real {
    f => NodeCost(g, f)
  }

  ghost function SelfCallWeight(g: CallGraph): FunctionId -> real {
    f => EdgeCost(Exact, g, f, f)
  }

  /** What the statistics add up for a partition: at each of its functions, the
      incident edge copies whose other end is outside. */
  ghost function Reported(g: CallGraph, p: set<FunctionId>): real {
    SetSum(p, OutsideWeight(g, p))
  }

  /** Weight of the call edges that cross between p and q, each counted once. */
  ghost function Crossing(g: CallGraph, p: set<FunctionId>, q: set<FunctionId>): real {
    SetSum(p, Outflow(g, q)) + SetSum(q, Outflow(g, p))
  }

  ghost function CostSum(g: CallGraph, fs: set<FunctionId>): real {
    SetSum(fs, Costs(g))
  }

  /** What the optimisation minimises: context switches minus secure node costs. */
  ghost function Loss(g: CallGraph, insecure: set<FunctionId>, secure: set<FunctionId>): real {
    Reported(g, insecure) - CostSum(g, secure)
  }

  // ---------- The two edge copies ----------

  lemma {:induction false} WeightOfConcat(a: seq<Link>, b: seq<Link>, n: nat, s: set<FunctionId>)
    requires |a| <= n <= |a + b|
    ensures WeightTo(Exact, a + b, n, s, true)
         == WeightTo(Exact, a, |a|, s, true) + WeightTo(Exact, b, n - |a|, s, true)
  {
    if n > |a| {
      WeightOfConcat(a, b, n - 1, s);
    } else {
      WeightOfPrefix(a, b, |a|, s);
    }
  }

  lemma {:induction false} WeightOfPrefix(a: seq<Link>, b: seq<Link>, n: nat, s: set<FunctionId>)
    requires n <= |a|
    ensures WeightTo(Exact, a + b, n, s, true) == WeightTo(Exact, a, n, s, true)
  {
    if n > 0 {
      WeightOfPrefix(a, b, n - 1, s);
    }
  }

  lemma InternalSplits(g: CallGraph, f: FunctionId, s: set<FunctionId>)
    ensures Internal(Exact, g, f, s) == InFrom(g, f, s) + OutTo(g, f, s)
  {
    WeightOfConcat(InLinksOf(g, f), OutLinksOf(g, f), |LinksOf(g, f)|, s);
  }

  lemma EdgeCostSymmetric(g: CallGraph, u: FunctionId, v: FunctionId)
    requires CopiesAgree(g)
    ensures EdgeCost(Exact, g, u, v) == EdgeCost(Exact, g, v, u)
  {
    InternalSplits(g, u, {v});
    InternalSplits(g, v, {u});
  }

  lemma {:induction false} OutsideIsComplement(links: seq<Link>, n: nat, p: set<FunctionId>, q: set<FunctionId>)
    requires n <= |links| && p !! q
    requires forall i :: 0 <= i < n ==> links[i].other in p + q
    ensures WeightTo(Exact, links, n, p, false) == WeightTo(Exact, links, n, q, true)
  {
    if n > 0 {
      OutsideIsComplement(links, n - 1, p, q);
    }
  }

  lemma ExternalIsComplement(g: CallGraph, f: FunctionId, p: set<FunctionId>, q: set<FunctionId>)
    requires p !! q && ClosedIn(g, p + q)
    ensures External(Exact, g, f, p) == InFrom(g, f, q) + OutTo(g, f, q)
  {
    OutsideIsComplement(LinksOf(g, f), |LinksOf(g, f)|, p, q);
    InternalSplits(g, f, q);
  }

  /** What flows into p from q, counted at p, is what leaves q for p, counted at q. */
  lemma InflowIsOutflow(g: CallGraph, p: set<FunctionId>, q: set<FunctionId>)
    requires CopiesAgree(g)
    ensures SetSum(p, Inflow(g, q)) == SetSum(q, Outflow(g, p))
  {
    var into := f => ToEach(InLinksOf(g, f));
    var outOf := u => ToEach(OutLinksOf(g, u));
    forall f | f in p
      ensures Inflow(g, q)(f) == SetSum(q, into(f))
    {
      WeightAsSum(InLinksOf(g, f), q);
    }
    forall u | u in q
      ensures Outflow(g, p)(u) == SetSum(p, outOf(u))
    {
      WeightAsSum(OutLinksOf(g, u), p);
    }
    forall f, u | f in p && u in q
      ensures into(f)(u) == outOf(u)(f)
    {
      assert OutTo(g, u, {f}) == InFrom(g, f, {u});
    }
    SetSumSwap(p, q, into, outOf, Inflow(g, q), Outflow(g, p));
  }

  lemma ReportedIsCrossing(g: CallGraph, p: set<FunctionId>, q: set<FunctionId>)
    requires CopiesAgree(g) && p !! q && ClosedIn(g, p + q)
    ensures Reported(g, p) == Crossing(g, p, q)
  {
    forall f | f in p
      ensures OutsideWeight(g, p)(f) == Inflow(g, q)(f) + Outflow(g, q)(f)
    {
      ExternalIsComplement(g, f, p, q);
    }
    SetSumPlus(p, Inflow(g, q), Outflow(g, q), OutsideWeight(g, p));
    InflowIsOutflow(g, p, q);
  }

  /** Both partitions report the same number of context switches: the weight of the
      edges that cross the cut. */
  lemma BothReportsAreTheCut(g: CallGraph, p: set<FunctionId>, q: set<FunctionId>)
    requires CopiesAgree(g) && p !! q && ClosedIn(g, p + q)
    ensures Reported(g, p) == Reported(g, q) == Crossing(g, p, q)
  {
    ReportedIsCrossing(g, p, q);
    assert q + p == p + q;
    ReportedIsCrossing(g, q, p);
  }

  // ---------- One move ----------

  /** What each function's own edge copies weigh towards f. */
  ghost function TowardsOne(g: CallGraph, f: FunctionId): FunctionId -> real {
    u => EdgeCost(Exact, g, u, f)
  }

  /** By how much the copies at the functions of `rest` outweigh f's own copies of the
      same edges. */
  ghost function Mismatch(g: CallGraph, rest: set<FunctionId>, f: FunctionId): real {
    SetSum(rest, TowardsOne(g, f)) - SetSum(rest, ToEach(LinksOf(g, f)))
  }

  lemma NoMismatch(g: CallGraph, rest: set<FunctionId>, f: FunctionId)
    requires CopiesAgree(g)
    ensures Mismatch(g, rest, f) == 0.0
  {
    forall u | u in rest
      ensures TowardsOne(g, f)(u) == ToEach(LinksOf(g, f))(u)
    {
      EdgeCostSymmetric(g, u, f);
    }
    SetSumEqual(rest, TowardsOne(g, f), ToEach(LinksOf(g, f)));
  }

  /** Once f has left, each remaining function sees f outside. */
  lemma OutsideAfterMove(g: CallGraph, insecure: set<FunctionId>, f: FunctionId)
    requires f in insecure
    ensures SetSum(insecure - {f}, OutsideWeight(g, insecure - {f}))
         == SetSum(insecure - {f}, OutsideWeight(g, insecure)) + SetSum(insecure - {f}, TowardsOne(g, f))
  {
    var rest := insecure - {f};
    forall u | u in rest
      ensures OutsideWeight(g, rest)(u) == OutsideWeight(g, insecure)(u) + TowardsOne(g, f)(u)
    {
      WeightWithout(LinksOf(g, u), |LinksOf(g, u)|, insecure, f);
    }
    SetSumPlus(rest, OutsideWeight(g, insecure), TowardsOne(g, f), OutsideWeight(g, rest));
  }

  lemma ReportedAfterMove(g: CallGraph, insecure: set<FunctionId>, f: FunctionId)
    requires f in insecure
    ensures Reported(g, insecure - {f})
         == Reported(g, insecure) - External(Exact, g, f, insecure) + Internal(Exact, g, f, insecure)
            - EdgeCost(Exact, g, f, f) + Mismatch(g, insecure - {f}, f)
  {
    OutsideAfterMove(g, insecure, f);
    SetSumPick(insecure, OutsideWeight(g, insecure), f);
    WeightAsSum(LinksOf(g, f), insecure - {f});
    WeightWithout(LinksOf(g, f), |LinksOf(g, f)|, insecure, f);
  }

  /** One move on any graph.  The recorded gain misses the self-call weight, which the
      pass counts as internal although it never crosses the cut, and whatever the two
      copies of f's edges differ by. */
  lemma LossAfterMove(g: CallGraph, insecure: set<FunctionId>, secure: set<FunctionId>, f: FunctionId)
    requires f in insecure && f !in secure
    ensures Loss(g, insecure - {f}, secure + {f})
         == Loss(g, insecure, secure) - Gain(Exact, g, f, insecure) - EdgeCost(Exact, g, f, f)
            + Mismatch(g, insecure - {f}, f)
    ensures CopiesAgree(g) ==> Mismatch(g, insecure - {f}, f) == 0.0
  {
    ReportedAfterMove(g, insecure, f);
    SetSumInsert(secure, Costs(g), f);
    if CopiesAgree(g) {
      NoMismatch(g, insecure - {f}, f);
    }
  }

  // ---------- The whole pass ----------

  ghost function SelfCalls(g: CallGraph, fs: set<FunctionId>): real {
    SetSum(fs, SelfCallWeight(g))
  }

  /** The partition after the first n moves of the pass. */
  ghost function VisitedLoss(g: CallGraph, insecure: set<FunctionId>, secure: set<FunctionId>,
                             moves: seq<Move>, n: nat): real
    requires n <= |moves|
  {
    Loss(g, insecure - Functions(moves[..n]), secure + Functions(moves[..n]))
  }

  /** The mismatches met by the first n moves. */
  ghost function Mismatches(g: CallGraph, insecure: set<FunctionId>, moves: seq<Move>, n: nat): real
    requires n <= |moves|
  {
    if n == 0 then 0.0
    else Mismatches(g, insecure, moves, n - 1) + Mismatch(g, insecure - Functions(moves[..n]), moves[n - 1].moved)
  }

  lemma {:induction false} NoMismatches(g: CallGraph, insecure: set<FunctionId>, moves: seq<Move>, n: nat)
    requires CopiesAgree(g) && n <= |moves|
    ensures Mismatches(g, insecure, moves, n) == 0.0
  {
    if n > 0 {
      NoMismatches(g, insecure, moves, n - 1);
      NoMismatch(g, insecure - Functions(moves[..n]), moves[n - 1].moved);
    }
  }

  /** Conservation over the pass, on any graph: start minus visited is gains plus
      self-calls minus mismatches. */
  lemma {:induction false} LossOfPrefix(g: CallGraph, insecure: set<FunctionId>, secure: set<FunctionId>,
                                        candidates: seq<FunctionId>, n: nat)
    requires n <= |candidates|
    requires Distinct(candidates) && Elements(candidates) <= insecure && Elements(candidates) !! secure
    ensures var moves := Trace(Exact, g, insecure, candidates);
            VisitedLoss(g, insecure, secure, moves, n)
            == Loss(g, insecure, secure) - PrefixGain(moves, n) - SelfCalls(g, Functions(moves[..n]))
               + Mismatches(g, insecure, moves, n)
  {
    var moves := Trace(Exact, g, insecure, candidates);
    if n == 0 {
      assert insecure - Functions(moves[..0]) == insecure;
      assert secure + Functions(moves[..0]) == secure;
      SetSumZero(Functions(moves[..0]), SelfCallWeight(g));
    } else {
      LossOfPrefix(g, insecure, secure, candidates, n - 1);
      MoveIsNew(Exact, g, insecure, candidates, n - 1);
      MoveHasItsGain(g, insecure, candidates, n - 1);
      NextPrefix(moves, n - 1);
      LossOfOneMore(g, insecure, secure, Functions(moves[..n - 1]), moves[n - 1].moved);
    }
  }

  lemma LossOfOneMore(g: CallGraph, insecure: set<FunctionId>, secure: set<FunctionId>,
                      done: set<FunctionId>, f: FunctionId)
    requires f in insecure && f !in secure && f !in done
    ensures Loss(g, insecure - (done + {f}), secure + (done + {f}))
         == Loss(g, insecure - done, secure + done) - Gain(Exact, g, f, insecure - done) - EdgeCost(Exact, g, f, f)
            + Mismatch(g, insecure - (done + {f}), f)
    ensures SelfCalls(g, done + {f}) == SelfCalls(g, done) + EdgeCost(Exact, g, f, f)
  {
    LossAfterMove(g, insecure - done, secure + done, f);
    assert insecure - done - {f} == insecure - (done + {f});
    assert secure + done + {f} == secure + (done + {f});
    SetSumInsert(done, SelfCallWeight(g), f);
  }

  /** What the copies at `rest` add to the weight of f's edges is covered by f's self-calls. */
  ghost predicate Covered(g: CallGraph, rest: set<FunctionId>, f: FunctionId) {
    f !in rest ==> Mismatch(g, rest, f) <= EdgeCost(Exact, g, f, f)
  }

  ghost predicate SelfCallsCover(g: CallGraph) {
    forall rest, f :: Covered(g, rest, f)
  }

  lemma AgreeingCopiesAreCovered(g: CallGraph)
    requires CopiesAgree(g) && NonNegativeWeights(g)
    ensures SelfCallsCover(g)
  {
    forall rest, f
      ensures Covered(g, rest, f)
    {
      NoMismatch(g, rest, f);
      WeightMonotone(LinksOf(g, f), |LinksOf(g, f)|, {f}, {f});
    }
  }

  lemma {:induction false} MismatchesAreCovered(g: CallGraph, insecure: set<FunctionId>, moves: seq<Move>, n: nat)
    requires SelfCallsCover(g) && n <= |moves|
    requires forall i :: 0 <= i < n ==> moves[i].moved !in Functions(moves[..i])
    ensures Mismatches(g, insecure, moves, n) <= SelfCalls(g, Functions(moves[..n]))
  {
    if n == 0 {
      SetSumZero(Functions(moves[..0]), SelfCallWeight(g));
    } else {
      var i := n - 1;
      MismatchesAreCovered(g, insecure, moves, i);
      NextPrefix(moves, i);
      NextIsCovered(g, insecure, Functions(moves[..i]), moves[i].moved);
    }
  }

  lemma NextIsCovered(g: CallGraph, insecure: set<FunctionId>, done: set<FunctionId>, f: FunctionId)
    requires SelfCallsCover(g) && f !in done
    ensures Mismatch(g, insecure - (done + {f}), f) <= EdgeCost(Exact, g, f, f)
    ensures SelfCalls(g, done + {f}) == SelfCalls(g, done) + EdgeCost(Exact, g, f, f)
  {
    assert Covered(g, insecure - (done + {f}), f);
    SetSumInsert(done, SelfCallWeight(g), f);
  }

  /** What a pass does to the loss, on any graph: the accepted gain sum is never negative;
      where self-calls cover the mismatches it never overstates the true decrease, so
      the result is never worse than the start. */
  lemma PassNeverWorsens(g: CallGraph, insecure: set<FunctionId>, secure: set<FunctionId>,
                         candidates: seq<FunctionId>)
    requires Distinct(candidates) && Elements(candidates) <= insecure && Elements(candidates) !! secure
    ensures var kept := Kept(Exact, g, insecure, candidates);
            var moves, keep := Trace(Exact, g, insecure, candidates), KeepCount(Exact, g, insecure, candidates);
            var accepted := PrefixGain(moves, keep);
            var decrease := Loss(g, insecure, secure) - Loss(g, insecure - kept, secure + kept);
            && 0.0 <= accepted
            && decrease == accepted + SelfCalls(g, kept) - Mismatches(g, insecure, moves, keep)
            && (SelfCallsCover(g) ==> accepted <= decrease)
            && (CopiesAgree(g) ==> decrease == accepted + SelfCalls(g, kept))
  {
    var moves := Trace(Exact, g, insecure, candidates);
    var k := KeepCount(Exact, g, insecure, candidates);
    LossOfPrefix(g, insecure, secure, candidates, k);
    ScanFindsLastBest(moves, |moves|);
    assert PrefixGain(moves, 0) <= PrefixGain(moves, k);
    if SelfCallsCover(g) {
      forall i | 0 <= i < k
        ensures moves[i].moved !in Functions(moves[..i])
      {
        MoveIsNew(Exact, g, insecure, candidates, i);
      }
      MismatchesAreCovered(g, insecure, moves, k);
    }
    if CopiesAgree(g) {
      NoMismatches(g, insecure, moves, k);
    }
  }

  /** Without self-calls among the candidates, the result is the best of all the
      partitions the pass visited. */
  lemma PassKeepsTheBestVisited(g: CallGraph, insecure: set<FunctionId>, secure: set<FunctionId>,
                                candidates: seq<FunctionId>, n: nat)
    requires CopiesAgree(g) && n <= |candidates|
    requires Distinct(candidates) && Elements(candidates) <= insecure && Elements(candidates) !! secure
    requires forall c :: c in candidates ==> EdgeCost(Exact, g, c, c) == 0.0
    ensures var moves := Trace(Exact, g, insecure, candidates);
            var kept := Kept(Exact, g, insecure, candidates);
            Loss(g, insecure - kept, secure + kept) <= VisitedLoss(g, insecure, secure, moves, n)
  {
    var moves := Trace(Exact, g, insecure, candidates);
    var k := KeepCount(Exact, g, insecure, candidates);
    LossOfPrefix(g, insecure, secure, candidates, k);
    LossOfPrefix(g, insecure, secure, candidates, n);
    NoMismatches(g, insecure, moves, k);
    NoMismatches(g, insecure, moves, n);
    NoSelfCalls(g, insecure, candidates, k);
    NoSelfCalls(g, insecure, candidates, n);
    ScanFindsLastBest(moves, |moves|);
  }

  lemma NoSelfCalls(g: CallGraph, insecure: set<FunctionId>, candidates: seq<FunctionId>, n: nat)
    requires n <= |candidates| && Distinct(candidates)
    requires forall c :: c in candidates ==> EdgeCost(Exact, g, c, c) == 0.0
    ensures SelfCalls(g, Functions(Trace(Exact, g, insecure, candidates)[..n])) == 0.0
  {
    TracePrefix(Exact, g, insecure, candidates, n, |candidates|);
    CandidatesSplit(Exact, g, insecure, candidates, n);
    SetSumZero(Functions(Trace(Exact, g, insecure, candidates)[..n]), SelfCallWeight(g));
  }
}
