/** Properties of the Kernighan-Lin pass that some graphs break, each with the exact
    condition under which every graph meets it. */
module ExactConditions {
  import opened Numbers
  import opened Sums
  import opened CallGraphs
  import opened KLSpec
  import opened KLOptimality
  import opened KLSaturation
  import opened CutCost
  import opened Guarantees

  // ---------- How heavy candidates may be ----------

  /** Candidates in an insecure set, every one a node, with non-negative weights. */
  ghost predicate Proper(g: CallGraph, insecure: set<FunctionId>, candidates: seq<FunctionId>) {
    && NonNegativeWeights(g)
    && Distinct(candidates) && Elements(candidates) <= insecure && Elements(candidates) <= g.Keys
  }

  /** Every pass whose candidates each load less than the bound leaves nothing behind that
      is worth moving. */
  ghost predicate NoMoveIsHidden(bound: real) {
    forall g, insecure, candidates ::
      Proper(g, insecure, candidates) && LoadsBelow(g, candidates, bound) ==>
        NoneWorthMoving(g, insecure, candidates, Kept(Saturating, g, insecure, candidates))
  }

  const TRIO: seq<FunctionId> := [Fn(0), Fn(1), Fn(2)]

  /** Function 1 calls function 2, lightly; all three are dear to have inside. */
  function TrioGraph(): CallGraph {
    var call, cost := Edge(Fn(1), Fn(2), 0.5), Some(99999.5);
    map[Fn(0) := Node([], [], cost, None), Fn(1) := Node([], [call], cost, None), Fn(2) := Node([call], [], cost, None)]
  }

  lemma TrioWeights(f: FunctionId, s: set<FunctionId>, m: Arithmetic)
    requires f in TRIO
    ensures Internal(m, TrioGraph(), f, s) ==
            if (f == Fn(1) && Fn(2) in s) || (f == Fn(2) && Fn(1) in s) then 0.5 else 0.0
    ensures External(m, TrioGraph(), f, s) ==
            if (f == Fn(1) && Fn(2) !in s) || (f == Fn(2) && Fn(1) !in s) then 0.5 else 0.0
    ensures NodeCost(TrioGraph(), f) == 99999.5 && Load(TrioGraph(), f) <= 100000.0
  {
    var links := LinksOf(TrioGraph(), f);
    assert links == if f == Fn(0) then [] else if f == Fn(1) then [Link(Fn(2), 0.5)] else [Link(Fn(1), 0.5)];
    assert WeightTo(m, links, 0, s, true) == 0.0 && WeightTo(m, links, 0, s, false) == 0.0;
    assert AbsWeight(links, 0) == 0.0;
  }

  lemma TrioStart()
    ensures After(Saturating, TrioGraph(), Elements(TRIO), TRIO, 0) == PassState(TRIO, [99999.5, 99999.0, 99999.0], [])
  {
    forall f | f in TRIO
      ensures Gain(Saturating, TrioGraph(), f, Elements(TRIO)) == if f == Fn(0) then 99999.5 else 99999.0
    {
      TrioWeights(f, Elements(TRIO), Saturating);
    }
    assert InitialGains(Saturating, TrioGraph(), TRIO, Elements(TRIO)) == [99999.5, 99999.0, 99999.0];
  }

  lemma TrioEdges()
    ensures EdgeCost(Saturating, TrioGraph(), Fn(1), Fn(0)) == EdgeCost(Saturating, TrioGraph(), Fn(2), Fn(0)) == 0.0
    ensures EdgeCost(Saturating, TrioGraph(), Fn(2), Fn(1)) == 0.5
  {
    TrioWeights(Fn(1), {Fn(0)}, Saturating);
    TrioWeights(Fn(2), {Fn(0)}, Saturating);
    TrioWeights(Fn(2), {Fn(1)}, Saturating);
  }

  lemma FirstOfThree(a: real, b: real)
    requires a > b
    ensures FirstMax([a, b, b], 3) == 0 && Erase([a, b, b], 0) == [b, b]
  {
    assert FirstMax([a, b, b], 1) == 0 && FirstMax([a, b, b], 2) == 0;
  }

  lemma UnchangedGains(g: CallGraph, candidates: seq<FunctionId>, gains: seq<real>, moved: FunctionId)
    requires |candidates| == |gains|
    requires forall c :: c in candidates ==> EdgeCost(Saturating, g, c, moved) == 0.0
    ensures UpdatedGains(Saturating, g, candidates, gains, moved) == gains
  {
    forall i | 0 <= i < |gains|
      ensures UpdatedGains(Saturating, g, candidates, gains, moved)[i] == gains[i]
    {
      assert candidates[i] in candidates;
    }
  }

  lemma StepIs(g: CallGraph, st: PassState, candidates: seq<FunctionId>, gains: seq<real>)
    requires 0 < |st.candidates| == |st.gains| && FirstMax(st.gains, |st.gains|) == 0
    requires Erase(st.candidates, 0) == candidates
    requires UpdatedGains(Saturating, g, candidates, Erase(st.gains, 0), st.candidates[0]) == gains
    ensures Step(Saturating, g, st) == PassState(candidates, gains, st.moves + [Move(st.candidates[0], st.gains[0])])
  {
  }

  lemma TrioFirst(g: CallGraph)
    requires EdgeCost(Saturating, g, Fn(1), Fn(0)) == EdgeCost(Saturating, g, Fn(2), Fn(0)) == 0.0
    ensures Step(Saturating, g, PassState(TRIO, [99999.5, 99999.0, 99999.0], []))
         == PassState([Fn(1), Fn(2)], [99999.0, 99999.0], [Move(Fn(0), 99999.5)])
  {
    FirstOfThree(99999.5, 99999.0);
    UnchangedGains(g, [Fn(1), Fn(2)], [99999.0, 99999.0], Fn(0));
    StepIs(g, PassState(TRIO, [99999.5, 99999.0, 99999.0], []), [Fn(1), Fn(2)], [99999.0, 99999.0]);
  }

  lemma TrioSecond(g: CallGraph, first: Move)
    requires EdgeCost(Saturating, g, Fn(2), Fn(1)) == 0.5
    ensures Step(Saturating, g, PassState([Fn(1), Fn(2)], [99999.0, 99999.0], [first]))
         == PassState([Fn(2)], [100000.0], [first, Move(Fn(1), 99999.0)])
  {
    var gains: seq<real> := [99999.0, 99999.0];
    assert FirstMax(gains, 1) == 0;
    assert Erase(gains, 0) == [99999.0] && Erase([Fn(1), Fn(2)], 0) == [Fn(2)];
  }

  lemma LastStep(g: CallGraph, first: Move, second: Move, c: FunctionId, gain: real)
    ensures Step(Saturating, g, PassState([c], [gain], [first, second])).moves == [first, second, Move(c, gain)]
  {
  }

  lemma ThreeSteps(g: CallGraph, insecure: set<FunctionId>, candidates: seq<FunctionId>,
                   st0: PassState, st1: PassState, st2: PassState)
    requires |candidates| == 3 && After(Saturating, g, insecure, candidates, 0) == st0
    requires |st0.candidates| == |st0.gains| == 3 && Step(Saturating, g, st0) == st1
    requires |st1.candidates| == |st1.gains| == 2 && Step(Saturating, g, st1) == st2
    requires |st2.candidates| == |st2.gains| == 1
    ensures Trace(Saturating, g, insecure, candidates) == Step(Saturating, g, st2).moves
  {
    assert After(Saturating, g, insecure, candidates, 1) == st1;
    assert After(Saturating, g, insecure, candidates, 2) == st2;
  }

  /** The gains are 99999.5, 99999 and 100000. */
  lemma TrioTrace()
    ensures Trace(Saturating, TrioGraph(), Elements(TRIO), TRIO)
         == [Move(Fn(0), 99999.5), Move(Fn(1), 99999.0), Move(Fn(2), 100000.0)]
  {
    var g, first, second := TrioGraph(), Move(Fn(0), 99999.5), Move(Fn(1), 99999.0);
    TrioStart();
    TrioEdges();
    TrioFirst(g);
    TrioSecond(g, first);
    LastStep(g, first, second, Fn(2), 100000.0);
    ThreeSteps(g, Elements(TRIO), TRIO, PassState(TRIO, [99999.5, 99999.0, 99999.0], []),
               PassState([Fn(1), Fn(2)], [99999.0, 99999.0], [first]), PassState([Fn(2)], [100000.0], [first, second]));
  }

  /** The scan's sum falls back to the sentinel at the third move, which is undone. */
  lemma TrioHidesAMove()
    ensures Kept(Saturating, TrioGraph(), Elements(TRIO), TRIO) == {Fn(0), Fn(1)}
    ensures Gain(Exact, TrioGraph(), Fn(2), Elements(TRIO) - {Fn(0), Fn(1)}) == 100000.0
  {
    TrioTrace();
    var moves := Trace(Saturating, TrioGraph(), Elements(TRIO), TRIO);
    assert Scan(Saturating, moves, 0) == Best(0.0, 0.0, 0);
    assert Scan(Saturating, moves, 1) == Best(99999.5, 99999.5, 1);
    assert Scan(Saturating, moves, 2) == Best(199998.5, 199998.5, 2);
    assert Scan(Saturating, moves, 3) == Best(199998.5, 100000.0, 2);
    assert moves[..2] == [Move(Fn(0), 99999.5), Move(Fn(1), 99999.0)];
    FunctionsAppend([], moves[0]);
    FunctionsAppend([moves[0]], moves[1]);
    assert [] + [moves[0]] == [moves[0]] && [moves[0]] + [moves[1]] == moves[..2];
    TrioWeights(Fn(2), Elements(TRIO) - {Fn(0), Fn(1)}, Exact);
  }

  lemma TrioIsProper()
    ensures Proper(TrioGraph(), Elements(TRIO), TRIO)
  {
  }

  lemma LightPassesHideNothing(bound: real)
    requires bound <= POS_INFINITY
    ensures NoMoveIsHidden(bound)
  {
    forall g, insecure, candidates | Proper(g, insecure, candidates) && LoadsBelow(g, candidates, bound)
      ensures NoneWorthMoving(g, insecure, candidates, Kept(Saturating, g, insecure, candidates))
    {
      LightPassIsLocallyOptimal(g, insecure, candidates);
    }
  }

  lemma TrioLoads(bound: real)
    requires bound > POS_INFINITY
    ensures LoadsBelow(TrioGraph(), TRIO, bound)
  {
    forall f | f in TRIO
      ensures Load(TrioGraph(), f) < bound
    {
      TrioWeights(f, {}, Exact);
    }
  }

  lemma TrioLeavesAGoodMove()
    ensures !NoneWorthMoving(TrioGraph(), Elements(TRIO), TRIO, Kept(Saturating, TrioGraph(), Elements(TRIO), TRIO))
  {
    TrioHidesAMove();
    assert Fn(2) in TRIO && Fn(2) !in {Fn(0), Fn(1)};
  }

  /** No improving move is hidden, whatever the graph, if and only if the bound on the
      loads is at most the sentinel. */
  lemma LoadBoundIsExact(bound: real)
    ensures NoMoveIsHidden(bound) <==> bound <= POS_INFINITY
  {
    if bound <= POS_INFINITY {
      LightPassesHideNothing(bound);
    } else {
      TrioIsProper();
      TrioLoads(bound);
      TrioLeavesAGoodMove();
    }
  }

  // ---------- How heavy they may be together ----------

  /** Every pass whose candidates together load less than the bound records exact gains. */
  ghost predicate GainsAreExact(bound: real) {
    forall g, insecure, candidates ::
      Proper(g, insecure, candidates) && TotalLoad(g, Elements(candidates)) < bound ==>
        Trace(Saturating, g, insecure, candidates) == Trace(Exact, g, insecure, candidates)
  }

  /** Function 0 is called by two others, by one of them as often as the sentinel says. */
  function SurplusGraph(w: real): CallGraph {
    map[Fn(0) := Node([Edge(Fn(1), Fn(0), POS_INFINITY), Edge(Fn(2), Fn(0), w)], [], None, None)]
  }

  lemma SurplusIsLost(w: real)
    requires w > 0.0
    ensures Gain(Saturating, SurplusGraph(w), Fn(0), {Fn(0)}) < Gain(Exact, SurplusGraph(w), Fn(0), {Fn(0)})
    ensures TotalLoad(SurplusGraph(w), {Fn(0)}) == POS_INFINITY + w
  {
    var g := SurplusGraph(w);
    var links := LinksOf(g, Fn(0));
    assert links == [Link(Fn(1), POS_INFINITY), Link(Fn(2), w)];
    forall m: Arithmetic
      ensures Internal(m, g, Fn(0), {Fn(0)}) == 0.0
      ensures External(m, g, Fn(0), {Fn(0)}) == if m.Exact? then POS_INFINITY + w else POS_INFINITY
    {
      assert WeightTo(m, links, 1, {Fn(0)}, true) == 0.0;
      assert WeightTo(m, links, 1, {Fn(0)}, false) == POS_INFINITY;
    }
    assert AbsWeight(links, 1) == POS_INFINITY;
    assert {Fn(0)} == {} + {Fn(0)};
    LoadOfOneMore(g, {}, Fn(0));
    SetSumZero({}, LoadsOf(g));
  }

  lemma SurplusIsProper(w: real)
    requires w > 0.0
    ensures Proper(SurplusGraph(w), {Fn(0)}, [Fn(0)]) && Elements([Fn(0)]) == {Fn(0)}
  {
  }

  /** So the bound on the sum of the loads is the sentinel as well. */
  lemma TotalBoundIsExact(bound: real)
    ensures GainsAreExact(bound) <==> bound <= POS_INFINITY
  {
    if bound <= POS_INFINITY {
      forall g, insecure, candidates |
        Proper(g, insecure, candidates) && TotalLoad(g, Elements(candidates)) < bound
        ensures Trace(Saturating, g, insecure, candidates) == Trace(Exact, g, insecure, candidates)
      {
        ModeratePassIsExact(g, insecure, candidates);
      }
    } else {
      var w := (bound - POS_INFINITY) / 2.0;
      SurplusIsLost(w);
      SurplusIsProper(w);
      TraceSelects(Saturating, SurplusGraph(w), {Fn(0)}, [Fn(0)], 0);
      TraceSelects(Exact, SurplusGraph(w), {Fn(0)}, [Fn(0)], 0);
    }
  }

  // ---------- Copies that differ ----------

  /** The same edge copies; the node costs may differ. */
  ghost predicate SameCopies(g: CallGraph, h: CallGraph) {
    && h.Keys == g.Keys
    && forall f :: f in g ==> h[f].inEdges == g[f].inEdges && h[f].outEdges == g[f].outEdges
  }

  /** Candidates among the insecure functions, none of which is secure. */
  ghost predicate Starts(insecure: set<FunctionId>, secure: set<FunctionId>, candidates: seq<FunctionId>) {
    Distinct(candidates) && Elements(candidates) <= insecure && insecure !! secure
  }

  /** No exact pass, whatever the node costs and the start, ends with a larger loss. */
  ghost predicate NeverRaisesLoss(g: CallGraph) {
    forall h, insecure, secure, candidates ::
      SameCopies(g, h) && Starts(insecure, secure, candidates) ==>
        LossAfterPass(h, insecure, secure, candidates) <= Loss(h, insecure, secure)
  }

  ghost function LossAfterPass(g: CallGraph, insecure: set<FunctionId>, secure: set<FunctionId>,
                               candidates: seq<FunctionId>): real {
    var kept := Kept(Exact, g, insecure, candidates);
    Loss(g, insecure - kept, secure + kept)
  }

  lemma SameLinks(g: CallGraph, h: CallGraph, f: FunctionId)
    requires SameCopies(g, h)
    ensures LinksOf(h, f) == LinksOf(g, f)
  {
  }

  lemma SameMismatch(g: CallGraph, h: CallGraph, rest: set<FunctionId>, f: FunctionId)
    requires SameCopies(g, h)
    ensures Mismatch(h, rest, f) == Mismatch(g, rest, f)
    ensures EdgeCost(Exact, h, f, f) == EdgeCost(Exact, g, f, f)
  {
    SameLinks(g, h, f);
    forall u | u in rest
      ensures TowardsOne(h, f)(u) == TowardsOne(g, f)(u)
    {
      SameLinks(g, h, u);
    }
    SetSumEqual(rest, TowardsOne(h, f), TowardsOne(g, f));
  }

  lemma SameCover(g: CallGraph, h: CallGraph)
    requires SameCopies(g, h) && SelfCallsCover(g)
    ensures SelfCallsCover(h)
  {
    forall rest, f
      ensures Covered(h, rest, f)
    {
      assert Covered(g, rest, f);
      SameMismatch(g, h, rest, f);
    }
  }

  /** The same copies, with a node cost that makes the gain of f zero. */
  function Priced(g: CallGraph, f: FunctionId, insecure: set<FunctionId>): CallGraph {
    if f in g
    then g[f := g[f].(sensitiveRelated := Some(Internal(Exact, g, f, insecure) - External(Exact, g, f, insecure)),
                      size := None)]
    else g
  }

  lemma PricedGainIsZero(g: CallGraph, f: FunctionId, insecure: set<FunctionId>)
    ensures SameCopies(g, Priced(g, f, insecure))
    ensures Gain(Exact, Priced(g, f, insecure), f, insecure) == 0.0
  {
    var h := Priced(g, f, insecure);
    SameLinks(g, h, f);
    if f !in g {
      WeightToNothing([], 0);
    }
  }

  lemma UncoveredMoveIsKept(g: CallGraph, f: FunctionId, rest: set<FunctionId>)
    requires !Covered(g, rest, f) && Gain(Exact, g, f, rest + {f}) == 0.0
    ensures LossAfterPass(g, rest + {f}, {}, [f]) > Loss(g, rest + {f}, {})
  {
    SinglePass(Exact, g, rest + {f}, f);
    assert rest + {f} - {f} == rest;
    LossAfterMove(g, rest + {f}, {}, f);
  }

  lemma OneStarts(rest: set<FunctionId>, f: FunctionId)
    ensures Starts(rest + {f}, {}, [f])
  {
    assert Elements([f]) == {f};
  }

  lemma UncoveredPass(g: CallGraph, h: CallGraph, f: FunctionId, rest: set<FunctionId>)
    requires SameCopies(g, h) && !Covered(g, rest, f) && Gain(Exact, h, f, rest + {f}) == 0.0
    ensures !NeverRaisesLoss(g)
  {
    SameMismatch(g, h, rest, f);
    UncoveredMoveIsKept(h, f, rest);
    OneStarts(rest, f);
  }

  /** A mismatch that is not covered makes a pass over one function raise the loss. */
  lemma UncoveredRaisesLoss(g: CallGraph, f: FunctionId, rest: set<FunctionId>)
    requires !Covered(g, rest, f)
    ensures !NeverRaisesLoss(g)
  {
    PricedGainIsZero(g, f, rest + {f});
    UncoveredPass(g, Priced(g, f, rest + {f}), f, rest);
  }

  /** The pass never raises the loss on a graph's edge copies if and only if self-calls
      cover every mismatch. */
  lemma CoverIsExact(g: CallGraph)
    ensures NeverRaisesLoss(g) <==> SelfCallsCover(g)
  {
    if SelfCallsCover(g) {
      forall h, insecure, secure, candidates |
        SameCopies(g, h) && Starts(insecure, secure, candidates)
        ensures LossAfterPass(h, insecure, secure, candidates) <= Loss(h, insecure, secure)
      {
        SameCover(g, h);
        PassNeverWorsens(h, insecure, secure, candidates);
      }
    } else {
      var rest, f :| !Covered(g, rest, f);
      UncoveredRaisesLoss(g, f, rest);
    }
  }

  // ---------- Functions that call themselves ----------

  /** On every graph, every function that is left behind with self-calls of weight e is
      strictly not worth moving. */
  ghost predicate NeverWorthMoving(m: Arithmetic, e: real) {
    forall g, insecure, secure, candidates, c ::
      LeavesBehind(m, g, insecure, secure, candidates, c) && EdgeCost(Exact, g, c, c) == e ==>
        CostOfMoving(m, g, insecure, secure, candidates, c) > 0.0
  }

  /** A function with self-calls only. */
  function SelfCallGraph(w: real, cost: real): CallGraph {
    var self := Edge(Fn(0), Fn(0), w);
    map[Fn(0) := Node([self], [self], Some(cost), None)]
  }

  lemma SelfCallWeights(w: real, cost: real)
    requires w >= 0.0 && cost >= 0.0
    ensures var g := SelfCallGraph(w, cost);
            && EdgeCost(Exact, g, Fn(0), Fn(0)) == 2.0 * w
            && Gain(Exact, g, Fn(0), {Fn(0)}) == cost - 2.0 * w
            && Load(g, Fn(0)) == 2.0 * w + cost
  {
    var links := LinksOf(SelfCallGraph(w, cost), Fn(0));
    assert links == [Link(Fn(0), w), Link(Fn(0), w)];
    assert WeightTo(Exact, links, 1, {Fn(0)}, true) == w && WeightTo(Exact, links, 1, {Fn(0)}, false) == 0.0;
    assert AbsWeight(links, 1) == w;
  }

  lemma SelfCallGraphIsFit(w: real, cost: real)
    requires w >= 0.0
    ensures NonNegativeWeights(SelfCallGraph(w, cost)) && CopiesAgree(SelfCallGraph(w, cost))
  {
    var g, links := SelfCallGraph(w, cost), [Link(Fn(0), w)];
    assert InLinksOf(g, Fn(0)) == links && OutLinksOf(g, Fn(0)) == links;
    forall u, v
      ensures OutTo(g, u, {v}) == InFrom(g, v, {u})
    {
      assert WeightTo(Exact, links, 0, {v}, true) == 0.0 && WeightTo(Exact, links, 0, {u}, true) == 0.0;
    }
  }

  lemma SelfCallsStay(m: Arithmetic, w: real, cost: real)
    requires 0.0 < cost < 2.0 * w && (m.Saturating? ==> 2.0 * w + cost < POS_INFINITY)
    ensures LeavesBehind(m, SelfCallGraph(w, cost), {Fn(0)}, {}, [Fn(0)], Fn(0))
    ensures Kept(m, SelfCallGraph(w, cost), {Fn(0)}, [Fn(0)]) == {}
  {
    var g := SelfCallGraph(w, cost);
    SelfCallWeights(w, cost);
    SelfCallGraphIsFit(w, cost);
    if m.Saturating? {
      SmallGain(g, Fn(0), {Fn(0)});
    }
    SinglePass(m, g, {Fn(0)}, Fn(0));
    assert Elements([Fn(0)]) == {Fn(0)};
  }

  lemma SelfCallsCostNothing(m: Arithmetic, w: real, cost: real)
    requires 0.0 < cost < 2.0 * w && (m.Saturating? ==> 2.0 * w + cost < POS_INFINITY)
    ensures CostOfMoving(m, SelfCallGraph(w, cost), {Fn(0)}, {}, [Fn(0)], Fn(0)) == -cost
  {
    SelfCallsStay(m, w, cost);
    SelfCallWeights(w, cost);
    NoFurtherMoveHelps(m, SelfCallGraph(w, cost), {Fn(0)}, {}, [Fn(0)], Fn(0));
    assert {Fn(0)} - {} == {Fn(0)};
  }

  lemma SelfCallsHideAMove(m: Arithmetic, w: real, cost: real)
    requires 0.0 < cost < 2.0 * w && (m.Saturating? ==> 2.0 * w + cost < POS_INFINITY)
    ensures !NeverWorthMoving(m, 2.0 * w)
  {
    SelfCallsStay(m, w, cost);
    SelfCallsCostNothing(m, w, cost);
    SelfCallWeights(w, cost);
  }

  lemma WithoutSelfCalls(m: Arithmetic)
    ensures NeverWorthMoving(m, 0.0)
  {
    forall g, insecure, secure, candidates, c |
      LeavesBehind(m, g, insecure, secure, candidates, c) && EdgeCost(Exact, g, c, c) == 0.0
      ensures CostOfMoving(m, g, insecure, secure, candidates, c) > 0.0
    {
      NoFurtherMoveHelps(m, g, insecure, secure, candidates, c);
    }
  }

  /** No function left behind has such self-calls. */
  lemma OutOfRange(m: Arithmetic, e: real)
    requires e < 0.0 || (m.Saturating? && e >= POS_INFINITY)
    ensures NeverWorthMoving(m, e)
  {
    forall g, insecure, secure, candidates, c |
      LeavesBehind(m, g, insecure, secure, candidates, c)
      ensures 0.0 <= EdgeCost(Exact, g, c, c) && (m.Saturating? ==> EdgeCost(Exact, g, c, c) < POS_INFINITY)
    {
      var links := LinksOf(g, c);
      WeightMonotone(links, |links|, {c}, {c});
      if m.Saturating? {
        SmallWeights(links, |links|, {c}, true);
      }
    }
  }

  /** That is so exactly when there are no self-calls - or when no candidate of the pass
      can have them. */
  lemma OnlySelfCallsHideMoves(m: Arithmetic, e: real)
    ensures NeverWorthMoving(m, e) <==> e <= 0.0 || (m.Saturating? && e >= POS_INFINITY)
  {
    if e < 0.0 || (m.Saturating? && e >= POS_INFINITY) {
      OutOfRange(m, e);
    } else if e == 0.0 {
      WithoutSelfCalls(m);
    } else {
      var tight := m.Saturating? && 2.0 * e > POS_INFINITY;
      SelfCallsHideAMove(m, e / 2.0, if tight then (POS_INFINITY - e) / 2.0 else e / 2.0);
    }
  }
}
