/** What a Kernighan-Lin pass achieves over exact arithmetic: gains stay the
    recomputed ones, and the kept prefix is locally optimal. */
module KLOptimality {
  import opened Numbers
  import opened CallGraphs
  import opened KLSpec

  // ---------- Bookkeeping, for either arithmetic ----------

  lemma ErasedIndex<T>(s: seq<T>, k: nat, i: nat)
    requires k < |s| && i < |s| - 1
    ensures Erase(s, k)[i] == s[if i < k then i else i + 1]
  {
  }

  lemma ErasedElements<T(!new)>(s: seq<T>, k: nat)
    requires k < |s| && Distinct(s)
    ensures Distinct(Erase(s, k))
    ensures Elements(Erase(s, k)) == Elements(s) - {s[k]}
  {
    var r := Erase(s, k);
    forall x
      ensures x in Elements(r) <==> x in Elements(s) - {s[k]}
    {
      if x in Elements(s) - {s[k]} {
        var i :| 0 <= i < |s| && s[i] == x;
        assert r[if i < k then i else i - 1] == x;
      }
    }
  }

  lemma FunctionsAppend(moves: seq<Move>, move: Move)
    ensures Functions(moves + [move]) == Functions(moves) + {move.moved}
  {
    var longer := moves + [move];
    forall f
      ensures f in Functions(longer) <==> f in Functions(moves) + {move.moved}
    {
      if f in Functions(moves) {
        var i :| 0 <= i < |moves| && moves[i].moved == f;
        assert longer[i].moved == f;
      }
      assert longer[|moves|].moved == move.moved;
    }
  }

  lemma NextPrefix(moves: seq<Move>, n: nat)
    requires n < |moves|
    ensures Functions(moves[..n + 1]) == Functions(moves[..n]) + {moves[n].moved}
  {
    FunctionsAppend(moves[..n], moves[n]);
    assert moves[..n] + [moves[n]] == moves[..n + 1];
  }

  lemma StepExtendsTrace(m: Arithmetic, g: CallGraph, insecure: set<FunctionId>, candidates: seq<FunctionId>, j: nat)
    requires j < |candidates|
    ensures After(m, g, insecure, candidates, j).moves == After(m, g, insecure, candidates, j + 1).moves[..j]
  {
  }

  lemma PrefixOfPrefix<T>(a: seq<T>, b: seq<T>, c: seq<T>)
    requires |a| <= |b| <= |c|
    requires a == b[..|a|] && b == c[..|b|]
    ensures a == c[..|a|]
  {
  }

  /** Earlier states are prefixes of later ones, so of the final trace. */
  lemma {:induction false} TracePrefix(m: Arithmetic, g: CallGraph, insecure: set<FunctionId>,
                                       candidates: seq<FunctionId>, i: nat, j: nat)
    requires i <= j <= |candidates|
    ensures After(m, g, insecure, candidates, i).moves == After(m, g, insecure, candidates, j).moves[..i]
    decreases j - i
  {
    if i < j {
      StepExtendsTrace(m, g, insecure, candidates, i);
      TracePrefix(m, g, insecure, candidates, i + 1, j);
      PrefixOfPrefix(After(m, g, insecure, candidates, i).moves,
                     After(m, g, insecure, candidates, i + 1).moves,
                     After(m, g, insecure, candidates, j).moves);
    }
  }

  /** Each recorded move is the first maximum of its selection. */
  lemma TraceSelects(m: Arithmetic, g: CallGraph, insecure: set<FunctionId>, candidates: seq<FunctionId>, j: nat)
    requires j < |candidates|
    ensures var st := After(m, g, insecure, candidates, j);
            var k := FirstMax(st.gains, |st.gains|);
            Trace(m, g, insecure, candidates)[j] == Move(st.candidates[k], st.gains[k])
  {
    TracePrefix(m, g, insecure, candidates, j + 1, |candidates|);
    var st := After(m, g, insecure, candidates, j);
    assert After(m, g, insecure, candidates, j + 1) == Step(m, g, st);
    assert Trace(m, g, insecure, candidates)[..j + 1][j] == Step(m, g, st).moves[j];
  }

  /** The recorded moves and the remaining candidates split the candidates. */
  ghost predicate Split(candidates: seq<FunctionId>, st: PassState) {
    && Distinct(st.candidates)
    && Functions(st.moves) <= Elements(candidates)
    && Elements(st.candidates) == Elements(candidates) - Functions(st.moves)
  }

  lemma RemainingAreCandidates(candidates: seq<FunctionId>, st: PassState)
    requires Split(candidates, st)
    ensures forall c :: c in st.candidates ==> c in candidates
  {
    forall c | c in st.candidates
      ensures c in candidates
    {
      assert c in Elements(st.candidates) && c in Elements(candidates);
    }
  }

  lemma StepKeepsSplit(m: Arithmetic, g: CallGraph, candidates: seq<FunctionId>, st: PassState)
    requires 0 < |st.candidates| == |st.gains| && Split(candidates, st)
    ensures Split(candidates, Step(m, g, st))
  {
    var k := FirstMax(st.gains, |st.gains|);
    var f := st.candidates[k];
    ErasedElements(st.candidates, k);
    FunctionsAppend(st.moves, Move(f, st.gains[k]));
    assert f in Elements(st.candidates);
  }

  lemma {:induction false} CandidatesSplit(m: Arithmetic, g: CallGraph, insecure: set<FunctionId>,
                                           candidates: seq<FunctionId>, j: nat)
    requires j <= |candidates| && Distinct(candidates)
    ensures Split(candidates, After(m, g, insecure, candidates, j))
  {
    if j > 0 {
      CandidatesSplit(m, g, insecure, candidates, j - 1);
      StepKeepsSplit(m, g, candidates, After(m, g, insecure, candidates, j - 1));
    }
  }

  /** Each recorded move takes a candidate not taken before. */
  lemma MoveIsNew(m: Arithmetic, g: CallGraph, insecure: set<FunctionId>, candidates: seq<FunctionId>, n: nat)
    requires n < |candidates| && Distinct(candidates)
    ensures var moves := Trace(m, g, insecure, candidates);
            moves[n].moved in Elements(candidates) && moves[n].moved !in Functions(moves[..n])
  {
    TraceSelects(m, g, insecure, candidates, n);
    TracePrefix(m, g, insecure, candidates, n, |candidates|);
    CandidatesSplit(m, g, insecure, candidates, n);
    var st := After(m, g, insecure, candidates, n);
    assert st.candidates[FirstMax(st.gains, |st.gains|)] in Elements(st.candidates);
  }

  // ---------- Gains over exact arithmetic ----------

  lemma GainAfterMove(g: CallGraph, f: FunctionId, insecure: set<FunctionId>, moved: FunctionId)
    requires moved in insecure
    ensures Gain(Exact, g, f, insecure - {moved})
         == Gain(Exact, g, f, insecure) + 2.0 * EdgeCost(Exact, g, f, moved)
  {
    WeightWithout(LinksOf(g, f), |LinksOf(g, f)|, insecure, moved);
  }

  ghost predicate Recomputed(g: CallGraph, insecure: set<FunctionId>, st: PassState) {
    st.gains == InitialGains(Exact, g, st.candidates, insecure - Functions(st.moves))
  }

  lemma EraseInitialGains(g: CallGraph, insecure: set<FunctionId>, candidates: seq<FunctionId>, k: nat)
    requires k < |candidates|
    ensures Erase(InitialGains(Exact, g, candidates, insecure), k)
         == InitialGains(Exact, g, Erase(candidates, k), insecure)
  {
    var gains := InitialGains(Exact, g, candidates, insecure);
    forall i | 0 <= i < |candidates| - 1
      ensures Erase(gains, k)[i] == Gain(Exact, g, Erase(candidates, k)[i], insecure)
    {
      ErasedIndex(gains, k, i);
      ErasedIndex(candidates, k, i);
    }
  }

  /** The increment 2 * edge cost is the whole effect of one move on the others. */
  lemma UpdateIsRecomputation(g: CallGraph, insecure: set<FunctionId>, candidates: seq<FunctionId>, moved: FunctionId)
    requires moved in insecure
    ensures UpdatedGains(Exact, g, candidates, InitialGains(Exact, g, candidates, insecure), moved)
         == InitialGains(Exact, g, candidates, insecure - {moved})
  {
    var updated := UpdatedGains(Exact, g, candidates, InitialGains(Exact, g, candidates, insecure), moved);
    forall i | 0 <= i < |candidates|
      ensures updated[i] == Gain(Exact, g, candidates[i], insecure - {moved})
    {
      GainAfterMove(g, candidates[i], insecure, moved);
    }
  }

  lemma StepKeepsRecomputed(g: CallGraph, insecure: set<FunctionId>, st: PassState)
    requires 0 < |st.candidates| == |st.gains|
    requires Recomputed(g, insecure, st)
    requires Elements(st.candidates) <= insecure - Functions(st.moves)
    ensures Recomputed(g, insecure, Step(Exact, g, st))
  {
    var k := FirstMax(st.gains, |st.gains|);
    var f := st.candidates[k];
    var now := insecure - Functions(st.moves);
    FunctionsAppend(st.moves, Move(f, st.gains[k]));
    assert insecure - (Functions(st.moves) + {f}) == now - {f};
    assert f in Elements(st.candidates);
    EraseInitialGains(g, now, st.candidates, k);
    UpdateIsRecomputation(g, now, Erase(st.candidates, k), f);
  }

  /** At every selection, every entry of the gain array is the gain recomputed
      from scratch against the current partitions. */
  lemma {:induction false} GainsAreRecomputed(g: CallGraph, insecure: set<FunctionId>, candidates: seq<FunctionId>,
                                              j: nat)
    requires j <= |candidates| && Distinct(candidates) && Elements(candidates) <= insecure
    ensures Recomputed(g, insecure, After(Exact, g, insecure, candidates, j))
  {
    if j == 0 {
      assert insecure - Functions([]) == insecure;
    } else {
      GainsAreRecomputed(g, insecure, candidates, j - 1);
      CandidatesSplit(Exact, g, insecure, candidates, j - 1);
      StepKeepsRecomputed(g, insecure, After(Exact, g, insecure, candidates, j - 1));
    }
  }

  lemma MoveHasItsGain(g: CallGraph, insecure: set<FunctionId>, candidates: seq<FunctionId>, n: nat)
    requires n < |candidates| && Distinct(candidates) && Elements(candidates) <= insecure
    ensures var moves := Trace(Exact, g, insecure, candidates);
            moves[n].gain == Gain(Exact, g, moves[n].moved, insecure - Functions(moves[..n]))
  {
    TraceSelects(Exact, g, insecure, candidates, n);
    TracePrefix(Exact, g, insecure, candidates, n, |candidates|);
    GainsAreRecomputed(g, insecure, candidates, n);
  }

  // ---------- The kept prefix ----------

  function PrefixGain(moves: seq<Move>, n: nat): real
    requires n <= |moves|
  {
    if n == 0 then 0.0 else PrefixGain(moves, n - 1) + moves[n - 1].gain
  }

  /** The scan finds the last of the best prefixes, the empty one included. */
  lemma {:induction false} ScanFindsLastBest(moves: seq<Move>, n: nat)
    requires n <= |moves|
    ensures var b := Scan(Exact, moves, n);
            b.sum == PrefixGain(moves, n)
            && b.maxGain == PrefixGain(moves, b.keep)
            && (forall j :: 0 <= j <= n ==> PrefixGain(moves, j) <= b.maxGain)
            && (forall j :: b.keep < j <= n ==> PrefixGain(moves, j) < b.maxGain)
  {
    if n > 0 {
      ScanFindsLastBest(moves, n - 1);
    }
  }

  /** Each candidate outside `kept` has a strictly negative gain once `kept` has moved. */
  ghost predicate NoneWorthMoving(g: CallGraph, insecure: set<FunctionId>, candidates: seq<FunctionId>,
                                  kept: set<FunctionId>) {
    forall c :: c in candidates && c !in kept ==> Gain(Exact, g, c, insecure - kept) < 0.0
  }

  /** If the move after a prefix has a negative gain, so has every candidate not in it. */
  lemma LeftBehind(g: CallGraph, insecure: set<FunctionId>, candidates: seq<FunctionId>, k: nat, c: FunctionId)
    requires Distinct(candidates) && Elements(candidates) <= insecure && k <= |candidates|
    requires k < |candidates| ==> Trace(Exact, g, insecure, candidates)[k].gain < 0.0
    requires c in candidates && c !in Functions(Trace(Exact, g, insecure, candidates)[..k])
    ensures Gain(Exact, g, c, insecure - Functions(Trace(Exact, g, insecure, candidates)[..k])) < 0.0
  {
    TracePrefix(Exact, g, insecure, candidates, k, |candidates|);
    CandidatesSplit(Exact, g, insecure, candidates, k);
    GainsAreRecomputed(g, insecure, candidates, k);
    var st := After(Exact, g, insecure, candidates, k);
    assert c in Elements(candidates) && c in Elements(st.candidates);
    var i :| 0 <= i < |st.candidates| && st.candidates[i] == c;
    assert st.gains[i] == Gain(Exact, g, c, insecure - Functions(st.moves));
    TraceSelects(Exact, g, insecure, candidates, k);
  }

  /** No candidate left behind would be a neutral or better move: its gain against
      the final partition is strictly negative. */
  lemma LocallyOptimal(g: CallGraph, insecure: set<FunctionId>, candidates: seq<FunctionId>)
    requires Distinct(candidates) && Elements(candidates) <= insecure
    ensures NoneWorthMoving(g, insecure, candidates, Kept(Exact, g, insecure, candidates))
  {
    var k := KeepCount(Exact, g, insecure, candidates);
    forall c | c in candidates && c !in Kept(Exact, g, insecure, candidates)
      ensures Gain(Exact, g, c, insecure - Kept(Exact, g, insecure, candidates)) < 0.0
    {
      if k < |candidates| {
        NextMoveIsNegative(g, insecure, candidates);
      }
      LeftBehind(g, insecure, candidates, k, c);
    }
  }

  lemma NextMoveIsNegative(g: CallGraph, insecure: set<FunctionId>, candidates: seq<FunctionId>)
    requires KeepCount(Exact, g, insecure, candidates) < |candidates|
    ensures Trace(Exact, g, insecure, candidates)[KeepCount(Exact, g, insecure, candidates)].gain < 0.0
  {
    var moves := Trace(Exact, g, insecure, candidates);
    var k := KeepCount(Exact, g, insecure, candidates);
    ScanFindsLastBest(moves, |moves|);
    assert PrefixGain(moves, k + 1) < PrefixGain(moves, k);
  }

  /** A pass over one candidate keeps it unless its gain is negative. */
  lemma SinglePass(m: Arithmetic, g: CallGraph, insecure: set<FunctionId>, c: FunctionId)
    ensures Kept(m, g, insecure, [c]) == if Gain(m, g, c, insecure) < 0.0 then {} else {c}
  {
    var moves, gain := Trace(m, g, insecure, [c]), Gain(m, g, c, insecure);
    TraceSelects(m, g, insecure, [c], 0);
    assert moves == [Move(c, gain)];
    assert Scan(m, moves, 0) == Best(0.0, 0.0, 0);
    assert Scan(m, moves, 1).keep == if gain < 0.0 then 0 else 1;
    assert moves[..0] == [] && moves[..1] == moves;
  }

  // ---------- Supermodularity ----------

  /** With non-negative weights a gain never decreases as others move. */
  lemma GainMonotone(g: CallGraph, f: FunctionId, fewer: set<FunctionId>, more: set<FunctionId>)
    requires NonNegativeWeights(g) && fewer <= more
    ensures Gain(Exact, g, f, fewer) >= Gain(Exact, g, f, more)
  {
    WeightMonotone(LinksOf(g, f), |LinksOf(g, f)|, fewer, more);
  }

  /** A sequence of moves, each neutral or better at the time it is made. */
  ghost predicate GoodChain(g: CallGraph, insecure: set<FunctionId>, candidates: seq<FunctionId>,
                            chain: seq<FunctionId>) {
    chain == [] ||
    (var n := |chain| - 1;
     && GoodChain(g, insecure, candidates, chain[..n])
     && chain[n] in candidates
     && Gain(Exact, g, chain[n], insecure - Elements(chain[..n])) >= 0.0)
  }

  lemma ElementsOfLast<T(!new)>(s: seq<T>, n: nat)
    requires n < |s| && n + 1 == |s|
    ensures Elements(s) == Elements(s[..n]) + {s[n]}
  {
  }

  /** A locally optimal set takes in whatever a chain of good moves could bring in. */
  lemma {:induction false} ChainIsInside(g: CallGraph, insecure: set<FunctionId>, candidates: seq<FunctionId>,
                                         kept: set<FunctionId>, chain: seq<FunctionId>)
    requires NonNegativeWeights(g)
    requires NoneWorthMoving(g, insecure, candidates, kept)
    requires GoodChain(g, insecure, candidates, chain)
    ensures Elements(chain) <= kept
  {
    if chain != [] {
      var n := |chain| - 1;
      ChainIsInside(g, insecure, candidates, kept, chain[..n]);
      ElementsOfLast(chain, n);
      if chain[n] !in kept {
        GainMonotone(g, chain[n], insecure - kept, insecure - Elements(chain[..n]));
      }
    }
  }

  lemma SingleMove(g: CallGraph, insecure: set<FunctionId>, candidates: seq<FunctionId>, c: FunctionId)
    requires c in candidates && Gain(Exact, g, c, insecure) >= 0.0
    ensures GoodChain(g, insecure, candidates, [c]) && c in Elements([c])
  {
    assert [c][..0] == [] && insecure - Elements<FunctionId>([]) == insecure;
    assert c in [c];
  }

  /** Whatever a chain of good moves could bring in is among the kept functions. */
  lemma ClosedUnderGoodMoves(g: CallGraph, insecure: set<FunctionId>, candidates: seq<FunctionId>,
                             chain: seq<FunctionId>)
    requires NonNegativeWeights(g)
    requires Distinct(candidates) && Elements(candidates) <= insecure
    requires GoodChain(g, insecure, candidates, chain)
    ensures Elements(chain) <= Kept(Exact, g, insecure, candidates)
  {
    LocallyOptimal(g, insecure, candidates);
    ChainIsInside(g, insecure, candidates, Kept(Exact, g, insecure, candidates), chain);
  }

  lemma GoodCandidatesAreMoved(g: CallGraph, insecure: set<FunctionId>, candidates: seq<FunctionId>, c: FunctionId)
    requires NonNegativeWeights(g)
    requires Distinct(candidates) && Elements(candidates) <= insecure
    requires c in candidates && Gain(Exact, g, c, insecure) >= 0.0
    ensures c in Kept(Exact, g, insecure, candidates)
  {
    SingleMove(g, insecure, candidates, c);
    ClosedUnderGoodMoves(g, insecure, candidates, [c]);
  }

  /** Later candidates are among the earlier ones, and none has lost gain. */
  ghost predicate NoGainDecreases(earlier: PassState, later: PassState) {
    && Elements(later.candidates) <= Elements(earlier.candidates)
    && forall a, b :: 0 <= a < |earlier.gains| && 0 <= b < |later.gains|
                      && a < |earlier.candidates| && b < |later.candidates|
                      && earlier.candidates[a] == later.candidates[b]
                      ==> earlier.gains[a] <= later.gains[b]
  }

  /** During the pass the gain of a candidate that stays never decreases. */
  lemma GainsNeverDecrease(g: CallGraph, insecure: set<FunctionId>, candidates: seq<FunctionId>, i: nat, j: nat)
    requires NonNegativeWeights(g)
    requires Distinct(candidates) && Elements(candidates) <= insecure
    requires i <= j <= |candidates|
    ensures NoGainDecreases(After(Exact, g, insecure, candidates, i), After(Exact, g, insecure, candidates, j))
  {
    GainsAreRecomputed(g, insecure, candidates, i);
    GainsAreRecomputed(g, insecure, candidates, j);
    CandidatesSplit(Exact, g, insecure, candidates, i);
    CandidatesSplit(Exact, g, insecure, candidates, j);
    TracePrefix(Exact, g, insecure, candidates, i, j);
    LaterGainsAreLarger(g, insecure, candidates, After(Exact, g, insecure, candidates, i),
                        After(Exact, g, insecure, candidates, j));
  }

  lemma LaterGainsAreLarger(g: CallGraph, insecure: set<FunctionId>, candidates: seq<FunctionId>,
                            earlier: PassState, later: PassState)
    requires NonNegativeWeights(g)
    requires Recomputed(g, insecure, earlier) && Recomputed(g, insecure, later)
    requires Split(candidates, earlier) && Split(candidates, later)
    requires |earlier.moves| <= |later.moves| && earlier.moves == later.moves[..|earlier.moves|]
    ensures NoGainDecreases(earlier, later)
  {
    assert Functions(earlier.moves) <= Functions(later.moves);
    forall b | 0 <= b < |later.candidates|
      ensures Gain(Exact, g, later.candidates[b], insecure - Functions(earlier.moves))
           <= Gain(Exact, g, later.candidates[b], insecure - Functions(later.moves))
    {
      GainMonotone(g, later.candidates[b], insecure - Functions(later.moves), insecure - Functions(earlier.moves));
    }
  }
}
