/** When the sticking numbers of a Kernighan-Lin pass behave like exact ones. */
module KLSaturation {
  import opened Numbers
  import opened Sums
  import opened CallGraphs
  import opened KLSpec
  import opened KLOptimality

  function AbsWeight(links: seq<Link>, n: nat): (w: real)
    requires n <= |links|
    ensures w >= 0.0
  {
    if n == 0 then 0.0 else AbsWeight(links, n - 1) + Abs(links[n - 1].weight)
  }

  /** The incident weights plus the node cost, all in absolute value. */
  function Load(g: CallGraph, f: FunctionId): (w: real)
    ensures w >= 0.0
  {
    AbsWeight(LinksOf(g, f), |LinksOf(g, f)|) + Abs(NodeCost(g, f))
  }

  ghost function LoadsOf(g: CallGraph): FunctionId -> real {
    f => Load(g, f)
  }

  ghost function TotalLoad(g: CallGraph, fs: set<FunctionId>): real {
    SetSum(fs, LoadsOf(g))
  }

  /** The candidates' loads together stay below the sentinel. */
  ghost predicate Moderate(g: CallGraph, candidates: seq<FunctionId>) {
    TotalLoad(g, Elements(candidates)) < POS_INFINITY
  }

  ghost predicate LoadsBelow(g: CallGraph, candidates: seq<FunctionId>, bound: real) {
    forall c :: c in candidates ==> Load(g, c) < bound
  }

  /** Each load alone is below the sentinel. */
  ghost predicate Light(g: CallGraph, candidates: seq<FunctionId>) {
    LoadsBelow(g, candidates, POS_INFINITY)
  }

  lemma SmallSum(a: real, b: real)
    requires Abs(a) < POS_INFINITY && Abs(b) < POS_INFINITY
    ensures !Sticks(a, b) && SafeSum(a, b) == a + b
  {
  }

  // ---------- Accumulated weights ----------

  /** No weight is lost on the way: no running sum is a sentinel with weight still to
      add, and no weight is a sentinel on top of a running sum. */
  predicate LosesNothing(links: seq<Link>, n: nat, s: set<FunctionId>, inside: bool)
    requires n <= |links|
  {
    n == 0 ||
    (&& LosesNothing(links, n - 1, s, inside)
     && ((links[n - 1].other in s) == inside ==>
           !Sticks(WeightTo(Exact, links, n - 1, s, inside), links[n - 1].weight)))
  }

  lemma {:induction false} LosslessWeight(links: seq<Link>, n: nat, s: set<FunctionId>, inside: bool)
    requires n <= |links| && LosesNothing(links, n, s, inside)
    ensures WeightTo(Saturating, links, n, s, inside) == WeightTo(Exact, links, n, s, inside)
  {
    if n > 0 {
      LosslessWeight(links, n - 1, s, inside);
    }
  }

  /** Non-negative weights: the program's sum is the exact one if and only if nothing
      is lost, and is too small otherwise. */
  lemma {:induction false} WeightIsExact(links: seq<Link>, n: nat, s: set<FunctionId>, inside: bool)
    requires n <= |links|
    requires forall i :: 0 <= i < n ==> links[i].weight >= 0.0
    ensures 0.0 <= WeightTo(Saturating, links, n, s, inside) <= WeightTo(Exact, links, n, s, inside)
    ensures WeightTo(Saturating, links, n, s, inside) == WeightTo(Exact, links, n, s, inside)
       <==> LosesNothing(links, n, s, inside)
  {
    if n > 0 {
      WeightIsExact(links, n - 1, s, inside);
    }
  }

  lemma {:induction false} SmallWeights(links: seq<Link>, n: nat, s: set<FunctionId>, inside: bool)
    requires n <= |links| && AbsWeight(links, n) < POS_INFINITY
    ensures LosesNothing(links, n, s, inside)
    ensures WeightTo(Saturating, links, n, s, inside) == WeightTo(Exact, links, n, s, inside)
    ensures Abs(WeightTo(Exact, links, n, s, inside)) <= AbsWeight(links, n)
  {
    if n > 0 {
      SmallWeights(links, n - 1, s, inside);
    }
  }

  lemma {:induction false} SidesShareWeight(links: seq<Link>, n: nat, s: set<FunctionId>)
    requires n <= |links|
    ensures Abs(WeightTo(Exact, links, n, s, true)) + Abs(WeightTo(Exact, links, n, s, false)) <= AbsWeight(links, n)
  {
    if n > 0 {
      SidesShareWeight(links, n - 1, s);
    }
  }

  // ---------- Gains ----------

  predicate GainLosesNothing(g: CallGraph, f: FunctionId, insecure: set<FunctionId>) {
    var links := LinksOf(g, f);
    var outside, inside := External(Exact, g, f, insecure), Internal(Exact, g, f, insecure);
    && LosesNothing(links, |links|, insecure, false)
    && LosesNothing(links, |links|, insecure, true)
    && !Sticks(outside, -inside)
    && !Sticks(outside - inside, NodeCost(g, f))
  }

  lemma LosslessGain(g: CallGraph, f: FunctionId, insecure: set<FunctionId>)
    requires GainLosesNothing(g, f, insecure)
    ensures Gain(Saturating, g, f, insecure) == Gain(Exact, g, f, insecure)
  {
    var links := LinksOf(g, f);
    LosslessWeight(links, |links|, insecure, false);
    LosslessWeight(links, |links|, insecure, true);
  }

  lemma GainBelowLoad(g: CallGraph, f: FunctionId, insecure: set<FunctionId>)
    ensures Abs(External(Exact, g, f, insecure)) + Abs(Internal(Exact, g, f, insecure)) + Abs(NodeCost(g, f))
         <= Load(g, f)
  {
    SidesShareWeight(LinksOf(g, f), |LinksOf(g, f)|, insecure);
  }

  lemma SmallGain(g: CallGraph, f: FunctionId, insecure: set<FunctionId>)
    requires Load(g, f) < POS_INFINITY
    ensures GainLosesNothing(g, f, insecure)
    ensures Gain(Saturating, g, f, insecure) == Gain(Exact, g, f, insecure)
    ensures Abs(Gain(Exact, g, f, insecure)) <= Load(g, f)
  {
    var links := LinksOf(g, f);
    SmallWeights(links, |links|, insecure, true);
    SmallWeights(links, |links|, insecure, false);
    GainBelowLoad(g, f, insecure);
    SmallSum(External(Exact, g, f, insecure), -Internal(Exact, g, f, insecure));
    SmallSum(External(Exact, g, f, insecure) - Internal(Exact, g, f, insecure), NodeCost(g, f));
    LosslessGain(g, f, insecure);
  }

  predicate UpdateLosesNothing(g: CallGraph, f: FunctionId, gain: real, moved: FunctionId) {
    var links := LinksOf(g, f);
    && LosesNothing(links, |links|, {moved}, true)
    && !Sticks(gain, 2.0 * EdgeCost(Exact, g, f, moved))
  }

  lemma LosslessUpdate(g: CallGraph, f: FunctionId, gain: real, moved: FunctionId)
    requires UpdateLosesNothing(g, f, gain, moved)
    ensures Plus(Saturating, gain, 2.0 * EdgeCost(Saturating, g, f, moved))
         == Plus(Exact, gain, 2.0 * EdgeCost(Exact, g, f, moved))
  {
    LosslessWeight(LinksOf(g, f), |LinksOf(g, f)|, {moved}, true);
  }

  /** The weights towards x, towards the rest of s, and out of s share what there is. */
  lemma {:induction false} PartsShareWeight(links: seq<Link>, n: nat, s: set<FunctionId>, x: FunctionId)
    requires n <= |links| && x in s
    ensures Abs(WeightTo(Exact, links, n, {x}, true)) + Abs(WeightTo(Exact, links, n, s - {x}, true))
            + Abs(WeightTo(Exact, links, n, s, false)) <= AbsWeight(links, n)
  {
    if n > 0 {
      PartsShareWeight(links, n - 1, s, x);
    }
  }

  /** Twice an edge cost can be a sentinel, but then the gain is not of its sign: the
      edge cost is part of what makes the gain small. */
  lemma SmallUpdate(g: CallGraph, f: FunctionId, insecure: set<FunctionId>, moved: FunctionId)
    requires moved in insecure && Load(g, f) < POS_INFINITY
    ensures UpdateLosesNothing(g, f, Gain(Exact, g, f, insecure), moved)
  {
    var links := LinksOf(g, f);
    SmallWeights(links, |links|, {moved}, true);
    PartsShareWeight(links, |links|, insecure, moved);
    WeightWithout(links, |links|, insecure, moved);
    var e, rest := EdgeCost(Exact, g, f, moved), Internal(Exact, g, f, insecure - {moved});
    HalfSentinel(e, rest, External(Exact, g, f, insecure), NodeCost(g, f));
  }

  lemma HalfSentinel(e: real, rest: real, outside: real, cost: real)
    requires Abs(e) + Abs(rest) + Abs(outside) + Abs(cost) < POS_INFINITY
    ensures !Sticks(outside - (e + rest) + cost, 2.0 * e)
  {
  }

  // ---------- Selections ----------

  /** No update of a remaining gain after this selection loses anything. */
  ghost predicate StepLosesNothing(g: CallGraph, st: PassState)
    requires 0 < |st.candidates| == |st.gains|
  {
    var k := FirstMax(st.gains, |st.gains|);
    forall i :: 0 <= i < |st.candidates| && i != k ==>
      UpdateLosesNothing(g, st.candidates[i], st.gains[i], st.candidates[k])
  }

  /** Neither the initial gains nor any later update of the exact pass would lose
      anything on the program's numbers. */
  ghost predicate SelectionsLoseNothing(g: CallGraph, insecure: set<FunctionId>, candidates: seq<FunctionId>) {
    && (forall c :: c in candidates ==> GainLosesNothing(g, c, insecure))
    && (forall j :: 0 <= j < |candidates| ==> StepLosesNothing(g, After(Exact, g, insecure, candidates, j)))
  }

  lemma LosslessStart(g: CallGraph, candidates: seq<FunctionId>, insecure: set<FunctionId>)
    requires forall c :: c in candidates ==> GainLosesNothing(g, c, insecure)
    ensures InitialGains(Saturating, g, candidates, insecure) == InitialGains(Exact, g, candidates, insecure)
  {
    forall i | 0 <= i < |candidates|
      ensures Gain(Saturating, g, candidates[i], insecure) == Gain(Exact, g, candidates[i], insecure)
    {
      LosslessGain(g, candidates[i], insecure);
    }
  }

  lemma LosslessUpdates(g: CallGraph, candidates: seq<FunctionId>, gains: seq<real>, moved: FunctionId)
    requires |candidates| == |gains|
    requires forall i :: 0 <= i < |gains| ==> UpdateLosesNothing(g, candidates[i], gains[i], moved)
    ensures UpdatedGains(Saturating, g, candidates, gains, moved) == UpdatedGains(Exact, g, candidates, gains, moved)
  {
    forall i | 0 <= i < |gains|
      ensures Plus(Saturating, gains[i], 2.0 * EdgeCost(Saturating, g, candidates[i], moved))
           == Plus(Exact, gains[i], 2.0 * EdgeCost(Exact, g, candidates[i], moved))
    {
      LosslessUpdate(g, candidates[i], gains[i], moved);
    }
  }

  lemma LosslessStep(g: CallGraph, st: PassState)
    requires 0 < |st.candidates| == |st.gains| && StepLosesNothing(g, st)
    ensures Step(Saturating, g, st) == Step(Exact, g, st)
  {
    var k := FirstMax(st.gains, |st.gains|);
    var candidates, gains := Erase(st.candidates, k), Erase(st.gains, k);
    forall i | 0 <= i < |gains|
      ensures UpdateLosesNothing(g, candidates[i], gains[i], st.candidates[k])
    {
      ErasedIndex(st.candidates, k, i);
      ErasedIndex(st.gains, k, i);
    }
    LosslessUpdates(g, candidates, gains, st.candidates[k]);
  }

  /** Then every selection happens in the same state on both kinds of number. */
  lemma {:induction false} SameStates(g: CallGraph, insecure: set<FunctionId>, candidates: seq<FunctionId>, j: nat)
    requires j <= |candidates| && SelectionsLoseNothing(g, insecure, candidates)
    ensures After(Saturating, g, insecure, candidates, j) == After(Exact, g, insecure, candidates, j)
  {
    if j == 0 {
      SameFirstState(g, insecure, candidates);
    } else {
      var i := j - 1;
      SameStates(g, insecure, candidates, i);
      SameNextState(g, insecure, candidates, i);
    }
  }

  lemma SameFirstState(g: CallGraph, insecure: set<FunctionId>, candidates: seq<FunctionId>)
    requires SelectionsLoseNothing(g, insecure, candidates)
    ensures After(Saturating, g, insecure, candidates, 0) == After(Exact, g, insecure, candidates, 0)
  {
    LosslessStart(g, candidates, insecure);
  }

  lemma SameNextState(g: CallGraph, insecure: set<FunctionId>, candidates: seq<FunctionId>, j: nat)
    requires j < |candidates| && SelectionsLoseNothing(g, insecure, candidates)
    requires After(Saturating, g, insecure, candidates, j) == After(Exact, g, insecure, candidates, j)
    ensures After(Saturating, g, insecure, candidates, j + 1) == After(Exact, g, insecure, candidates, j + 1)
  {
    LosslessStep(g, After(Exact, g, insecure, candidates, j));
  }

  lemma SmallStep(g: CallGraph, insecure: set<FunctionId>, st: PassState)
    requires 0 < |st.candidates| == |st.gains|
    requires Recomputed(g, insecure, st) && Elements(st.candidates) <= insecure - Functions(st.moves)
    requires Light(g, st.candidates)
    ensures StepLosesNothing(g, st)
  {
    var k := FirstMax(st.gains, |st.gains|);
    assert st.candidates[k] in Elements(st.candidates);
    forall i | 0 <= i < |st.candidates| && i != k
      ensures UpdateLosesNothing(g, st.candidates[i], st.gains[i], st.candidates[k])
    {
      SmallUpdate(g, st.candidates[i], insecure - Functions(st.moves), st.candidates[k]);
    }
  }

  /** Light candidates meet the condition, whatever their loads sum to. */
  lemma LightSelectionsLoseNothing(g: CallGraph, insecure: set<FunctionId>, candidates: seq<FunctionId>)
    requires Distinct(candidates) && Elements(candidates) <= insecure
    requires Light(g, candidates)
    ensures SelectionsLoseNothing(g, insecure, candidates)
  {
    forall c | c in candidates
      ensures GainLosesNothing(g, c, insecure)
    {
      SmallGain(g, c, insecure);
    }
    forall j | 0 <= j < |candidates|
      ensures StepLosesNothing(g, After(Exact, g, insecure, candidates, j))
    {
      GainsAreRecomputed(g, insecure, candidates, j);
      CandidatesSplit(Exact, g, insecure, candidates, j);
      RemainingAreCandidates(candidates, After(Exact, g, insecure, candidates, j));
      SmallStep(g, insecure, After(Exact, g, insecure, candidates, j));
    }
  }

  lemma MoveGainBounded(g: CallGraph, insecure: set<FunctionId>, candidates: seq<FunctionId>, n: nat)
    requires n < |candidates| && Distinct(candidates) && Elements(candidates) <= insecure
    requires Light(g, candidates)
    ensures var move := Trace(Exact, g, insecure, candidates)[n];
            Abs(move.gain) <= Load(g, move.moved) < POS_INFINITY
  {
    MoveIsNew(Exact, g, insecure, candidates, n);
    MoveHasItsGain(g, insecure, candidates, n);
    var moves := Trace(Exact, g, insecure, candidates);
    SmallGain(g, moves[n].moved, insecure - Functions(moves[..n]));
  }

  // ---------- The scan ----------

  /** No running gain sum is a sentinel that absorbs, or is absorbed by, the next gain. */
  predicate ScanLosesNothing(moves: seq<Move>, n: nat)
    requires n <= |moves|
  {
    n == 0 || (ScanLosesNothing(moves, n - 1) && !Sticks(PrefixGain(moves, n - 1), moves[n - 1].gain))
  }

  lemma {:induction false} LosslessScan(moves: seq<Move>, n: nat)
    requires n <= |moves| && ScanLosesNothing(moves, n)
    ensures Scan(Saturating, moves, n) == Scan(Exact, moves, n)
  {
    if n > 0 {
      LosslessScan(moves, n - 1);
      ScanFindsLastBest(moves, n - 1);
    }
  }

  /** Even a scan whose sums stick never ends before a neutral or better move, provided
      no single gain is the sentinel. */
  lemma {:induction false} ScanEndsBeforeALoss(moves: seq<Move>, n: nat)
    requires n <= |moves|
    requires forall i :: 0 <= i < n ==> moves[i].gain != POS_INFINITY
    ensures var b := Scan(Saturating, moves, n);
            && b.maxGain >= 0.0
            && (b.keep == n ==> b.sum == b.maxGain)
            && (b.keep < n ==> moves[b.keep].gain < 0.0)
  {
    if n > 0 {
      ScanEndsBeforeALoss(moves, n - 1);
    }
  }

  // ---------- The pass on the program's numbers ----------

  /** The exact pass as a whole would lose nothing. */
  ghost predicate PassLosesNothing(g: CallGraph, insecure: set<FunctionId>, candidates: seq<FunctionId>) {
    && SelectionsLoseNothing(g, insecure, candidates)
    && ScanLosesNothing(Trace(Exact, g, insecure, candidates), |candidates|)
  }

  /** Where nothing is lost, the pass on the program's numbers makes the same moves with
      the same gains and keeps the same prefix as on exact numbers. */
  lemma LosslessPassIsExact(g: CallGraph, insecure: set<FunctionId>, candidates: seq<FunctionId>)
    requires PassLosesNothing(g, insecure, candidates)
    ensures Trace(Saturating, g, insecure, candidates) == Trace(Exact, g, insecure, candidates)
    ensures KeepCount(Saturating, g, insecure, candidates) == KeepCount(Exact, g, insecure, candidates)
    ensures Kept(Saturating, g, insecure, candidates) == Kept(Exact, g, insecure, candidates)
  {
    SameStates(g, insecure, candidates, |candidates|);
    LosslessScan(Trace(Exact, g, insecure, candidates), |candidates|);
  }

  lemma LoadBelowTotal(g: CallGraph, fs: set<FunctionId>, f: FunctionId)
    requires f in fs
    ensures Load(g, f) <= TotalLoad(g, fs)
  {
    var load := LoadsOf(g);
    SetSumPick(fs, load, f);
    SetSumSubset(fs - {f}, fs - {f}, load);
  }

  lemma ModerateIsLight(g: CallGraph, candidates: seq<FunctionId>)
    requires Moderate(g, candidates)
    ensures Light(g, candidates)
  {
    forall c | c in candidates
      ensures Load(g, c) < POS_INFINITY
    {
      LoadBelowTotal(g, Elements(candidates), c);
    }
  }

  lemma {:induction false} GainSumBounded(g: CallGraph, moves: seq<Move>, n: nat)
    requires n <= |moves|
    requires forall i :: 0 <= i < n ==> Abs(moves[i].gain) <= Load(g, moves[i].moved)
    requires forall i :: 0 <= i < n ==> moves[i].moved !in Functions(moves[..i])
    ensures Abs(PrefixGain(moves, n)) <= TotalLoad(g, Functions(moves[..n]))
  {
    if n == 0 {
      SetSumZero(Functions(moves[..0]), LoadsOf(g));
    } else {
      GainSumBounded(g, moves, n - 1);
      NextPrefix(moves, n - 1);
      LoadOfOneMore(g, Functions(moves[..n - 1]), moves[n - 1].moved);
    }
  }

  lemma PrefixGainBounded(g: CallGraph, insecure: set<FunctionId>, candidates: seq<FunctionId>, n: nat)
    requires n <= |candidates| && Distinct(candidates) && Elements(candidates) <= insecure
    requires Light(g, candidates)
    ensures var moves := Trace(Exact, g, insecure, candidates);
            Abs(PrefixGain(moves, n)) <= TotalLoad(g, Functions(moves[..n]))
  {
    var moves := Trace(Exact, g, insecure, candidates);
    forall i | 0 <= i < n
      ensures Abs(moves[i].gain) <= Load(g, moves[i].moved)
      ensures moves[i].moved !in Functions(moves[..i])
    {
      MoveIsNew(Exact, g, insecure, candidates, i);
      MoveGainBounded(g, insecure, candidates, i);
    }
    GainSumBounded(g, moves, n);
  }

  lemma LoadOfOneMore(g: CallGraph, fs: set<FunctionId>, f: FunctionId)
    requires f !in fs
    ensures TotalLoad(g, fs + {f}) == TotalLoad(g, fs) + Load(g, f)
  {
    SetSumInsert(fs, LoadsOf(g), f);
  }

  lemma PrefixBelowTotal(g: CallGraph, insecure: set<FunctionId>, candidates: seq<FunctionId>, n: nat)
    requires n <= |candidates| && Distinct(candidates) && Elements(candidates) <= insecure
    requires Light(g, candidates)
    ensures Abs(PrefixGain(Trace(Exact, g, insecure, candidates), n)) <= TotalLoad(g, Elements(candidates))
  {
    var moves := Trace(Exact, g, insecure, candidates);
    PrefixGainBounded(g, insecure, candidates, n);
    TracePrefix(Exact, g, insecure, candidates, n, |candidates|);
    CandidatesSplit(Exact, g, insecure, candidates, n);
    SetSumSubset(Functions(moves[..n]), Elements(candidates), LoadsOf(g));
  }

  predicate AddsExactly(moves: seq<Move>, i: nat)
    requires i < |moves|
  {
    !Sticks(PrefixGain(moves, i), moves[i].gain)
  }

  lemma {:induction false} ExactAdditions(moves: seq<Move>, n: nat)
    requires n <= |moves|
    requires forall i :: 0 <= i < n ==> AddsExactly(moves, i)
    ensures ScanLosesNothing(moves, n)
  {
    if n > 0 {
      ExactAdditions(moves, n - 1);
      assert AddsExactly(moves, n - 1);
    }
  }

  lemma ModerateScanLosesNothing(g: CallGraph, insecure: set<FunctionId>, candidates: seq<FunctionId>)
    requires Distinct(candidates) && Elements(candidates) <= insecure
    requires Moderate(g, candidates)
    ensures ScanLosesNothing(Trace(Exact, g, insecure, candidates), |candidates|)
  {
    var moves := Trace(Exact, g, insecure, candidates);
    ModerateIsLight(g, candidates);
    forall i | 0 <= i < |candidates|
      ensures AddsExactly(moves, i)
    {
      PrefixBelowTotal(g, insecure, candidates, i);
      MoveGainBounded(g, insecure, candidates, i);
      SmallSum(PrefixGain(moves, i), moves[i].gain);
    }
    ExactAdditions(moves, |candidates|);
  }

  /** The bound theorem: candidates whose loads sum to less than the sentinel. */
  lemma ModeratePassIsExact(g: CallGraph, insecure: set<FunctionId>, candidates: seq<FunctionId>)
    requires Distinct(candidates) && Elements(candidates) <= insecure
    requires Moderate(g, candidates)
    ensures PassLosesNothing(g, insecure, candidates)
    ensures Trace(Saturating, g, insecure, candidates) == Trace(Exact, g, insecure, candidates)
    ensures KeepCount(Saturating, g, insecure, candidates) == KeepCount(Exact, g, insecure, candidates)
    ensures Kept(Saturating, g, insecure, candidates) == Kept(Exact, g, insecure, candidates)
  {
    ModerateIsLight(g, candidates);
    LightSelectionsLoseNothing(g, insecure, candidates);
    ModerateScanLosesNothing(g, insecure, candidates);
    LosslessPassIsExact(g, insecure, candidates);
  }

  /** Local optimality on the program's own numbers.  The sums of the scan may stick. */
  lemma LosslessPassIsLocallyOptimal(g: CallGraph, insecure: set<FunctionId>, candidates: seq<FunctionId>)
    requires Distinct(candidates) && Elements(candidates) <= insecure
    requires SelectionsLoseNothing(g, insecure, candidates)
    requires forall j :: 0 <= j < |candidates| ==> Trace(Exact, g, insecure, candidates)[j].gain != POS_INFINITY
    ensures NoneWorthMoving(g, insecure, candidates, Kept(Saturating, g, insecure, candidates))
  {
    var moves, k := Trace(Exact, g, insecure, candidates), KeepCount(Saturating, g, insecure, candidates);
    SameStates(g, insecure, candidates, |candidates|);
    ScanEndsBeforeALoss(moves, |moves|);
    forall c | c in candidates && c !in Kept(Saturating, g, insecure, candidates)
      ensures Gain(Exact, g, c, insecure - Kept(Saturating, g, insecure, candidates)) < 0.0
    {
      LeftBehind(g, insecure, candidates, k, c);
    }
  }

  /** So whenever each candidate's own load is below the sentinel. */
  lemma LightPassIsLocallyOptimal(g: CallGraph, insecure: set<FunctionId>, candidates: seq<FunctionId>)
    requires Distinct(candidates) && Elements(candidates) <= insecure
    requires Light(g, candidates)
    ensures NoneWorthMoving(g, insecure, candidates, Kept(Saturating, g, insecure, candidates))
  {
    LightSelectionsLoseNothing(g, insecure, candidates);
    forall j | 0 <= j < |candidates|
      ensures Trace(Exact, g, insecure, candidates)[j].gain != POS_INFINITY
    {
      MoveGainBounded(g, insecure, candidates, j);
    }
    LosslessPassIsLocallyOptimal(g, insecure, candidates);
  }

  /** A light pass takes in whatever a chain of good moves could bring in. */
  lemma LightPassClosedUnderGoodMoves(g: CallGraph, insecure: set<FunctionId>, candidates: seq<FunctionId>,
                                      chain: seq<FunctionId>)
    requires NonNegativeWeights(g) && Light(g, candidates)
    requires Distinct(candidates) && Elements(candidates) <= insecure
    requires GoodChain(g, insecure, candidates, chain)
    ensures Elements(chain) <= Kept(Saturating, g, insecure, candidates)
  {
    LightPassIsLocallyOptimal(g, insecure, candidates);
    ChainIsInside(g, insecure, candidates, Kept(Saturating, g, insecure, candidates), chain);
  }

  lemma LightPassMovesGoodCandidates(g: CallGraph, insecure: set<FunctionId>, candidates: seq<FunctionId>,
                                     c: FunctionId)
    requires NonNegativeWeights(g) && Light(g, candidates)
    requires Distinct(candidates) && Elements(candidates) <= insecure
    requires c in candidates && Gain(Exact, g, c, insecure) >= 0.0
    ensures c in Kept(Saturating, g, insecure, candidates)
  {
    SingleMove(g, insecure, candidates, c);
    LightPassClosedUnderGoodMoves(g, insecure, candidates, [c]);
  }

  lemma LosslessGainsNeverDecrease(g: CallGraph, insecure: set<FunctionId>, candidates: seq<FunctionId>, i: nat, j: nat)
    requires NonNegativeWeights(g) && SelectionsLoseNothing(g, insecure, candidates)
    requires Distinct(candidates) && Elements(candidates) <= insecure
    requires i <= j <= |candidates|
    ensures NoGainDecreases(After(Saturating, g, insecure, candidates, i),
                            After(Saturating, g, insecure, candidates, j))
  {
    SameStates(g, insecure, candidates, i);
    SameStates(g, insecure, candidates, j);
    GainsNeverDecrease(g, insecure, candidates, i, j);
  }
}
