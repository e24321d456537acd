/** What the two phases of the optimiser achieve: which functions and globals end up on
    which side, and why. */
module PipelineEffects {
  import opened Numbers
  import opened CallGraphs
  import opened KLSpec
  import opened KLSaturation
  import opened Partitions
  import opened PartitionUtils
  import opened Optimizations
  import opened KLOptimizers
  import opened ILPModels
  import opened ILPRounding
  import opened ILPOptimizations
  import opened PipelineSpec

  // ---------- Applying ----------

  /** The record makes f secure when it is applied. */
  predicate Takes(r: Record, f: FunctionId) {
    ((r.FunctionsMoved? && r.toSecure) || r.IlpMoved?) && f in r.functions
  }

  ghost predicate Taken(records: seq<Record>, f: FunctionId) {
    exists r :: r in records && Takes(r, f)
  }

  /** The same values at some of the keys. */
  predicate Within(part: map<FunctionId, int>, whole: map<FunctionId, int>) {
    forall f :: f in part ==> f in whole && part[f] == whole[f]
  }

  lemma LastRecord(records: seq<Record>)
    requires records != []
    ensures forall r :: r in records <==> r in records[..|records| - 1] || r == records[|records| - 1]
  {
    assert records == records[..|records| - 1] + [records[|records| - 1]];
  }

  /** What was related is still related, or secure. */
  ghost predicate RelatedOrSecure(s: State, t: State) {
    && Within(t.secure.related, s.secure.related)
    && forall f :: f in s.secure.related && f !in t.secure.functions ==> f in t.secure.related
  }

  lemma {:induction false} AppliedRelated(records: seq<Record>, s: State)
    ensures RelatedOrSecure(s, ApplyAll(records, s))
  {
    if records != [] {
      AppliedRelated(records[..|records| - 1], s);
    }
  }

  /** Applying makes secure what a record takes, what is related if the static analysis
      runs, and nothing else. */
  lemma {:induction false} AppliedSecure(records: seq<Record>, s: State, f: FunctionId)
    ensures f in ApplyAll(records, s).secure.functions <==>
            f in s.secure.functions || Taken(records, f) || (RelatedToTake in records && f in s.secure.related)
  {
    if records != [] {
      var n := |records| - 1;
      AppliedSecure(records[..n], s, f);
      AppliedRelated(records[..n], s);
      LastRecord(records);
      assert Taken(records, f) <==> Taken(records[..n], f) || Takes(records[n], f);
    }
  }

  /** Together with what is left related afterwards. */
  lemma FinishedSecure(records: seq<Record>, s: State, f: FunctionId)
    ensures var t := Finish(ApplyAll(records, s));
            && (f in t.secure.functions <==>
                f in s.secure.functions || Taken(records, f) || (RelatedToTake in records && f in s.secure.related))
            && (f in t.secure.related <==> f in s.secure.related && f !in t.secure.functions)
            && Within(t.secure.related, s.secure.related)
  {
    AppliedSecure(records, s, f);
    AppliedRelated(records, s);
  }

  predicate SetsGlobals(r: Record, toSecure: bool) {
    r.GlobalsMoved? && r.toSecure == toSecure
  }

  function GlobalsOf(s: State, ofSecure: bool): set<GlobalId> {
    if ofSecure then s.secure.globals else s.insecure.globals
  }

  /** The last globals record of a side decides its globals. */
  lemma {:induction false} LastGlobalsCount(records: seq<Record>, s: State, toSecure: bool, last: nat)
    requires last < |records| && SetsGlobals(records[last], toSecure)
    requires forall j :: last < j < |records| ==> !SetsGlobals(records[j], toSecure)
    ensures GlobalsOf(Finish(ApplyAll(records, s)), toSecure) == records[last].globals
  {
    if last < |records| - 1 {
      LastGlobalsCount(records[..|records| - 1], s, toSecure, last);
    }
  }

  /** Without one they stay. */
  lemma {:induction false} NoGlobalsStay(records: seq<Record>, s: State, toSecure: bool)
    requires forall j :: 0 <= j < |records| ==> !SetsGlobals(records[j], toSecure)
    ensures GlobalsOf(Finish(ApplyAll(records, s)), toSecure) == GlobalsOf(s, toSecure)
  {
    if records != [] {
      NoGlobalsStay(records[..|records| - 1], s, toSecure);
    }
  }

  lemma {:induction false} FindLastGlobals(records: seq<Record>, toSecure: bool) returns (last: nat)
    requires exists j :: 0 <= j < |records| && SetsGlobals(records[j], toSecure)
    ensures last < |records| && SetsGlobals(records[last], toSecure)
    ensures forall j :: last < j < |records| ==> !SetsGlobals(records[j], toSecure)
  {
    last := |records| - 1;
    if !SetsGlobals(records[last], toSecure) {
      last := FindLastGlobals(records[..last], toSecure);
    }
  }

  // ---------- Running ----------

  /** The states of a run: a pass leads from one to the next, anything else changes nothing. */
  ghost predicate IsRun(cfg: Config, opts: seq<Optimization>, states: seq<State>) {
    && |states| == |opts| + 1
    && forall i :: 0 <= i < |opts| ==> IsRunStep(cfg, opts[i], states[i], states[i + 1])
  }

  ghost predicate IsRunStep(cfg: Config, opt: Optimization, before: State, after: State) {
    if opt == KERNIGHAN_LIN then PassStep(cfg, before, after) else after == before
  }

  /** A defined function of the out-interface, called by the given functions only or from
      a loop of one of them. */
  ghost predicate MayFollow(cfg: Config, outInterface: set<FunctionId>, callers: set<FunctionId>, f: FunctionId) {
    && f in outInterface && f !in cfg.info.declarations && f in cfg.pdg
    && ((forall site :: site in cfg.pdg[f].callSites ==> site.caller in callers)
        || exists site :: site in cfg.pdg[f].callSites && site.caller in callers && site.inLoop)
  }

  /** The solver sets the variable of f to 1 when these functions are secure. */
  predicate ChosenAt(cfg: Config, solve: Solver, secure: set<FunctionId>, f: FunctionId) {
    var solution := solve(ModelOf(cfg.callgraph, secure, Outside(cfg.info)));
    solution.Some? && f in cfg.callgraph && solution.value(NodeVar(f)) == 1.0
  }

  /** The optimisation, run in this state, decides to make f secure later. */
  ghost predicate DecidesAt(cfg: Config, solve: Solver, opt: Optimization, s: State, f: FunctionId) {
    || (opt == FUNCTIONS_MOVE_TO && MayFollow(cfg, s.secure.outInterface, s.secure.functions, f))
    || (opt == ILP && ChosenAt(cfg, solve, s.secure.functions, f))
  }

  ghost predicate Decided(cfg: Config, solve: Solver, opts: seq<Optimization>, states: seq<State>, f: FunctionId)
    requires |states| > |opts|
  {
    exists i :: 0 <= i < |opts| && DecidesAt(cfg, solve, opts[i], states[i], f)
  }

  lemma StepTakes(cfg: Config, solve: Solver, listed: seq<Record>, opt: Optimization, before: State, after: State,
                  records: seq<Record>, f: FunctionId)
    requires RunStep(cfg, solve, listed, opt, before, after, records)
    ensures Taken(records, f) <==> DecidesAt(cfg, solve, opt, before, f)
  {
    MoveTargetsMean(before.secure, cfg.info.declarations, cfg.pdg, f);
    if records != [] {
      assert records[0] in records;
    }
  }

  lemma TakenByPart(early: seq<Record>, late: seq<Record>, f: FunctionId)
    ensures Taken(early + late, f) <==> Taken(early, f) || Taken(late, f)
  {
  }

  lemma DecidedLater(cfg: Config, solve: Solver, opts: seq<Optimization>, states: seq<State>, after: State,
                     f: FunctionId)
    requires opts != [] && |states| == |opts|
    ensures Decided(cfg, solve, opts, states + [after], f) <==>
            || Decided(cfg, solve, opts[..|opts| - 1], states, f)
            || DecidesAt(cfg, solve, opts[|opts| - 1], states[|opts| - 1], f)
  {
    if Decided(cfg, solve, opts[..|opts| - 1], states, f) {
      var i :| 0 <= i < |opts| - 1 && DecidesAt(cfg, solve, opts[..|opts| - 1][i], states[i], f);
      assert DecidesAt(cfg, solve, opts[i], (states + [after])[i], f);
    }
    if Decided(cfg, solve, opts, states + [after], f) {
      var i :| 0 <= i < |opts| && DecidesAt(cfg, solve, opts[i], (states + [after])[i], f);
      assert i < |opts| - 1 ==> DecidesAt(cfg, solve, opts[..|opts| - 1][i], states[i], f);
    }
  }

  /** The run phase goes through such states, in the order of the list, and its records
      take exactly what was decided on the way. */
  lemma {:induction false} StatesOfRun(cfg: Config, solve: Solver, opts: seq<Optimization>, before: State,
                                       after: State, records: seq<Record>) returns (states: seq<State>)
    requires RunTrace(cfg, solve, opts, before, after, records)
    ensures IsRun(cfg, opts, states) && states[0] == before && states[|opts|] == after
    ensures forall f :: Taken(records, f) <==> Decided(cfg, solve, opts, states, f)
    decreases |opts|
  {
    if opts == [] {
      states := [before];
    } else {
      var n := |opts| - 1;
      var mid, early, late :| RunsLast(cfg, solve, opts, before, mid, after, early, late) && records == early + late;
      var first := StatesOfRun(cfg, solve, opts[..n], before, mid, early);
      states := first + [after];
      forall f
        ensures Taken(records, f) <==> Decided(cfg, solve, opts, states, f)
      {
        StepTakes(cfg, solve, early, opts[n], mid, after, late, f);
        TakenByPart(early, late, f);
        DecidedLater(cfg, solve, opts, first, after, f);
      }
      assert IsRunStep(cfg, opts[n], mid, after);
      ExtendRun(cfg, opts, first, after);
    }
  }

  lemma ExtendRun(cfg: Config, opts: seq<Optimization>, states: seq<State>, after: State)
    requires opts != [] && IsRun(cfg, opts[..|opts| - 1], states)
    requires IsRunStep(cfg, opts[|opts| - 1], states[|opts| - 1], after)
    ensures IsRun(cfg, opts, states + [after])
  {
    var all := states + [after];
    forall i | 0 <= i < |opts|
      ensures IsRunStep(cfg, opts[i], all[i], all[i + 1])
    {
      assert i < |opts| - 1 ==> IsRunStep(cfg, opts[..|opts| - 1][i], states[i], states[i + 1]);
    }
  }

  /** Functions may have moved to the secure side, all of them movable; nothing else has
      changed. */
  ghost predicate Grown(cfg: Config, before: State, after: State) {
    && before.secure.functions <= after.secure.functions
    && after.insecure.functions <= before.insecure.functions
    && before.insecure.functions - after.secure.functions <= after.insecure.functions
    && (forall f :: f in after.secure.functions - before.secure.functions ==>
          && f in before.insecure.functions
          && f !in cfg.info.declarations && f !in cfg.info.intrinsics && f !in cfg.info.mains)
    && RelatedOrSecure(before, after)
    && after.secure == before.secure.(functions := after.secure.functions, related := after.secure.related)
    && after.insecure == before.insecure.(functions := after.insecure.functions)
  }

  lemma PassGrows(cfg: Config, before: State, after: State)
    requires PassStep(cfg, before, after)
    ensures Grown(cfg, before, after)
  {
    var order :| Distinct(order) && Elements(order) == MovableIn(cfg.info, before.insecure.functions)
                 && after == Moved(before, Kept(Saturating, cfg.callgraph, before.insecure.functions, order));
    KeptAreCandidates(Saturating, cfg.callgraph, before.insecure.functions, order);
  }

  lemma GrownTwice(cfg: Config, before: State, mid: State, after: State)
    requires Grown(cfg, before, mid) && Grown(cfg, mid, after)
    ensures Grown(cfg, before, after)
  {
  }

  /** The run phase only moves movable functions, and only in passes. */
  lemma {:induction false} RunGrows(cfg: Config, opts: seq<Optimization>, states: seq<State>, i: nat)
    requires IsRun(cfg, opts, states) && i <= |opts|
    ensures Grown(cfg, states[0], states[i])
    ensures KERNIGHAN_LIN !in opts ==> states[i] == states[0]
  {
    if i > 0 {
      RunGrows(cfg, opts, states, i - 1);
      assert IsRunStep(cfg, opts[i - 1], states[i - 1], states[i]);
      if opts[i - 1] == KERNIGHAN_LIN {
        PassGrows(cfg, states[i - 1], states[i]);
        GrownTwice(cfg, states[0], states[i - 1], states[i]);
      }
    }
  }

  /** Each movable insecure function bears less weight than the sentinel. */
  ghost predicate LightAround(cfg: Config, insecure: set<FunctionId>) {
    forall f :: f in insecure && f !in cfg.info.declarations && f !in cfg.info.intrinsics && f !in cfg.info.mains ==>
      Load(cfg.callgraph, f) < POS_INFINITY
  }

  /** No movable insecure function is worth moving. */
  ghost predicate NothingToGain(cfg: Config, insecure: set<FunctionId>) {
    forall f :: f in insecure && f !in cfg.info.declarations && f !in cfg.info.intrinsics && f !in cfg.info.mains ==>
      Gain(Exact, cfg.callgraph, f, insecure) < 0.0
  }

  lemma PassLeavesNothing(cfg: Config, before: State, after: State)
    requires PassStep(cfg, before, after) && LightAround(cfg, before.insecure.functions)
    ensures NothingToGain(cfg, after.insecure.functions)
  {
    var insecure := before.insecure.functions;
    var order :| Distinct(order) && Elements(order) == MovableIn(cfg.info, insecure)
                 && after == Moved(before, Kept(Saturating, cfg.callgraph, insecure, order));
    assert forall f :: f in order ==> f in Elements(order);
    NoneIsWorthMoving(cfg.callgraph, cfg.info, insecure, order);
  }

  /** From the first pass on there is nothing left to gain. */
  lemma {:induction false} NothingToGainAfterPass(cfg: Config, opts: seq<Optimization>, states: seq<State>, i: nat)
    requires IsRun(cfg, opts, states) && i <= |opts| && KERNIGHAN_LIN in opts[..i]
    requires LightAround(cfg, states[0].insecure.functions)
    ensures NothingToGain(cfg, states[i].insecure.functions)
  {
    assert IsRunStep(cfg, opts[i - 1], states[i - 1], states[i]);
    if opts[i - 1] == KERNIGHAN_LIN {
      RunGrows(cfg, opts, states, i - 1);
      PassLeavesNothing(cfg, states[i - 1], states[i]);
    } else {
      assert opts[..i] == opts[..i - 1] + [opts[i - 1]];
      NothingToGainAfterPass(cfg, opts, states, i - 1);
    }
  }

  // ---------- What else the records say ----------

  lemma {:induction false} RelatedRecord(cfg: Config, solve: Solver, opts: seq<Optimization>, before: State,
                                         after: State, records: seq<Record>)
    requires RunTrace(cfg, solve, opts, before, after, records)
    ensures RelatedToTake in records <==> STATIC_ANALYSIS in opts
    decreases |opts|
  {
    if opts != [] {
      var n := |opts| - 1;
      var mid, early, late :| RunsLast(cfg, solve, opts, before, mid, after, early, late) && records == early + late;
      RelatedRecord(cfg, solve, opts[..n], before, mid, early);
      assert opts == opts[..n] + [opts[n]];
    }
  }

  function OwnGlobals(s: State, ofSecure: bool): set<GlobalId> {
    if ofSecure then s.secure.globals - s.insecure.globals else s.insecure.globals - s.secure.globals
  }

  /** The globals records keep what the other side does not use. */
  ghost predicate GlobalsRecorded(records: seq<Record>, listed: bool, s: State, ofSecure: bool) {
    && (listed ==> GlobalsMoved(ofSecure, OwnGlobals(s, ofSecure)) in records)
    && forall r :: r in records && SetsGlobals(r, ofSecure) ==> listed && r.globals == OwnGlobals(s, ofSecure)
  }

  lemma {:induction false} GlobalsRecords(cfg: Config, solve: Solver, opts: seq<Optimization>, before: State,
                                          after: State, records: seq<Record>, ofSecure: bool)
    requires RunTrace(cfg, solve, opts, before, after, records)
    ensures GlobalsRecorded(records, GLOBALS_MOVE_TO in opts, before, ofSecure)
    decreases |opts|
  {
    if opts != [] {
      var n := |opts| - 1;
      var mid, early, late :| RunsLast(cfg, solve, opts, before, mid, after, early, late) && records == early + late;
      GlobalsRecords(cfg, solve, opts[..n], before, mid, early, ofSecure);
      var states := StatesOfRun(cfg, solve, opts[..n], before, mid, early);
      RunGrows(cfg, opts[..n], states, n);
      assert opts == opts[..n] + [opts[n]];
      StepGlobals(cfg, solve, early, opts[n], mid, after, late, ofSecure);
    }
  }

  lemma StepGlobals(cfg: Config, solve: Solver, listed: seq<Record>, opt: Optimization, before: State, after: State,
                    records: seq<Record>, ofSecure: bool)
    requires RunStep(cfg, solve, listed, opt, before, after, records)
    ensures GlobalsRecorded(records, opt == GLOBALS_MOVE_TO, before, ofSecure)
  {
    if opt == GLOBALS_MOVE_TO {
      assert records[if ofSecure then 0 else 1] in records;
    }
  }

  // ---------- Both phases ----------

  /** A run of these optimisations through these states ends with these records. */
  ghost predicate Ran(cfg: Config, solve: Solver, opts: seq<Optimization>, states: seq<State>, records: seq<Record>) {
    && IsRun(cfg, opts, states)
    && RunTrace(cfg, solve, opts, states[0], states[|opts|], records)
    && forall f :: Taken(records, f) <==> Decided(cfg, solve, opts, states, f)
  }

  /** What is secure in the end: what was at the end of the run phase, what was decided
      during it, and what was related if the static analysis was run. */
  lemma FinalSecure(cfg: Config, solve: Solver, opts: seq<Optimization>, states: seq<State>, records: seq<Record>,
                    f: FunctionId)
    requires Ran(cfg, solve, opts, states, records)
    ensures f in Finish(ApplyAll(records, states[|opts|])).secure.functions <==>
            || f in states[|opts|].secure.functions
            || Decided(cfg, solve, opts, states, f)
            || (STATIC_ANALYSIS in opts && f in states[0].secure.related)
  {
    FinishedSecure(records, states[|opts|], f);
    RunGrows(cfg, opts, states, |opts|);
    RelatedRecord(cfg, solve, opts, states[0], states[|opts|], records);
  }

  /** What stays related is what was, less what is secure in the end. */
  lemma FinalRelated(cfg: Config, solve: Solver, opts: seq<Optimization>, states: seq<State>, records: seq<Record>)
    requires Ran(cfg, solve, opts, states, records)
    ensures var t := Finish(ApplyAll(records, states[|opts|]));
            t.secure.related == states[0].secure.related - t.secure.functions
  {
    var t := Finish(ApplyAll(records, states[|opts|]));
    RunGrows(cfg, opts, states, |opts|);
    forall f
      ensures f in t.secure.related <==> f in states[0].secure.related && f !in t.secure.functions
      ensures f in t.secure.related ==> t.secure.related[f] == states[0].secure.related[f]
    {
      FinishedSecure(records, states[|opts|], f);
    }
  }

  /** A side keeps the globals that the other does not use, if that was asked for. */
  lemma FinalGlobals(cfg: Config, solve: Solver, opts: seq<Optimization>, states: seq<State>, records: seq<Record>,
                     ofSecure: bool)
    requires Ran(cfg, solve, opts, states, records)
    ensures GlobalsOf(Finish(ApplyAll(records, states[|opts|])), ofSecure)
         == if GLOBALS_MOVE_TO in opts then OwnGlobals(states[0], ofSecure) else GlobalsOf(states[0], ofSecure)
  {
    GlobalsRecords(cfg, solve, opts, states[0], states[|opts|], records, ofSecure);
    RunGrows(cfg, opts, states, |opts|);
    if GLOBALS_MOVE_TO in opts {
      var last := FindLastGlobals(records, ofSecure);
      LastGlobalsCount(records, states[|opts|], ofSecure, last);
    } else {
      NoGlobalsStay(records, states[|opts|], ofSecure);
    }
  }

  /** The function move takes at least what follows the functions that are secure at first. */
  lemma FollowersAreDecided(cfg: Config, solve: Solver, opts: seq<Optimization>, states: seq<State>, f: FunctionId)
    requires IsRun(cfg, opts, states) && FUNCTIONS_MOVE_TO in opts
    requires MayFollow(cfg, states[0].secure.outInterface, states[0].secure.functions, f)
    ensures Decided(cfg, solve, opts, states, f)
  {
    var i :| 0 <= i < |opts| && opts[i] == FUNCTIONS_MOVE_TO;
    RunGrows(cfg, opts, states, i);
    assert DecidesAt(cfg, solve, opts[i], states[i], f);
  }

  // ---------- Functions that stay outside ----------

  /** Whatever the solver returns meets the constraints. */
  ghost predicate Trusted(solve: Solver) {
    forall m :: solve(m).Some? ==> Feasible(m, solve(m).value)
  }

  lemma ChosenIsInside(cfg: Config, solve: Solver, at: set<FunctionId>, f: FunctionId)
    requires Trusted(solve) && ChosenAt(cfg, solve, at, f)
    ensures f in at || (f !in cfg.info.declarations && f !in cfg.info.mains)
  {
    var m := ModelOf(cfg.callgraph, at, Outside(cfg.info));
    PinsMean(cfg.callgraph, cfg.info, at, solve(m).value);
  }

  /** With such a solver a declaration becomes secure only if the static analysis takes it,
      and a main only if that or the function move does. */
  lemma OutsidersStay(cfg: Config, solve: Solver, opts: seq<Optimization>, states: seq<State>, records: seq<Record>,
                      f: FunctionId)
    requires Ran(cfg, solve, opts, states, records) && Trusted(solve)
    requires f in cfg.info.declarations || (f in cfg.info.mains && FUNCTIONS_MOVE_TO !in opts)
    requires f in Finish(ApplyAll(records, states[|opts|])).secure.functions && f !in states[0].secure.functions
    ensures STATIC_ANALYSIS in opts && f in states[0].secure.related
  {
    FinalSecure(cfg, solve, opts, states, records, f);
    RunGrows(cfg, opts, states, |opts|);
    if Decided(cfg, solve, opts, states, f) {
      var i :| 0 <= i < |opts| && DecidesAt(cfg, solve, opts[i], states[i], f);
      RunGrows(cfg, opts, states, i);
      assert opts[i] == ILP;
      ChosenIsInside(cfg, solve, states[i].secure.functions, f);
      assert false;
    }
  }

  // ---------- All of this about one run ----------

  ghost predicate Achieved(cfg: Config, solve: Solver, opts: seq<Optimization>, states: seq<State>, t: State)
    requires |states| == |opts| + 1
  {
    && (forall f :: f in t.secure.functions <==>
          || f in states[|opts|].secure.functions
          || Decided(cfg, solve, opts, states, f)
          || (STATIC_ANALYSIS in opts && f in states[0].secure.related))
    && t.secure.related == states[0].secure.related - t.secure.functions
    && t.secure.globals
       == (if GLOBALS_MOVE_TO in opts then OwnGlobals(states[0], true) else states[0].secure.globals)
    && t.insecure.globals
       == (if GLOBALS_MOVE_TO in opts then OwnGlobals(states[0], false) else states[0].insecure.globals)
    && (FUNCTIONS_MOVE_TO in opts ==>
          forall f :: MayFollow(cfg, states[0].secure.outInterface, states[0].secure.functions, f) ==>
            f in t.secure.functions)
    && (KERNIGHAN_LIN in opts && LightAround(cfg, states[0].insecure.functions) ==>
          NothingToGain(cfg, states[|opts|].insecure.functions))
    && (Trusted(solve) ==>
          forall f :: f in t.secure.functions - states[0].secure.functions
                      && (f in cfg.info.declarations || (f in cfg.info.mains && FUNCTIONS_MOVE_TO !in opts)) ==>
            STATIC_ANALYSIS in opts && f in states[0].secure.related)
  }

  lemma RunAchieves(cfg: Config, solve: Solver, opts: seq<Optimization>, states: seq<State>, records: seq<Record>)
    requires Ran(cfg, solve, opts, states, records)
    ensures Achieved(cfg, solve, opts, states, Finish(ApplyAll(records, states[|opts|])))
  {
    var t := Finish(ApplyAll(records, states[|opts|]));
    forall f
      ensures f in t.secure.functions <==>
              || f in states[|opts|].secure.functions
              || Decided(cfg, solve, opts, states, f)
              || (STATIC_ANALYSIS in opts && f in states[0].secure.related)
    {
      FinalSecure(cfg, solve, opts, states, records, f);
    }
    if FUNCTIONS_MOVE_TO in opts {
      forall f | MayFollow(cfg, states[0].secure.outInterface, states[0].secure.functions, f)
        ensures f in t.secure.functions
      {
        FollowersAreDecided(cfg, solve, opts, states, f);
      }
    }
    if Trusted(solve) {
      forall f | f in t.secure.functions - states[0].secure.functions
                 && (f in cfg.info.declarations || (f in cfg.info.mains && FUNCTIONS_MOVE_TO !in opts))
        ensures STATIC_ANALYSIS in opts && f in states[0].secure.related
      {
        OutsidersStay(cfg, solve, opts, states, records, f);
      }
    }
    if KERNIGHAN_LIN in opts && LightAround(cfg, states[0].insecure.functions) {
      assert opts[..|opts|] == opts;
      NothingToGainAfterPass(cfg, opts, states, |opts|);
    }
    FinalRelated(cfg, solve, opts, states, records);
    FinalGlobals(cfg, solve, opts, states, records, true);
    FinalGlobals(cfg, solve, opts, states, records, false);
  }
}
