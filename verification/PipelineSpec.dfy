/** What the optimiser's two phases do to a pair of partitions, as values: first
    every optimisation runs and leaves a record, then the records are applied in
    order and the partitions are made complementary again. */
module PipelineSpec {
  import opened Numbers
  import opened CallGraphs
  import opened KLSpec
  import opened KLOptimality
  import opened Partitions
  import opened PartitionUtils
  import opened Optimizations
  import opened KLOptimizers
  import opened ILPModels
  import opened ILPRounding
  import opened ILPOptimizations

  datatype Optimization =
    | FUNCTIONS_MOVE_TO
    | GLOBALS_MOVE_TO
    | DUPLICATE_FUNCTIONS
    | KERNIGHAN_LIN
    | STATIC_ANALYSIS
    | ILP

  /** What an optimisation has found when its run is over. */
  datatype Record =
    | FunctionsMoved(toSecure: bool, functions: set<FunctionId>)
    | GlobalsMoved(toSecure: bool, globals: set<GlobalId>)
    | DuplicatesFound(functions: set<FunctionId>)
    | PassDone
    | RelatedToTake
    | IlpMoved(functions: set<FunctionId>)

  datatype State = State(secure: PartitionValue, insecure: PartitionValue)

  datatype Config = Config(callgraph: CallGraph, info: ModuleInfo, pdg: Pdg)

  type Solver = Model -> Option<Assignment>

  // ---------- Running ----------

  /** A pass moves fs at once. */
  function Moved(s: State, fs: set<FunctionId>): State {
    State(s.secure.(functions := s.secure.functions + fs, related := s.secure.related - fs),
          s.insecure.(functions := s.insecure.functions - fs))
  }

  function IlpResult(cfg: Config, solve: Solver, secure: set<FunctionId>): set<FunctionId> {
    var solution := solve(ModelOf(cfg.callgraph, secure, Outside(cfg.info)));
    if solution.Some? then Ones(cfg.callgraph, solution.value) else {}
  }

  /** A pass over the movable insecure functions, in some order. */
  ghost predicate PassStep(cfg: Config, before: State, after: State) {
    exists order ::
      && Distinct(order) && Elements(order) == MovableIn(cfg.info, before.insecure.functions)
      && after == Moved(before, Kept(Saturating, cfg.callgraph, before.insecure.functions, order))
  }

  /** The duplicates optimisation compares the first two entries of the list. */
  predicate MovesLead(listed: seq<Record>) {
    |listed| >= 2 && listed[0].FunctionsMoved? && listed[1].FunctionsMoved?
  }

  /** One optimisation runs after those that left the listed records. */
  ghost predicate RunStep(cfg: Config, solve: Solver, listed: seq<Record>, opt: Optimization,
                          before: State, after: State, records: seq<Record>) {
    match opt
    case FUNCTIONS_MOVE_TO =>
      && after == before
      && records == [FunctionsMoved(true, MoveTargets(before.secure, cfg.info.declarations, cfg.pdg)),
                     FunctionsMoved(false, MoveTargets(before.insecure, cfg.info.declarations, cfg.pdg))]
    case GLOBALS_MOVE_TO =>
      && after == before
      && records == [GlobalsMoved(true, before.secure.globals - before.insecure.globals),
                     GlobalsMoved(false, before.insecure.globals - before.secure.globals)]
    case DUPLICATE_FUNCTIONS =>
      && after == before && MovesLead(listed)
      && records == [DuplicatesFound(listed[0].functions * listed[1].functions)]
    case KERNIGHAN_LIN => PassStep(cfg, before, after) && records == [PassDone]
    case STATIC_ANALYSIS => after == before && records == [RelatedToTake]
    case ILP => after == before && records == [IlpMoved(IlpResult(cfg, solve, before.secure.functions))]
  }

  /** The run phase: one optimisation after the other, the records in a row. */
  ghost predicate RunTrace(cfg: Config, solve: Solver, opts: seq<Optimization>, before: State, after: State,
                           records: seq<Record>)
    decreases |opts|, 1
  {
    if opts == [] then after == before && records == []
    else exists mid, early, late ::
        RunsLast(cfg, solve, opts, before, mid, after, early, late) && records == early + late
  }

  /** All optimisations but the last lead to mid, and the last one on from there. */
  ghost predicate RunsLast(cfg: Config, solve: Solver, opts: seq<Optimization>, before: State, mid: State,
                           after: State, early: seq<Record>, late: seq<Record>)
    decreases |opts|, 0
  {
    && opts != []
    && var n := |opts| - 1;
    && RunTrace(cfg, solve, opts[..n], before, mid, early)
    && RunStep(cfg, solve, early, opts[n], mid, after, late)
  }

  lemma RunTraceExtends(cfg: Config, solve: Solver, opts: seq<Optimization>, opt: Optimization,
                        before: State, mid: State, after: State, early: seq<Record>, late: seq<Record>)
    requires RunTrace(cfg, solve, opts, before, mid, early) && RunStep(cfg, solve, early, opt, mid, after, late)
    ensures RunTrace(cfg, solve, opts + [opt], before, after, early + late)
  {
    var all, n := opts + [opt], |opts|;
    assert all != [] && n == |all| - 1;
    assert all[..n] == opts && all[n] == opt;
    assert RunsLast(cfg, solve, all, before, mid, after, early, late);
  }

  // ---------- Applying ----------

  function ApplyRecord(r: Record, s: State): State {
    match r
    case FunctionsMoved(true, fs) => s.(secure := s.secure.(functions := s.secure.functions + fs))
    case FunctionsMoved(false, fs) => s.(insecure := s.insecure.(functions := s.insecure.functions + fs))
    case GlobalsMoved(true, gs) => s.(secure := s.secure.(globals := gs))
    case GlobalsMoved(false, gs) => s.(insecure := s.insecure.(globals := gs))
    case DuplicatesFound(_) => s
    case PassDone => s
    case RelatedToTake =>
      s.(secure := s.secure.(functions := s.secure.functions + s.secure.related.Keys, related := map[]))
    case IlpMoved(fs) => Moved(s, fs)
  }

  function ApplyAll(records: seq<Record>, s: State): State {
    if records == [] then s
    else
      var n := |records| - 1;
      ApplyRecord(records[n], ApplyAll(records[..n], s))
  }

  /** What is secure is neither insecure nor merely related. */
  function Finish(s: State): State {
    State(s.secure.(related := s.secure.related - s.secure.functions),
          s.insecure.(functions := s.insecure.functions - s.secure.functions))
  }

  // ---------- Invariants ----------

  /** Both sets together are the module, and what was secure stays secure. */
  ghost predicate Sound(all: set<FunctionId>, base: set<FunctionId>, s: State) {
    && s.secure.functions + s.insecure.functions == all
    && base <= s.secure.functions
    && s.secure.related.Keys <= all
  }

  /** A sound state while the optimisations run. */
  ghost predicate Running(cfg: Config, base: set<FunctionId>, s: State) {
    && Sound(cfg.info.functions, base, s)
    && s.secure.functions !! s.insecure.functions
    && s.secure.outInterface <= cfg.info.functions
    && s.insecure.outInterface <= base
  }

  ghost predicate RecordSound(all: set<FunctionId>, base: set<FunctionId>, r: Record) {
    match r
    case FunctionsMoved(true, fs) => fs <= all
    case FunctionsMoved(false, fs) => fs <= base
    case IlpMoved(fs) => fs <= all
    case _ => true
  }

  ghost predicate RecordsSound(all: set<FunctionId>, base: set<FunctionId>, records: seq<Record>) {
    forall i :: 0 <= i < |records| ==> RecordSound(all, base, records[i])
  }

  lemma MovedStaysRunning(cfg: Config, base: set<FunctionId>, s: State, fs: set<FunctionId>)
    requires Running(cfg, base, s) && fs <= s.insecure.functions
    ensures Running(cfg, base, Moved(s, fs))
  {
  }

  lemma PassStaysRunning(cfg: Config, base: set<FunctionId>, before: State, after: State)
    requires Running(cfg, base, before) && PassStep(cfg, before, after)
    ensures Running(cfg, base, after)
  {
    var start := before.insecure.functions;
    var order :| Distinct(order) && Elements(order) == MovableIn(cfg.info, start)
                 && after == Moved(before, Kept(Saturating, cfg.callgraph, start, order));
    KeptAreCandidates(Saturating, cfg.callgraph, start, order);
    MovedStaysRunning(cfg, base, before, Kept(Saturating, cfg.callgraph, start, order));
  }

  /** Running any optimisation keeps the state sound and leaves sound records. */
  lemma RunStepStaysRunning(cfg: Config, solve: Solver, base: set<FunctionId>, listed: seq<Record>, opt: Optimization,
                            before: State, after: State, records: seq<Record>)
    requires Running(cfg, base, before) && cfg.callgraph.Keys == cfg.info.functions
    requires RunStep(cfg, solve, listed, opt, before, after, records)
    ensures Running(cfg, base, after)
    ensures RecordsSound(cfg.info.functions, base, records)
  {
    if opt == KERNIGHAN_LIN {
      PassStaysRunning(cfg, base, before, after);
    }
  }

  /** So does running any list of optimisations. */
  lemma {:induction false} RunTraceStaysRunning(cfg: Config, solve: Solver, base: set<FunctionId>,
                                                opts: seq<Optimization>,
                                                before: State, after: State, records: seq<Record>)
    requires Running(cfg, base, before) && cfg.callgraph.Keys == cfg.info.functions
    requires RunTrace(cfg, solve, opts, before, after, records)
    ensures Running(cfg, base, after)
    ensures RecordsSound(cfg.info.functions, base, records)
    decreases |opts|
  {
    if opts != [] {
      var n := |opts| - 1;
      var mid, early, late :| RunsLast(cfg, solve, opts, before, mid, after, early, late) && records == early + late;
      RunTraceStaysRunning(cfg, solve, base, opts[..n], before, mid, early);
      RunStepStaysRunning(cfg, solve, base, early, opts[n], mid, after, late);
    }
  }

  lemma ApplyRecordStaysSound(all: set<FunctionId>, base: set<FunctionId>, r: Record, s: State)
    requires Sound(all, base, s) && RecordSound(all, base, r)
    ensures Sound(all, base, ApplyRecord(r, s))
  {
  }

  lemma {:induction false} ApplyAllStaysSound(all: set<FunctionId>, base: set<FunctionId>, records: seq<Record>,
                                              s: State)
    requires Sound(all, base, s) && RecordsSound(all, base, records)
    ensures Sound(all, base, ApplyAll(records, s))
  {
    if records != [] {
      var n := |records| - 1;
      ApplyAllStaysSound(all, base, records[..n], s);
      ApplyRecordStaysSound(all, base, records[n], ApplyAll(records[..n], s));
    }
  }

  /** The final partitions split the module, keep every originally secure function
      secure, and leave no secure function merely related. */
  ghost predicate Final(all: set<FunctionId>, base: set<FunctionId>, s: State) {
    && s.secure.functions !! s.insecure.functions
    && s.secure.functions + s.insecure.functions == all
    && base <= s.secure.functions
    && s.secure.related.Keys !! s.secure.functions
  }

  lemma PipelineIsFinal(all: set<FunctionId>, base: set<FunctionId>, records: seq<Record>, s: State)
    requires Sound(all, base, s) && RecordsSound(all, base, records)
    ensures Final(all, base, Finish(ApplyAll(records, s)))
  {
    ApplyAllStaysSound(all, base, records, s);
  }

  // ---------- The insecure-side function move ----------

  /** The records without the function moves that ran on the insecure partition. */
  function SecureSideOnly(records: seq<Record>): seq<Record> {
    if records == [] then []
    else
      var n := |records| - 1;
      var before := SecureSideOnly(records[..n]);
      if records[n].FunctionsMoved? && !records[n].toSecure then before else before + [records[n]]
  }

  /** Alike except for insecure members that are secure anyway. */
  ghost predicate Alike(s: State, t: State) {
    && s.secure == t.secure
    && s.insecure.functions - s.secure.functions == t.insecure.functions - t.secure.functions
    && s.insecure.globals == t.insecure.globals
    && s.insecure.(functions := {}) == t.insecure.(functions := {})
  }

  lemma ApplyRecordKeepsAlike(r: Record, s: State, t: State)
    requires Alike(s, t)
    ensures Alike(ApplyRecord(r, s), ApplyRecord(r, t))
  {
    var s', t' := ApplyRecord(r, s), ApplyRecord(r, t);
    forall f
      ensures f in s'.insecure.functions - s'.secure.functions <==> f in t'.insecure.functions - t'.secure.functions
    {
      assert f in s.insecure.functions - s.secure.functions <==> f in t.insecure.functions - t.secure.functions;
    }
  }

  lemma {:induction false} ApplyAllKeepsAlike(all: set<FunctionId>, base: set<FunctionId>, records: seq<Record>,
                                              s: State)
    requires Sound(all, base, s) && RecordsSound(all, base, records)
    ensures Alike(ApplyAll(records, s), ApplyAll(SecureSideOnly(records), s))
  {
    if records != [] {
      var n := |records| - 1;
      var r, before := records[n], SecureSideOnly(records[..n]);
      var s1, s2 := ApplyAll(records[..n], s), ApplyAll(before, s);
      ApplyAllKeepsAlike(all, base, records[..n], s);
      if r.FunctionsMoved? && !r.toSecure {
        ApplyAllStaysSound(all, base, records[..n], s);
        assert RecordSound(all, base, r);
        AddingSecureMembers(s1, s2, r.functions);
      } else {
        assert (before + [r])[..|before|] == before;
        ApplyRecordKeepsAlike(r, s1, s2);
      }
    }
  }

  lemma AddingSecureMembers(s: State, t: State, fs: set<FunctionId>)
    requires Alike(s, t) && fs <= s.secure.functions
    ensures Alike(ApplyRecord(FunctionsMoved(false, fs), s), t)
  {
    var s' := ApplyRecord(FunctionsMoved(false, fs), s);
    assert s'.insecure.functions - s'.secure.functions == s.insecure.functions - s.secure.functions;
  }

  /** Running the function move on the insecure partition too changes nothing in the end. */
  lemma InsecureMoveHasNoEffect(all: set<FunctionId>, base: set<FunctionId>, records: seq<Record>, s: State)
    requires Sound(all, base, s) && RecordsSound(all, base, records)
    ensures Finish(ApplyAll(records, s)) == Finish(ApplyAll(SecureSideOnly(records), s))
  {
    ApplyAllKeepsAlike(all, base, records, s);
  }
}
