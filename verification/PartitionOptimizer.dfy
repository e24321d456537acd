/** The optimiser that runs a list of optimisations and applies them
    (lib/Optimization/PartitionOptimizer.cpp). */
module PartitionOptimizers {
  import opened Numbers
  import opened CallGraphs
  import opened KLSpec
  import opened Partitions
  import opened PartitionUtils
  import Opts = Optimizations
  import opened KLOptimizers
  import opened ILPModels
  import opened ILPOptimizations
  import opened PipelineSpec
  import opened PipelineEffects

  /** The optimisation objects, as the list keeps them. */
  datatype OptimizationTy =
    | FunctionsMoveTy(fm: Opts.FunctionsMoveToPartition)
    | GlobalsMoveTy(gm: Opts.GlobalsMoveToPartition)
    | DuplicatesTy(duplicated: set<FunctionId>)
    | KernighanLinTy(kl: KLOptimizer)
    | StaticAnalysisTy(sa: Opts.StaticAnalysis)
    | IlpTy(ilp: ILPOptimization)
  {
    function Objects(): set<object> {
      match this
      case FunctionsMoveTy(fm) => {fm}
      case GlobalsMoveTy(gm) => {gm}
      case IlpTy(ilp) => {ilp}
      case _ => {}
    }

    /** The object works on these partitions and has found what the record says. */
    ghost predicate Holds(secure: Partition, insecure: Partition, r: Record)
      reads Objects()
    {
      match this
      case FunctionsMoveTy(fm) =>
        && r.FunctionsMoved? && fm.partition == (if r.toSecure then secure else insecure)
        && fm.movedFunctions == r.functions
      case GlobalsMoveTy(gm) =>
        r.GlobalsMoved? && gm.partition == (if r.toSecure then secure else insecure) && gm.movedGlobals == r.globals
      case DuplicatesTy(duplicated) => r == DuplicatesFound(duplicated)
      case KernighanLinTy(_) => r == PassDone
      case StaticAnalysisTy(sa) => r == RelatedToTake && sa.partition == secure
      case IlpTy(ilp) =>
        && r.IlpMoved? && ilp.securePartition == secure && ilp.insecurePartition == insecure
        && ilp.movedFunctions == r.functions
    }
  }

  class PartitionOptimizer {
    const securePartition: Partition
    const insecurePartition: Partition
    const cfg: Config
    var optimizations: seq<OptimizationTy>

    constructor (securePartition: Partition, insecurePartition: Partition, cfg: Config)
      ensures this.securePartition == securePartition && this.insecurePartition == insecurePartition
      ensures this.cfg == cfg && optimizations == []
    {
      this.securePartition, this.insecurePartition, this.cfg := securePartition, insecurePartition, cfg;
      optimizations := [];
    }

    ghost function Current(): State
      reads securePartition, insecurePartition
    {
      State(securePartition.Value(), insecurePartition.Value())
    }

    /** Objects and records match one by one. */
    ghost predicate Matches(list: seq<OptimizationTy>, records: seq<Record>)
      reads set o, obj | o in list && obj in o.Objects() :: obj
    {
      && |list| == |records|
      && forall i :: 0 <= i < |records| ==> list[i].Holds(securePartition, insecurePartition, records[i])
    }

    lemma MatchesBoth(list: seq<OptimizationTy>, records: seq<Record>, found: seq<OptimizationTy>, more: seq<Record>)
      requires Matches(list, records) && Matches(found, more)
      ensures Matches(list + found, records + more)
    {
    }

    /** The list holds exactly these records. */
    ghost predicate Recorded(records: seq<Record>)
      reads this, set o, obj | o in optimizations && obj in o.Objects() :: obj
    {
      Matches(optimizations, records)
    }

    /** What the optimisations ask of their surroundings. */
    ghost predicate Ready(base: set<FunctionId>)
      reads securePartition, insecurePartition
    {
      && securePartition != insecurePartition
      && cfg.callgraph.Keys == cfg.info.functions
      && WellFormed(cfg.callgraph)
      && cfg.info.functions - cfg.info.declarations <= cfg.pdg.Keys
      && Running(cfg, base, Current())
    }

    /** The run phase goes through the states in the order of the list, one for each
        optimisation and one more; then the records are applied. */
    method Run(opts: seq<Optimization>, solve: Solver) returns (ghost states: seq<State>, ghost records: seq<Record>)
      requires optimizations == [] && Ready(securePartition.functions)
      requires DUPLICATE_FUNCTIONS in opts ==> opts[0] == FUNCTIONS_MOVE_TO
      modifies this, securePartition, insecurePartition
      ensures IsRun(cfg, opts, states) && states[0] == old(Current())
      ensures RunTrace(cfg, solve, opts, states[0], states[|opts|], records)
      ensures Agrees(Finish(ApplyAll(records, states[|opts|])))
      ensures Final(cfg.info.functions, old(securePartition.functions), Current())
      ensures forall f :: f in securePartition.functions <==>
                || f in states[|opts|].secure.functions
                || Decided(cfg, solve, opts, states, f)
                || (STATIC_ANALYSIS in opts && f in old(securePartition.related))
      ensures STATIC_ANALYSIS in opts ==> old(securePartition.related).Keys <= securePartition.functions
      ensures forall i, f ::
                0 <= i < |opts| && opts[i] == ILP && ChosenAt(cfg, solve, states[i].secure.functions, f) ==>
                f in securePartition.functions
      ensures securePartition.related == old(securePartition.related) - securePartition.functions
      ensures securePartition.globals ==
                if GLOBALS_MOVE_TO in opts then old(securePartition.globals) - old(insecurePartition.globals)
                else old(securePartition.globals)
      ensures insecurePartition.globals ==
                if GLOBALS_MOVE_TO in opts then old(insecurePartition.globals) - old(securePartition.globals)
                else old(insecurePartition.globals)
      ensures FUNCTIONS_MOVE_TO in opts ==>
                forall f :: MayFollow(cfg, old(securePartition.outInterface), old(securePartition.functions), f) ==>
                  f in securePartition.functions
      ensures KERNIGHAN_LIN in opts && LightAround(cfg, old(insecurePartition.functions)) ==>
                NothingToGain(cfg, states[|opts|].insecure.functions)
      ensures Trusted(solve) ==>
                forall f :: f in securePartition.functions - old(securePartition.functions)
                            && (f in cfg.info.declarations || (f in cfg.info.mains && FUNCTIONS_MOVE_TO !in opts)) ==>
                  STATIC_ANALYSIS in opts && f in old(securePartition.related)
      ensures securePartition.inInterface == InInterface(securePartition.functions, cfg.pdg)
      ensures insecurePartition.inInterface == InInterface(insecurePartition.functions, cfg.pdg)
      ensures SameCallRelation(cfg.info.functions, cfg.pdg) ==>
                && securePartition.outInterface == insecurePartition.inInterface
                && insecurePartition.outInterface == securePartition.inInterface
    {
      ghost var base := securePartition.functions;
      ghost var before := Current();
      records := RunPhase(opts, solve);
      ghost var mid := Current();
      states := StatesOfRun(cfg, solve, opts, before, mid, records);
      RunTraceStaysRunning(cfg, solve, base, opts, before, mid, records);
      Apply(records);
      PipelineIsFinal(cfg.info.functions, base, records, mid);
      RunAchieves(cfg, solve, opts, states, records);
      if SameCallRelation(cfg.info.functions, cfg.pdg) {
        MirroredInterfaces();
      }
    }

    /** Membership, levels and globals are those of s. */
    ghost predicate Agrees(s: State)
      reads securePartition, insecurePartition
    {
      && securePartition.functions == s.secure.functions && securePartition.related == s.secure.related
      && insecurePartition.functions == s.insecure.functions && insecurePartition.related == s.insecure.related
      && securePartition.globals == s.secure.globals && insecurePartition.globals == s.insecure.globals
    }

    method RunPhase(opts: seq<Optimization>, solve: Solver) returns (ghost records: seq<Record>)
      requires optimizations == [] && Ready(securePartition.functions)
      requires DUPLICATE_FUNCTIONS in opts ==> opts[0] == FUNCTIONS_MOVE_TO
      modifies this, securePartition, insecurePartition
      ensures RunTrace(cfg, solve, opts, old(Current()), Current(), records)
      ensures Recorded(records)
    {
      ghost var base := securePartition.functions;
      records := [];
      for i := 0 to |opts|
        invariant Ready(base) && Recorded(records)
        invariant RunTrace(cfg, solve, opts[..i], old(Current()), Current(), records)
        invariant i == 0 ==> optimizations == []
        invariant i > 0 && opts[0] == FUNCTIONS_MOVE_TO ==> MovesCameFirst()
      {
        ghost var before := Current();
        ghost var more := RunAndList(opts[i], solve, records);
        ghost var after := Current();
        RunStepStaysRunning(cfg, solve, base, records, opts[i], before, after, more);
        NextRunTrace(opts, i, solve, old(Current()), before, after, records, more);
        records := records + more;
      }
      assert opts[..|opts|] == opts;
    }

    lemma NextRunTrace(opts: seq<Optimization>, i: nat, solve: Solver, start: State, before: State, after: State,
                       records: seq<Record>, more: seq<Record>)
      requires i < |opts| && RunTrace(cfg, solve, opts[..i], start, before, records)
      requires RunStep(cfg, solve, records, opts[i], before, after, more)
      ensures RunTrace(cfg, solve, opts[..i + 1], start, after, records + more)
    {
      RunTraceExtends(cfg, solve, opts[..i], opts[i], start, before, after, records, more);
      assert opts[..i] + [opts[i]] == opts[..i + 1];
    }

    method RunAndList(opt: Optimization, solve: Solver, ghost records: seq<Record>) returns (ghost more: seq<Record>)
      requires Ready(securePartition.functions) && Recorded(records)
      requires opt == DUPLICATE_FUNCTIONS ==> MovesCameFirst()
      modifies this`optimizations, securePartition, insecurePartition
      ensures RunStep(cfg, solve, records, opt, old(Current()), Current(), more)
      ensures Recorded(records + more)
      ensures old(MovesCameFirst()) || (old(optimizations) == [] && opt == FUNCTIONS_MOVE_TO) ==> MovesCameFirst()
    {
      var found;
      found, more := RunOne(opt, solve, records);
      PushBack(found, records, more);
    }

    /** Appends to the list. */
    method PushBack(found: seq<OptimizationTy>, ghost records: seq<Record>, ghost more: seq<Record>)
      requires Recorded(records) && Matches(found, more)
      modifies this`optimizations
      ensures optimizations == old(optimizations) + found && Recorded(records + more)
    {
      MatchesBoth(optimizations, records, found, more);
      optimizations := optimizations + found;
    }

    /** The duplicates optimisation looks at the first two entries of the list. */
    predicate MovesCameFirst()
      reads this
    {
      |optimizations| >= 2 && optimizations[0].FunctionsMoveTy? && optimizations[1].FunctionsMoveTy?
    }

    ghost method MirroredInterfaces()
      requires securePartition.functions !! insecurePartition.functions
      requires SameCallRelation(securePartition.functions + insecurePartition.functions, cfg.pdg)
      requires securePartition.inInterface == InInterface(securePartition.functions, cfg.pdg)
      requires insecurePartition.inInterface == InInterface(insecurePartition.functions, cfg.pdg)
      requires forall f :: f in securePartition.outInterface <==> InOutInterface(securePartition.functions, cfg.pdg, f)
      requires forall f :: f in insecurePartition.outInterface <==>
                InOutInterface(insecurePartition.functions, cfg.pdg, f)
      ensures securePartition.outInterface == insecurePartition.inInterface
      ensures insecurePartition.outInterface == securePartition.inInterface
    {
      var p, q := securePartition.functions, insecurePartition.functions;
      assert p + q == q + p;
      forall f
        ensures f in securePartition.outInterface <==> f in insecurePartition.inInterface
        ensures f in insecurePartition.outInterface <==> f in securePartition.inInterface
      {
        InterfacesMirror(p, q, cfg.pdg, f);
        InterfacesMirror(q, p, cfg.pdg, f);
      }
    }

    /** Creates and runs the optimiser, or the two optimisers, of one kind. */
    method RunOne(opt: Optimization, solve: Solver, ghost records: seq<Record>)
      returns (found: seq<OptimizationTy>, ghost more: seq<Record>)
      requires Ready(securePartition.functions) && Recorded(records)
      requires opt == DUPLICATE_FUNCTIONS ==> MovesCameFirst()
      modifies securePartition, insecurePartition
      ensures RunStep(cfg, solve, records, opt, old(Current()), Current(), more)
      ensures Matches(found, more)
      ensures opt == FUNCTIONS_MOVE_TO ==> |found| == 2 && found[0].FunctionsMoveTy? && found[1].FunctionsMoveTy?
    {
      match opt
      case FUNCTIONS_MOVE_TO =>
        var fm := RunFunctionsMove(securePartition);
        var fm2 := RunFunctionsMove(insecurePartition);
        found := [FunctionsMoveTy(fm), FunctionsMoveTy(fm2)];
        more := [FunctionsMoved(true, fm.movedFunctions), FunctionsMoved(false, fm2.movedFunctions)];
      case GLOBALS_MOVE_TO =>
        var gm := RunGlobalsMove(securePartition, insecurePartition);
        var gm2 := RunGlobalsMove(insecurePartition, securePartition);
        found := [GlobalsMoveTy(gm), GlobalsMoveTy(gm2)];
        more := [GlobalsMoved(true, gm.movedGlobals), GlobalsMoved(false, gm2.movedGlobals)];
      case DUPLICATE_FUNCTIONS =>
        assert optimizations[0].Holds(securePartition, insecurePartition, records[0]);
        assert optimizations[1].Holds(securePartition, insecurePartition, records[1]);
        var duplicated := optimizations[0].fm.movedFunctions * optimizations[1].fm.movedFunctions;
        found, more := [DuplicatesTy(duplicated)], [DuplicatesFound(duplicated)];
      case KERNIGHAN_LIN =>
        var kl := RunPass();
        found, more := [KernighanLinTy(kl)], [PassDone];
      case STATIC_ANALYSIS =>
        var sa := new Opts.StaticAnalysis(securePartition);
        found, more := [StaticAnalysisTy(sa)], [RelatedToTake];
      case ILP =>
        var ilp := RunIlp(solve);
        found, more := [IlpTy(ilp)], [IlpMoved(ilp.movedFunctions)];
    }

    method RunFunctionsMove(partition: Partition) returns (fm: Opts.FunctionsMoveToPartition)
      requires partition.outInterface - cfg.info.declarations <= cfg.pdg.Keys
      ensures fresh(fm) && fm.partition == partition
      ensures fm.movedFunctions == Opts.MoveTargets(partition.Value(), cfg.info.declarations, cfg.pdg)
    {
      fm := new Opts.FunctionsMoveToPartition(partition, cfg.pdg, cfg.info.declarations);
      fm.Run();
    }

    method RunGlobalsMove(partition: Partition, complement: Partition) returns (gm: Opts.GlobalsMoveToPartition)
      ensures fresh(gm) && gm.partition == partition
      ensures gm.movedGlobals == partition.globals - complement.globals
    {
      gm := new Opts.GlobalsMoveToPartition(partition, complement.globals);
      gm.Run();
    }

    method RunPass() returns (kl: KLOptimizer)
      requires Ready(securePartition.functions)
      modifies securePartition, insecurePartition
      ensures PassStep(cfg, old(Current()), Current())
    {
      kl := new KLOptimizer(cfg.callgraph, cfg.info, securePartition, insecurePartition);
      ghost var order := kl.Run();
      ghost var start := old(Current());
      assert Current() == Moved(start, Kept(Saturating, cfg.callgraph, start.insecure.functions, order));
    }

    method RunIlp(solve: Solver) returns (ilp: ILPOptimization)
      requires WellFormed(cfg.callgraph)
      ensures fresh(ilp) && ilp.securePartition == securePartition && ilp.insecurePartition == insecurePartition
      ensures ilp.movedFunctions == IlpResult(cfg, solve, securePartition.functions)
    {
      ilp := new ILPOptimization(cfg.callgraph, cfg.info, securePartition, insecurePartition);
      ilp.Run(solve);
    }

    method Apply(ghost records: seq<Record>)
      requires securePartition != insecurePartition && Recorded(records)
      modifies securePartition, insecurePartition
      ensures Agrees(Finish(ApplyAll(records, old(Current()))))
      ensures securePartition.inInterface == InInterface(securePartition.functions, cfg.pdg)
      ensures insecurePartition.inInterface == InInterface(insecurePartition.functions, cfg.pdg)
      ensures forall f :: f in securePartition.outInterface <==> InOutInterface(securePartition.functions, cfg.pdg, f)
      ensures forall f :: f in insecurePartition.outInterface <==>
                InOutInterface(insecurePartition.functions, cfg.pdg, f)
    {
      for i := 0 to |optimizations|
        invariant Recorded(records)
        invariant Current() == ApplyAll(records[..i], old(Current()))
      {
        ApplyOne(optimizations[i], records[i]);
        assert records[..i + 1][..i] == records[..i];
      }
      assert records[..|optimizations|] == records;
      Separate();
      UpdateInterfaces();
    }

    method ApplyOne(o: OptimizationTy, ghost r: Record)
      requires securePartition != insecurePartition && o.Holds(securePartition, insecurePartition, r)
      modifies securePartition, insecurePartition
      ensures Current() == ApplyRecord(r, old(Current()))
      ensures securePartition.functions == old(securePartition.functions)
                + (if (r.FunctionsMoved? && r.toSecure) || r.IlpMoved? then r.functions else {})
                + (if r.RelatedToTake? then old(securePartition.related).Keys else {})
      ensures insecurePartition.functions == old(insecurePartition.functions)
                + (if r.FunctionsMoved? && !r.toSecure then r.functions else {})
                - (if r.IlpMoved? then r.functions else {})
      ensures securePartition.related == old(securePartition.related)
                - (if r.IlpMoved? then r.functions else {})
                - (if r.RelatedToTake? then old(securePartition.related).Keys else {})
      ensures securePartition.globals ==
                if r.GlobalsMoved? && r.toSecure then r.globals else old(securePartition.globals)
      ensures insecurePartition.globals ==
                if r.GlobalsMoved? && !r.toSecure then r.globals else old(insecurePartition.globals)
      ensures unchanged(insecurePartition`related)
      ensures unchanged(securePartition`inInterface, securePartition`outInterface)
      ensures unchanged(insecurePartition`inInterface, insecurePartition`outInterface)
    {
      match o
      case FunctionsMoveTy(fm) => fm.Apply();
      case GlobalsMoveTy(gm) => gm.Apply();
      case StaticAnalysisTy(sa) => sa.Apply();
      case IlpTy(ilp) => ilp.Apply();
      case _ =>
    }

    /** The loop that makes the partitions complementary again. */
    method Separate()
      requires securePartition != insecurePartition
      modifies securePartition`related, insecurePartition`functions
      ensures Current() == Finish(old(Current()))
    {
      var remaining := securePartition.functions;
      while remaining != {}
        invariant remaining <= securePartition.functions
        invariant insecurePartition.functions
                == old(insecurePartition.functions) - (securePartition.functions - remaining)
        invariant securePartition.related == old(securePartition.related) - (securePartition.functions - remaining)
        decreases remaining
      {
        var f :| f in remaining;
        insecurePartition.RemoveFromPartition(f);
        securePartition.RemoveRelatedFunction(f);
        assert securePartition.functions - (remaining - {f}) == securePartition.functions - remaining + {f};
        remaining := remaining - {f};
      }
      assert securePartition.functions - remaining == securePartition.functions;
    }

    method UpdateInterfaces()
      requires securePartition != insecurePartition
      modifies securePartition`inInterface, securePartition`outInterface
      modifies insecurePartition`inInterface, insecurePartition`outInterface
      ensures securePartition.inInterface == InInterface(securePartition.functions, cfg.pdg)
      ensures insecurePartition.inInterface == InInterface(insecurePartition.functions, cfg.pdg)
      ensures forall f :: f in securePartition.outInterface <==> InOutInterface(securePartition.functions, cfg.pdg, f)
      ensures forall f :: f in insecurePartition.outInterface <==>
                InOutInterface(insecurePartition.functions, cfg.pdg, f)
    {
      var secureIn := ComputeInInterface(securePartition.functions, cfg.pdg);
      securePartition.inInterface := secureIn;
      var secureOut := ComputeOutInterface(securePartition.functions, cfg.pdg);
      securePartition.outInterface := secureOut;
      var insecureIn := ComputeInInterface(insecurePartition.functions, cfg.pdg);
      insecurePartition.inInterface := insecureIn;
      var insecureOut := ComputeOutInterface(insecurePartition.functions, cfg.pdg);
      insecurePartition.outInterface := insecureOut;
    }
  }
}
