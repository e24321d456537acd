/** The optimiser around the pass (lib/Optimization/KLOptimizer.cpp): which
    functions may move, and what one run does to the partitions. */
module KLOptimizers {
  import opened Numbers
  import opened CallGraphs
  import opened KLSpec
  import opened KLOptimality
  import opened KLSaturation
  import opened Partitions
  import opened KLOptimizationPasses

  /** What the module says about its functions. */
  datatype ModuleInfo = ModuleInfo(
    functions: set<FunctionId>,
    declarations: set<FunctionId>,
    intrinsics: set<FunctionId>,
    mains: set<FunctionId>)

  predicate Movable(info: ModuleInfo, f: FunctionId) {
    f !in info.declarations && f !in info.intrinsics && f !in info.mains
  }

  function MovableIn(info: ModuleInfo, fs: set<FunctionId>): set<FunctionId> {
    set f | f in fs && Movable(info, f)
  }

  /** The moves of a pass are the candidates, each once: those not kept are exactly
      the ones recorded after the kept prefix. */
  lemma RevertedAreTheRest(m: Arithmetic, g: CallGraph, insecure: set<FunctionId>, candidates: seq<FunctionId>, k: nat)
    requires Distinct(candidates) && k <= |candidates|
    ensures var moves := Trace(m, g, insecure, candidates);
            && Functions(moves) == Elements(candidates)
            && Functions(moves[k..]) == Elements(candidates) - Functions(moves[..k])
  {
    var moves := Trace(m, g, insecure, candidates);
    AllAreMoved(m, g, insecure, candidates);
    FunctionsCover(moves, k);
    forall f | f in Functions(moves[k..])
      ensures f !in Functions(moves[..k])
    {
      var i :| 0 <= i < |moves[k..]| && moves[k..][i].moved == f;
      LaterMoveIsNew(m, g, insecure, candidates, k, k + i);
    }
  }

  lemma AllAreMoved(m: Arithmetic, g: CallGraph, insecure: set<FunctionId>, candidates: seq<FunctionId>)
    requires Distinct(candidates)
    ensures Functions(Trace(m, g, insecure, candidates)) == Elements(candidates)
  {
    CandidatesSplit(m, g, insecure, candidates, |candidates|);
    var st := After(m, g, insecure, candidates, |candidates|);
    assert st.candidates == [];
    NothingLeft(Elements(candidates), Functions(st.moves));
  }

  lemma NothingLeft<T(!new)>(all: set<T>, taken: set<T>)
    requires taken <= all && all - taken == {}
    ensures taken == all
  {
    forall x | x in all
      ensures x in taken
    {
      assert x !in all - taken;
    }
  }

  lemma FunctionsCover(moves: seq<Move>, k: nat)
    requires k <= |moves|
    ensures Functions(moves) == Functions(moves[..k]) + Functions(moves[k..])
  {
    forall f
      ensures f in Functions(moves) <==> f in Functions(moves[..k]) || f in Functions(moves[k..])
    {
      if f in Functions(moves) {
        var i :| 0 <= i < |moves| && moves[i].moved == f;
        assert if i < k then moves[..k][i].moved == f else moves[k..][i - k].moved == f;
      }
    }
  }

  lemma LaterMoveIsNew(m: Arithmetic, g: CallGraph, insecure: set<FunctionId>, candidates: seq<FunctionId>, k: nat,
                       j: nat)
    requires Distinct(candidates) && k <= j < |candidates|
    ensures Trace(m, g, insecure, candidates)[j].moved !in Functions(Trace(m, g, insecure, candidates)[..k])
  {
    var moves := Trace(m, g, insecure, candidates);
    MoveIsNew(m, g, insecure, candidates, j);
    FunctionsCover(moves[..j], k);
    assert moves[..j][..k] == moves[..k];
  }

  lemma KeptAreCandidates(m: Arithmetic, g: CallGraph, insecure: set<FunctionId>, candidates: seq<FunctionId>)
    requires Distinct(candidates)
    ensures Kept(m, g, insecure, candidates) <= Elements(candidates)
  {
    var k := KeepCount(m, g, insecure, candidates);
    TracePrefix(m, g, insecure, candidates, k, |candidates|);
    CandidatesSplit(m, g, insecure, candidates, k);
  }

  /** Local optimality in terms of the partition that remains. */
  lemma NoneIsWorthMoving(g: CallGraph, info: ModuleInfo, insecure: set<FunctionId>, order: seq<FunctionId>)
    requires Distinct(order) && Elements(order) == MovableIn(info, insecure)
    requires Light(g, order)
    ensures var rest := insecure - Kept(Saturating, g, insecure, order);
            forall c :: c in rest && Movable(info, c) ==> Gain(Exact, g, c, rest) < 0.0
  {
    LightPassIsLocallyOptimal(g, insecure, order);
    forall c | c in insecure && Movable(info, c)
      ensures c in order
    {
      assert c in Elements(order);
    }
  }

  class KLOptimizer {
    const callgraph: CallGraph
    const info: ModuleInfo
    const securePartition: Partition
    const insecurePartition: Partition

    constructor (callgraph: CallGraph, info: ModuleInfo, securePartition: Partition, insecurePartition: Partition)
      ensures this.callgraph == callgraph && this.info == info
      ensures this.securePartition == securePartition && this.insecurePartition == insecurePartition
    {
      this.callgraph, this.info := callgraph, info;
      this.securePartition, this.insecurePartition := securePartition, insecurePartition;
    }

    /** One run moves exactly the kept functions of a pass over the movable insecure
        functions, taken in some order; if each load is below the sentinel, no movable
        function is left whose move would be neutral or better. */
    method Run() returns (ghost order: seq<FunctionId>)
      requires securePartition != insecurePartition
      requires securePartition.functions !! insecurePartition.functions
      requires MovableIn(info, insecurePartition.functions) <= callgraph.Keys
      modifies securePartition`functions, securePartition`related, insecurePartition`functions
      ensures Distinct(order) && Elements(order) == MovableIn(info, old(insecurePartition.functions))
      ensures var kept := Kept(Saturating, callgraph, old(insecurePartition.functions), order);
              && kept <= Elements(order)
              && securePartition.functions == old(securePartition.functions) + kept
              && insecurePartition.functions == old(insecurePartition.functions) - kept
              && securePartition.related == old(securePartition.related) - kept
      ensures forall f :: f in securePartition.functions - old(securePartition.functions) ==>
                f in old(insecurePartition.functions)
                && f !in info.declarations && f !in info.intrinsics && f !in info.mains
      ensures Light(callgraph, order) ==>
                forall c :: c in insecurePartition.functions && Movable(info, c) ==>
                  Gain(Exact, callgraph, c, insecurePartition.functions) < 0.0
    {
      var passCandidates := CollectPassCandidates();
      order := passCandidates;
      var pass := new KLOptimizationPass(callgraph, securePartition, insecurePartition);
      pass.SetCandidates(passCandidates);
      assert forall f :: f in passCandidates ==> f in Elements(passCandidates);
      pass.Run();
      ghost var start := old(insecurePartition.functions);
      RevertedAreTheRest(Saturating, callgraph, start, order, KeepCount(Saturating, callgraph, start, order));
      ghost var kept := Kept(Saturating, callgraph, start, order);
      KeptAreCandidates(Saturating, callgraph, start, order);
      KeepRest(old(securePartition.functions), start, Elements(order), kept);
      if Light(callgraph, order) {
        NoneIsWorthMoving(callgraph, info, start, order);
      }
    }

    /** Insertion order of the unordered set is arbitrary. */
    method CollectPassCandidates() returns (passCandidates: seq<FunctionId>)
      ensures Distinct(passCandidates)
      ensures Elements(passCandidates) == MovableIn(info, insecurePartition.functions)
      ensures forall f :: f in passCandidates <==>
                f in insecurePartition.functions && f !in info.declarations && f !in info.intrinsics && f !in info.mains
    {
      passCandidates := [];
      var remaining := insecurePartition.functions;
      while remaining != {}
        invariant remaining <= insecurePartition.functions
        invariant Distinct(passCandidates)
        invariant forall f :: f in passCandidates <==> f in insecurePartition.functions - remaining && Movable(info, f)
        decreases remaining
      {
        var f :| f in remaining;
        assert f !in passCandidates;
        if f !in info.declarations && f !in info.intrinsics && f !in info.mains {
          passCandidates := passCandidates + [f];
        }
        remaining := remaining - {f};
      }
    }
  }

  lemma KeepRest(secure: set<FunctionId>, insecure: set<FunctionId>, all: set<FunctionId>, kept: set<FunctionId>)
    requires secure !! insecure && kept <= all <= insecure
    ensures secure + all - (all - kept) == secure + kept
    ensures insecure - all + (all - kept) == insecure - kept
  {
  }
}
