/** The optimisations that only collect in `Run` and change a partition in `Apply`. */
module Optimizations {
  import opened CallGraphs
  import opened Partitions
  import opened PartitionUtils

  /** Call sites in a loop of a function of the partition. */
  predicate IsCalledInLoopFrom(f: FunctionPdg, callers: set<FunctionId>) {
    exists i :: 0 <= i < |f.callSites| && f.callSites[i].caller in callers && f.callSites[i].inLoop
  }

  /** Defined functions of the out-interface that are called from the partition only,
      or from one of its loops. */
  function MoveTargets(p: PartitionValue, declarations: set<FunctionId>, pdg: Pdg): set<FunctionId> {
    set f | f in p.outInterface && f !in declarations && f in pdg &&
            (!IsCalledFrom(pdg[f], p.functions, false) || IsCalledInLoopFrom(pdg[f], p.functions))
  }

  /** A defined function of the out-interface is moved when no call site of it is outside
      the partition, or one inside is in a loop. */
  lemma MoveTargetsMean(p: PartitionValue, declarations: set<FunctionId>, pdg: Pdg, f: FunctionId)
    ensures f in MoveTargets(p, declarations, pdg) <==>
            f in p.outInterface && f !in declarations && f in pdg
            && ((forall site :: site in pdg[f].callSites ==> site.caller in p.functions)
                || exists site :: site in pdg[f].callSites && site.caller in p.functions && site.inLoop)
  {
  }

  /** lib/Optimization/FunctionsMoveToPartitionOptimization.cpp */
  class FunctionsMoveToPartition {
    const partition: Partition
    const pdg: Pdg
    const declarations: set<FunctionId>
    var movedFunctions: set<FunctionId>

    constructor (partition: Partition, pdg: Pdg, declarations: set<FunctionId>)
      ensures this.partition == partition && this.pdg == pdg && this.declarations == declarations
      ensures movedFunctions == {}
    {
      this.partition, this.pdg, this.declarations := partition, pdg, declarations;
      movedFunctions := {};
    }

    method Run()
      requires partition.outInterface - declarations <= pdg.Keys
      modifies this`movedFunctions
      ensures movedFunctions == old(movedFunctions) + MoveTargets(partition.Value(), declarations, pdg)
    {
      var functions := ComputeFunctionsCalledFromPartitionOnly();
      movedFunctions := movedFunctions + functions;
      functions := ComputeFunctionsCalledFromPartitionLoops();
      movedFunctions := movedFunctions + functions;
    }

    method Apply()
      modifies partition`functions
      ensures partition.functions == old(partition.functions) + movedFunctions
    {
      partition.AddFunctions(movedFunctions);
    }

    method ComputeFunctionsCalledFromPartitionOnly() returns (functionsToMove: set<FunctionId>)
      requires partition.outInterface - declarations <= pdg.Keys
      ensures functionsToMove == set f | f in partition.outInterface - movedFunctions - declarations
                                         && !IsCalledFrom(pdg[f], partition.functions, false)
    {
      functionsToMove := {};
      var remaining := partition.outInterface;
      while remaining != {}
        invariant remaining <= partition.outInterface
        invariant functionsToMove == set f | f in partition.outInterface - remaining - movedFunctions - declarations
                                             && !IsCalledFrom(pdg[f], partition.functions, false)
        decreases remaining
      {
        var f :| f in remaining;
        if f !in movedFunctions && f !in declarations {
          var outside := HasCallSiteOutsidePartition(pdg[f]);
          if !outside {
            functionsToMove := functionsToMove + {f};
          }
        }
        remaining := remaining - {f};
      }
    }

    method ComputeFunctionsCalledFromPartitionLoops() returns (functionsToMove: set<FunctionId>)
      requires partition.outInterface - declarations <= pdg.Keys
      ensures functionsToMove == set f | f in partition.outInterface - movedFunctions - declarations
                                         && IsCalledInLoopFrom(pdg[f], partition.functions)
    {
      functionsToMove := {};
      var remaining := partition.outInterface;
      while remaining != {}
        invariant remaining <= partition.outInterface
        invariant functionsToMove == set f | f in partition.outInterface - remaining - movedFunctions - declarations
                                             && IsCalledInLoopFrom(pdg[f], partition.functions)
        decreases remaining
      {
        var f :| f in remaining;
        if f !in movedFunctions && f !in declarations {
          var inLoop := HasCallSiteInLoop(pdg[f]);
          if inLoop {
            functionsToMove := functionsToMove + {f};
          }
        }
        remaining := remaining - {f};
      }
    }

    method HasCallSiteOutsidePartition(f: FunctionPdg) returns (r: bool)
      ensures r == IsCalledFrom(f, partition.functions, false)
      ensures r <==> exists site :: site in f.callSites && site.caller !in partition.functions
    {
      for i := 0 to |f.callSites|
        invariant forall k :: 0 <= k < i ==> f.callSites[k].caller in partition.functions
      {
        if f.callSites[i].caller !in partition.functions {
          return true;
        }
      }
      return false;
    }

    method HasCallSiteInLoop(f: FunctionPdg) returns (r: bool)
      ensures r == IsCalledInLoopFrom(f, partition.functions)
      ensures r <==> exists site :: site in f.callSites && site.caller in partition.functions && site.inLoop
    {
      for i := 0 to |f.callSites|
        invariant forall k :: 0 <= k < i ==> f.callSites[k].caller !in partition.functions || !f.callSites[k].inLoop
      {
        if f.callSites[i].caller !in partition.functions {
          continue;
        }
        if f.callSites[i].inLoop {
          return true;
        }
      }
      return false;
    }
  }

  /** lib/Optimization/GlobalsMoveToPartitionOptimization.cpp */
  class GlobalsMoveToPartition {
    const partition: Partition
    const outsideUses: set<GlobalId>
    var movedGlobals: set<GlobalId>

    constructor (partition: Partition, outsideUses: set<GlobalId>)
      ensures this.partition == partition && this.outsideUses == outsideUses && movedGlobals == {}
    {
      this.partition, this.outsideUses := partition, outsideUses;
      movedGlobals := {};
    }

    method Run()
      modifies this`movedGlobals
      ensures movedGlobals == old(movedGlobals) + (partition.globals - outsideUses)
    {
      var remaining := partition.globals;
      while remaining != {}
        invariant remaining <= partition.globals
        invariant movedGlobals == old(movedGlobals) + (partition.globals - remaining - outsideUses)
        decreases remaining
      {
        var global :| global in remaining;
        if global !in outsideUses {
          movedGlobals := movedGlobals + {global};
        }
        remaining := remaining - {global};
      }
    }

    method Apply()
      modifies partition`globals
      ensures partition.globals == movedGlobals
    {
      partition.globals := movedGlobals;
    }
  }

  /** include/Optimization/StaticAnalysisOptimization.h */
  class StaticAnalysis {
    const partition: Partition

    constructor (partition: Partition)
      ensures this.partition == partition
    {
      this.partition := partition;
    }

    method Apply()
      modifies partition`functions, partition`related
      ensures partition.functions == old(partition.functions) + old(partition.related).Keys
      ensures partition.related == map[]
    {
      var remaining := partition.related.Keys;
      while remaining != {}
        invariant remaining <= partition.related.Keys && partition.related == old(partition.related)
        invariant partition.functions == old(partition.functions) + (partition.related.Keys - remaining)
        decreases remaining
      {
        var f :| f in remaining;
        partition.AddToPartition(f);
        remaining := remaining - {f};
      }
      partition.ClearRelatedFunctions();
    }
  }
}
