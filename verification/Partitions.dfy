/** A partition of the module's functions (lib/Analysis/Partition.cpp). */
module Partitions {
  import opened CallGraphs

  datatype GlobalId = Global(id: nat)

  /** The fields of a partition as one value. */
  datatype PartitionValue = PartitionValue(
    functions: set<FunctionId>,
    related: map<FunctionId, int>,
    inInterface: set<FunctionId>,
    outInterface: set<FunctionId>,
    globals: set<GlobalId>)

  /** Pointwise union of two level maps, the smaller level winning. */
  function MinMerge(a: map<FunctionId, int>, b: map<FunctionId, int>): map<FunctionId, int> {
    map f | f in a.Keys + b.Keys ::
      if f !in b then a[f] else if f in a && a[f] <= b[f] then a[f] else b[f]
  }

  lemma SameMap<K(!new), V>(a: map<K, V>, b: map<K, V>)
    requires a.Keys == b.Keys
    requires forall k :: k in a ==> a[k] == b[k]
    ensures a == b
  {
  }

  function Join(a: PartitionValue, b: PartitionValue): PartitionValue {
    PartitionValue(a.functions + b.functions,
                   MinMerge(a.related, b.related),
                   a.inInterface + b.inInterface,
                   a.outInterface + b.outInterface,
                   a.globals + b.globals)
  }

  class Partition {
    var functions: set<FunctionId>
    var related: map<FunctionId, int>
    var inInterface: set<FunctionId>
    var outInterface: set<FunctionId>
    var globals: set<GlobalId>

    ghost function Value(): PartitionValue
      reads this
    {
      PartitionValue(functions, related, inInterface, outInterface, globals)
    }

    constructor ()
      ensures Value() == PartitionValue({}, map[], {}, {}, {})
    {
      functions, related, inInterface, outInterface, globals := {}, map[], {}, {}, {};
    }

    method AddToPartition(f: FunctionId)
      modifies this`functions
      ensures functions == old(functions) + {f}
    {
      functions := functions + {f};
    }

    method AddFunctions(fs: set<FunctionId>)
      modifies this`functions
      ensures functions == old(functions) + fs
    {
      functions := functions + fs;
    }

    method RemoveFromPartition(f: FunctionId)
      modifies this`functions
      ensures functions == old(functions) - {f}
    {
      functions := functions - {f};
    }

    /** Unlike the merge below, an existing level is kept. */
    method AddRelatedFunction(f: FunctionId, level: int)
      modifies this`related
      ensures related == if f in old(related) then old(related) else old(related)[f := level]
    {
      if f !in related {
        related := related[f := level];
      }
    }

    method RemoveRelatedFunction(f: FunctionId)
      modifies this`related
      ensures related == old(related) - {f}
    {
      related := related - {f};
    }

    method ClearRelatedFunctions()
      modifies this`related
      ensures related == map[]
    {
      related := map[];
    }

    method AddPartition(other: PartitionValue)
      modifies this
      ensures Value() == Join(old(Value()), other)
    {
      functions := functions + other.functions;
      inInterface := inInterface + other.inInterface;
      outInterface := outInterface + other.outInterface;
      globals := globals + other.globals;
      AddRelatedFunctions(other.related);
    }

    method AddRelatedFunctions(levels: map<FunctionId, int>)
      modifies this`related
      ensures related == MinMerge(old(related), levels)
    {
      var remaining := levels.Keys;
      ghost var start := related;
      while remaining != {}
        invariant remaining <= levels.Keys
        invariant related.Keys == start.Keys + (levels.Keys - remaining)
        invariant forall f :: f in start && (f in remaining || f !in levels) ==> related[f] == start[f]
        invariant forall f :: f in levels && f !in remaining ==>
                    related[f] == (if f in start && start[f] <= levels[f] then start[f] else levels[f])
        decreases remaining
      {
        var f :| f in remaining;
        AddOrLower(f, levels[f]);
        remaining := remaining - {f};
      }
      SameMap(related, MinMerge(start, levels));
    }

    method AddOrLower(f: FunctionId, level: int)
      modifies this`related
      ensures related ==
              if f in old(related) && old(related)[f] <= level then old(related) else old(related)[f := level]
    {
      if f !in related {
        related := related[f := level];
      } else {
        related := related[f := if related[f] <= level then related[f] else level];
      }
    }
  }
}
