/** The backward traversal from the return values of an annotated function as it runs
    (lib/Analysis/Partitioner.cpp, PartitionForReturnValue). */
module ReturnTraversal {
  import opened CallGraphs
  import opened Partitions
  import opened TraversalSpec
  import opened TraversalOrder

  class PartitionForReturnValue {
    const g: DepGraph
    const start: FunctionId
    const declarations: set<FunctionId>
    const partition: Partition
    var functionLevels: map<FunctionId, int>

    constructor (g: DepGraph, start: FunctionId, declarations: set<FunctionId>)
      ensures this.g == g && this.start == start && this.declarations == declarations
      ensures fresh(partition) && partition.Value() == PartitionValue({}, map[], {}, {}, {})
      ensures functionLevels == map[]
    {
      this.g, this.start, this.declarations := g, start, declarations;
      partition := new Partition();
      functionLevels := map[];
    }

    method UpdateFunctionLevel(currentF: Option<FunctionId>, newF: Option<FunctionId>)
      modifies this`functionLevels
      ensures newF.None? || currentF.None? || currentF.value !in old(functionLevels) ==>
                functionLevels == old(functionLevels)
      ensures newF.Some? && currentF.Some? && currentF.value in old(functionLevels) ==>
                var level := old(functionLevels)[currentF.value] + if newF == currentF then 0 else 1;
                functionLevels == old(functionLevels)[newF.value :=
                  if newF.value in old(functionLevels) && old(functionLevels)[newF.value] < level
                  then old(functionLevels)[newF.value] else level]
    {
      if newF.None? || currentF.None? || currentF.value !in functionLevels {
        return;
      }
      var level := if newF == currentF then functionLevels[currentF.value] else functionLevels[currentF.value] + 1;
      if newF.value !in functionLevels {
        functionLevels := functionLevels[newF.value := level];
      } else {
        functionLevels := functionLevels[newF.value :=
          if functionLevels[newF.value] < level then functionLevels[newF.value] else level];
      }
    }

    /** One step of the traversal keeps the levels sound, and passes them on. */
    method UpdateForStep(n: NodeId, s: NodeId)
      requires Step(g, n, s) && LevelsSound(g, start, functionLevels)
      modifies this`functionLevels
      ensures LevelsSound(g, start, functionLevels) && NoHigher(old(functionLevels), functionLevels)
      ensures PassedOn(g, old(functionLevels), functionLevels, n, s)
    {
      if LevelKnown(g, functionLevels, n) && g[s].parent.Some? {
        ghost var a, b := g[n].parent.value, g[s].parent.value;
        ghost var level := functionLevels[a];
        WalksAreNotNegative(g, start, a, level);
        if a != b {
          WalkExtends(g, start, a, b, level);
        }
      }
      UpdateFunctionLevel(g[n].parent, g[s].parent);
    }

    /** Records the level; without one nothing is recorded, where the program asserts. */
    method AddRelatedFunction(f: FunctionId) returns (known: bool)
      modifies partition`related
      ensures known == (f in functionLevels)
      ensures partition.related ==
              if !known || f in old(partition.related) then old(partition.related)
              else old(partition.related)[f := functionLevels[f]]
    {
      known := f in functionLevels;
      if known {
        partition.AddRelatedFunction(f, functionLevels[f]);
      }
    }

    /** Queues the sources of a node, in front. */
    method PushSources(n: NodeId, workingList: seq<NodeId>) returns (list: seq<NodeId>, ghost pushed: seq<NodeId>)
      requires Closed(g) && n in g && Expands(g[n]) && LevelsSound(g, start, functionLevels)
      modifies this`functionLevels
      ensures LevelsSound(g, start, functionLevels) && NoHigher(old(functionLevels), functionLevels)
      ensures list == pushed + workingList && forall s :: s in pushed <==> Step(g, n, s)
      ensures forall s :: Step(g, n, s) ==> PassedOn(g, old(functionLevels), functionLevels, n, s)
    {
      list, pushed := workingList, [];
      var sources := g[n].sources;
      for i := 0 to |sources|
        invariant LevelsSound(g, start, functionLevels) && NoHigher(old(functionLevels), functionLevels)
        invariant list == pushed + workingList
        invariant forall s :: s in pushed <==> s in sources[..i] && Step(g, n, s)
        invariant forall s :: s in sources[..i] && Step(g, n, s) ==>
                    PassedOn(g, old(functionLevels), functionLevels, n, s)
      {
        var s := sources[i];
        assert s in sources;
        assert sources[..i + 1] == sources[..i] + [s];
        if CanProcess(g[s]) {
          list, pushed := [s] + list, [s] + pushed;
          ghost var levels := functionLevels;
          UpdateForStep(n, s);
          StillPassedOn(g, old(functionLevels), levels, functionLevels, n);
        }
      }
      assert sources[..|sources|] == sources;
    }

    /** What happens to a node with a new value. */
    method Visit(n: NodeId, workingList: seq<NodeId>)
      returns (list: seq<NodeId>, known: bool, ghost pushed: seq<NodeId>)
      requires Closed(g) && n in g && HasLLVMValue(g[n]) && LevelsSound(g, start, functionLevels)
      modifies this`functionLevels, partition`related
      ensures LevelsSound(g, start, functionLevels) && NoHigher(old(functionLevels), functionLevels)
      ensures list == pushed + workingList && forall s :: s in pushed <==> Step(g, n, s)
      ensures forall s :: Step(g, n, s) ==> PassedOn(g, old(functionLevels), functionLevels, n, s)
      ensures g[n].kind.FunctionNode? ==> functionLevels == old(functionLevels)
      ensures var k := g[n].kind;
              if k.FunctionNode? && k.f != start && k.f !in declarations
              then known == (k.f in functionLevels)
                   && partition.related == if !known || k.f in old(partition.related) then old(partition.related)
                                           else old(partition.related)[k.f := functionLevels[k.f]]
              else known && partition.related == old(partition.related)
    {
      list, known, pushed := workingList, true, [];
      if g[n].kind.FunctionNode? {
        var f := g[n].kind.f;
        if f == start {
          return;
        }
        if f !in declarations {
          known := AddRelatedFunction(f);
        }
        return;
      }
      list, pushed := PushSources(n, workingList);
    }

    /** Levels are right, and related functions are right for what has been visited,
        provided no level was missing. */
    ghost predicate Tracks(visited: set<NodeId>, allKnown: bool)
      reads this, partition
    {
      && partition.functions == {start}
      && LevelsSound(g, start, functionLevels)
      && (forall f :: f in partition.related ==> IsRelated(g, visited, start, declarations, f))
      && (forall f :: f in partition.related ==> WalkOf(g, start, f, partition.related[f]))
      && (allKnown ==> forall f :: IsRelated(g, visited, start, declarations, f) ==> f in partition.related)
    }

    /** The level of every queued node's function is known. */
    ghost predicate Queued(list: seq<NodeId>)
      reads this`functionLevels
    {
      forall n :: n in list ==> LevelKnown(g, functionLevels, n)
    }

    method VisitAndTrack(n: NodeId, workingList: seq<NodeId>, ghost roots: seq<NodeId>, ghost visited: set<NodeId>,
                         ghost allKnown: bool)
      returns (list: seq<NodeId>, known: bool, ghost pushed: seq<NodeId>)
      requires Closed(g) && n in g && HasLLVMValue(g[n]) && Tracks(visited, allKnown)
      requires Parented(g, start, roots) ==> LevelKnown(g, functionLevels, n) && Queued(workingList)
      modifies this`functionLevels, partition`related
      ensures Tracks(visited + {n}, allKnown && known)
      ensures Parented(g, start, roots) ==> known && Queued(list)
      ensures list == pushed + workingList && forall s :: s in pushed <==> Step(g, n, s)
      ensures NoHigher(old(functionLevels), functionLevels)
      ensures forall s :: Step(g, n, s) ==> PassedOn(g, old(functionLevels), functionLevels, n, s)
      ensures Records(g, start, declarations, n, old(functionLevels), old(partition.related), partition.related)
    {
      list, known, pushed := Visit(n, workingList);
      RelatedAfter(g, visited, start, declarations, n);
    }

    /** What the loop keeps about levels and related functions. */
    ghost predicate Keeps(roots: seq<NodeId>, visited: set<NodeId>, list: seq<NodeId>, allKnown: bool)
      reads this, partition
    {
      && Tracks(visited, allKnown)
      && (Parented(g, start, roots) ==> allKnown && Queued(list))
    }

    /** A node with a value not met before, taken off the end of the list. */
    method TakeNew(n: NodeId, workingList: seq<NodeId>, ghost roots: seq<NodeId>, ghost visited: set<NodeId>,
                   ghost done: set<NodeId>, ghost processed: set<ValueId>, ghost layers: Layers, ghost allKnown: bool)
      returns (list: seq<NodeId>, known: bool, ghost next: Layers)
      requires WellFormed(g) && (forall r :: r in roots ==> r in g) && n in g && HasLLVMValue(g[n])
      requires Progress(g, start, roots, visited, done, processed, workingList + [n], layers, functionLevels,
                        partition.related)
      requires Keeps(roots, visited, workingList + [n], allKnown)
      modifies this`functionLevels, partition`related
      ensures Progress(g, start, roots, visited + {n}, done + {n}, processed + {g[n].value.value}, list, next,
                       functionLevels, partition.related)
      ensures Keeps(roots, visited + {n}, list, allKnown && known)
    {
      assert n in workingList + [n];
      ghost var levels, related := functionLevels, partition.related;
      ghost var pushed;
      list, known, pushed := VisitAndTrack(n, workingList, roots, visited, allKnown);
      next := ProgressVisits(g, start, roots, visited, done, processed, workingList, n, layers, levels, related, pushed,
                             functionLevels, partition.related, declarations);
    }

    /** The annotated function is at level 0 and the only member. */
    method Begin(roots: seq<NodeId>) returns (ghost layers: Layers)
      requires forall r :: r in roots ==> r in g
      requires partition.Value() == PartitionValue({}, map[], {}, {}, {}) && functionLevels == map[]
      modifies this`functionLevels, partition`functions
      ensures Progress(g, start, roots, {}, {}, {}, roots, layers, functionLevels, partition.related)
      ensures Keeps(roots, {}, roots, true)
    {
      functionLevels := functionLevels[start := 0];
      WalkStarts(g, start);
      partition.AddToPartition(start);
      layers := Layers([], roots, 0);
      ProgressStarts(g, start, roots, functionLevels);
    }

    lemma ShorterKeeps(roots: seq<NodeId>, visited: set<NodeId>, list: seq<NodeId>, n: NodeId, allKnown: bool)
      requires Keeps(roots, visited, list + [n], allKnown)
      ensures Keeps(roots, visited, list, allKnown)
    {
      if Parented(g, start, roots) {
        forall m | m in list
          ensures LevelKnown(g, functionLevels, m)
        {
          assert m in list + [n];
        }
      }
    }

    /** The values there are to process. */
    ghost function Values(): set<ValueId> {
      set n | n in g && g[n].value.Some? :: g[n].value.value
    }

    /** Takes the last node off the list. */
    method TakeLast(workingList: seq<NodeId>, processed: set<ValueId>, ghost roots: seq<NodeId>,
                    ghost visited: set<NodeId>, ghost done: set<NodeId>, ghost layers: Layers, allKnown: bool)
      returns (list: seq<NodeId>, processed': set<ValueId>, stillKnown: bool, ghost visited': set<NodeId>,
               ghost done': set<NodeId>, ghost next: Layers)
      requires workingList != [] && WellFormed(g) && (forall r :: r in roots ==> r in g)
      requires Progress(g, start, roots, visited, done, processed, workingList, layers, functionLevels,
                        partition.related)
      requires Keeps(roots, visited, workingList, allKnown)
      modifies this`functionLevels, partition`related
      ensures Progress(g, start, roots, visited', done', processed', list, next, functionLevels, partition.related)
      ensures Keeps(roots, visited', list, stillKnown)
      ensures processed < processed' <= processed + Values() || (processed' == processed && |list| < |workingList|)
    {
      var n, shorter := workingList[|workingList| - 1], workingList[..|workingList| - 1];
      assert workingList == shorter + [n];
      QueuedIsNode(g, start, roots, visited, done, processed, shorter, n, layers, functionLevels, partition.related);
      if !HasLLVMValue(g[n]) || g[n].value.value in processed {
        list, processed', stillKnown, visited', done' := shorter, processed, allKnown, visited, done + {n};
        next := ProgressDrops(g, start, roots, visited, done, processed, shorter, n, layers, functionLevels,
                              partition.related);
        ShorterKeeps(roots, visited, shorter, n, allKnown);
        return;
      }
      var known;
      list, known, next := TakeNew(n, shorter, roots, visited, done, processed, layers, allKnown);
      processed', stillKnown := processed + {g[n].value.value}, allKnown && known;
      visited', done' := visited + {n}, done + {n};
    }

    /** The loop over the working list. */
    method Exhaust(roots: seq<NodeId>, ghost start': Layers)
      returns (allKnown: bool, processed: set<ValueId>, ghost visited: set<NodeId>, ghost done: set<NodeId>,
               ghost layers: Layers)
      requires WellFormed(g) && (forall r :: r in roots ==> r in g)
      requires Progress(g, start, roots, {}, {}, {}, roots, start', functionLevels, partition.related)
      requires Keeps(roots, {}, roots, true)
      modifies this`functionLevels, partition`related
      ensures Progress(g, start, roots, visited, done, processed, [], layers, functionLevels, partition.related)
      ensures Keeps(roots, visited, [], allKnown)
    {
      var workingList := roots;
      allKnown, processed, visited, done, layers := true, {}, {}, {}, start';
      while workingList != []
        invariant Progress(g, start, roots, visited, done, processed, workingList, layers, functionLevels,
                           partition.related)
        invariant Keeps(roots, visited, workingList, allKnown)
        invariant processed <= Values()
        decreases Values() - processed, |workingList|
      {
        workingList, processed, allKnown, visited, done, layers :=
          TakeLast(workingList, processed, roots, visited, done, layers, allKnown);
      }
    }

    /** roots are the nodes of the return instructions of the annotated function; allKnown
        says that no level was missing, as the program asserts. */
    method Traverse(roots: seq<NodeId>) returns (allKnown: bool, ghost visited: set<NodeId>)
      requires WellFormed(g)
      requires forall r :: r in roots ==> r in g
      requires partition.Value() == PartitionValue({}, map[], {}, {}, {}) && functionLevels == map[]
      modifies this`functionLevels, partition`functions, partition`related
      ensures partition.functions == {start}
      ensures forall n :: n in visited ==> n in g && Reachable(g, roots, n) && HasLLVMValue(g[n])
      ensures DistinctValues(g) ==> forall n :: n in g && Reachable(g, roots, n) && HasLLVMValue(g[n]) ==> n in visited
      ensures Parented(g, start, roots) ==> allKnown
      ensures forall f :: f in partition.related ==> IsRelated(g, visited, start, declarations, f)
      ensures allKnown ==> forall f :: IsRelated(g, visited, start, declarations, f) ==> f in partition.related
      ensures forall f :: f in partition.related ==> WalkOf(g, start, f, partition.related[f])
      ensures Parented(g, start, roots) && DistinctValues(g) ==>
                forall f, p :: f in partition.related && Nearest(g, roots, f, p) ==>
                  partition.related[f] <= Crossings(g, p)
      ensures LevelsSound(g, start, functionLevels)
    {
      ghost var layers := Begin(roots);
      var processedValues;
      ghost var done;
      allKnown, processedValues, visited, done, layers := Exhaust(roots, layers);
      Finished(roots, visited, done, processedValues, layers, allKnown);
    }

    lemma Finished(roots: seq<NodeId>, visited: set<NodeId>, done: set<NodeId>, processed: set<ValueId>, layers: Layers,
                   allKnown: bool)
      requires Progress(g, start, roots, visited, done, processed, [], layers, functionLevels, partition.related)
      requires Keeps(roots, visited, [], allKnown)
      ensures forall n :: n in visited ==> n in g && Reachable(g, roots, n) && HasLLVMValue(g[n])
      ensures DistinctValues(g) ==> forall n :: n in g && Reachable(g, roots, n) && HasLLVMValue(g[n]) ==> n in visited
      ensures Parented(g, start, roots) && DistinctValues(g) ==>
                forall f, p :: f in partition.related && Nearest(g, roots, f, p) ==>
                  partition.related[f] <= Crossings(g, p)
    {
      SearchEnds(g, roots, visited, done, processed);
    }
  }
}
