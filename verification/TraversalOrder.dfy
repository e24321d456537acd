/** In which order the traversal takes nodes: those nearer to the roots first.  So the
    level recorded for a function is never above what the nearest path crosses. */
module TraversalOrder {
  import opened CallGraphs
  import opened TraversalSpec

  // ---------- Levels passed along a step ----------

  /** No known level has risen. */
  ghost predicate NoHigher(before: map<FunctionId, int>, after: map<FunctionId, int>) {
    forall f :: f in before ==> f in after && after[f] <= before[f]
  }

  function ParentOf(g: DepGraph, n: NodeId): Option<FunctionId> {
    if n in g then g[n].parent else None
  }

  /** One for a step from one function to another. */
  function Crossing(g: DepGraph, n: NodeId, s: NodeId): nat {
    if ParentOf(g, n) == ParentOf(g, s) then 0 else 1
  }

  /** The level of n's function, known before, has reached the function of s. */
  ghost predicate PassedOn(g: DepGraph, before: map<FunctionId, int>, after: map<FunctionId, int>,
                           n: NodeId, s: NodeId) {
    LevelKnown(g, before, n) && s in g && g[s].parent.Some? ==>
      LevelKnown(g, after, s) && after[g[s].parent.value] <= before[g[n].parent.value] + Crossing(g, n, s)
  }

  lemma StillPassedOn(g: DepGraph, before: map<FunctionId, int>, middle: map<FunctionId, int>,
                      after: map<FunctionId, int>, n: NodeId)
    requires NoHigher(before, middle) && NoHigher(middle, after)
    ensures NoHigher(before, after)
    ensures forall s :: PassedOn(g, before, middle, n, s) ==> PassedOn(g, before, after, n, s)
    ensures forall s :: PassedOn(g, middle, after, n, s) ==> PassedOn(g, before, after, n, s)
  {
  }

  // ---------- Shortest paths ----------

  ghost predicate RootPath(g: DepGraph, roots: seq<NodeId>, p: seq<NodeId>) {
    |p| > 0 && p[0] in roots && IsPath(g, p)
  }

  function End(p: seq<NodeId>): NodeId
    requires |p| > 0
  {
    p[|p| - 1]
  }

  /** Some path from a root to n has at most k nodes. */
  ghost predicate Within(g: DepGraph, roots: seq<NodeId>, n: NodeId, k: nat) {
    exists p :: RootPath(g, roots, p) && End(p) == n && |p| <= k
  }

  ghost predicate Shortest(g: DepGraph, roots: seq<NodeId>, p: seq<NodeId>) {
    RootPath(g, roots, p) && forall q :: RootPath(g, roots, q) && End(q) == End(p) ==> |p| <= |q|
  }

  ghost predicate EndsAt(g: DepGraph, roots: seq<NodeId>, f: FunctionId, p: seq<NodeId>) {
    RootPath(g, roots, p) && End(p) in g && g[End(p)].kind == FunctionNode(f)
  }

  /** No path from a root reaches a function node of f in fewer steps. */
  ghost predicate Nearest(g: DepGraph, roots: seq<NodeId>, f: FunctionId, p: seq<NodeId>) {
    EndsAt(g, roots, f, p) && forall q :: EndsAt(g, roots, f, q) ==> |p| <= |q|
  }

  /** How often the path goes from one function to another. */
  function Crossings(g: DepGraph, p: seq<NodeId>): nat {
    if |p| <= 1 then 0 else Crossings(g, p[..|p| - 1]) + Crossing(g, p[|p| - 2], p[|p| - 1])
  }

  lemma PrefixIsPath(g: DepGraph, roots: seq<NodeId>, p: seq<NodeId>)
    requires RootPath(g, roots, p) && |p| > 1
    ensures RootPath(g, roots, p[..|p| - 1]) && End(p[..|p| - 1]) == p[|p| - 2]
    ensures Step(g, p[|p| - 2], p[|p| - 1])
  {
    var q := p[..|p| - 1];
    forall i | 0 <= i < |q| - 1
      ensures Step(g, q[i], q[i + 1])
    {
      assert Step(g, p[i], p[i + 1]);
    }
    assert Step(g, p[|p| - 2], p[|p| - 2 + 1]);
  }

  lemma LongerPath(g: DepGraph, roots: seq<NodeId>, q: seq<NodeId>, s: NodeId)
    requires RootPath(g, roots, q) && Step(g, End(q), s)
    ensures RootPath(g, roots, q + [s]) && End(q + [s]) == s
  {
  }

  lemma PrefixIsShortest(g: DepGraph, roots: seq<NodeId>, p: seq<NodeId>)
    requires Shortest(g, roots, p) && |p| > 1
    ensures Shortest(g, roots, p[..|p| - 1])
  {
    PrefixIsPath(g, roots, p);
    var q := p[..|p| - 1];
    forall r | RootPath(g, roots, r) && End(r) == End(q)
      ensures |q| <= |r|
    {
      LongerPath(g, roots, r, End(p));
      assert |p| <= |r + [End(p)]|;
    }
  }

  lemma WithinOneMore(g: DepGraph, roots: seq<NodeId>, n: NodeId, s: NodeId, k: nat)
    requires Within(g, roots, n, k) && Step(g, n, s)
    ensures Within(g, roots, s, k + 1)
  {
    var p :| RootPath(g, roots, p) && End(p) == n && |p| <= k;
    LongerPath(g, roots, p, s);
    assert |p + [s]| <= k + 1;
  }

  lemma NearestIsShortest(g: DepGraph, roots: seq<NodeId>, f: FunctionId, p: seq<NodeId>)
    requires Nearest(g, roots, f, p)
    ensures Shortest(g, roots, p)
  {
    forall q | RootPath(g, roots, q) && End(q) == End(p)
      ensures |p| <= |q|
    {
      assert EndsAt(g, roots, f, q);
    }
  }

  // ---------- Layers of the working list ----------

  /** The list ends in the nodes queued at the current depth; those of the next are in
      front. */
  datatype Layers = Layers(later: seq<NodeId>, current: seq<NodeId>, depth: nat)

  /** All nodes nearer than the current depth are done, those at it are done or queued. */
  ghost predicate Layered(g: DepGraph, roots: seq<NodeId>, done: set<NodeId>, l: Layers) {
    && (forall n :: Within(g, roots, n, l.depth) ==> n in done)
    && (forall n :: Within(g, roots, n, l.depth + 1) ==> n in done || n in l.current)
    && (forall n :: n in l.current ==> Within(g, roots, n, l.depth + 1))
    && (forall n :: n in l.later ==> Within(g, roots, n, l.depth + 2))
  }

  lemma LayersStart(g: DepGraph, roots: seq<NodeId>)
    ensures Layered(g, roots, {}, Layers([], roots, 0))
  {
    forall r | r in roots
      ensures Within(g, roots, r, 1)
    {
      assert RootPath(g, roots, [r]) && End([r]) == r;
    }
  }

  lemma NextLayer(g: DepGraph, roots: seq<NodeId>, visited: set<NodeId>, done: set<NodeId>, l: Layers)
    requires DistinctValues(g) && Complete(g, roots, visited, done, l.later + l.current)
    requires Layered(g, roots, done, l) && l.current == []
    ensures Layered(g, roots, done, Layers([], l.later, l.depth + 1))
  {
    forall n | Within(g, roots, n, l.depth + 2)
      ensures n in done || n in l.later
    {
      var p :| RootPath(g, roots, p) && End(p) == n && |p| <= l.depth + 2;
      if |p| <= l.depth + 1 {
        assert Within(g, roots, n, l.depth + 1);
      } else {
        PrefixIsPath(g, roots, p);
        assert Within(g, roots, p[|p| - 2], l.depth + 1);
        assert p[|p| - 2] in visited;
      }
    }
  }

  lemma DropLayered(g: DepGraph, roots: seq<NodeId>, done: set<NodeId>, l: Layers)
    requires Layered(g, roots, done, l) && l.current != []
    ensures var k := |l.current| - 1;
            Layered(g, roots, done + {l.current[k]}, Layers(l.later, l.current[..k], l.depth))
  {
    var k := |l.current| - 1;
    LastTakenOff(l.current, l.current[..k]);
  }

  lemma VisitLayered(g: DepGraph, roots: seq<NodeId>, done: set<NodeId>, l: Layers, pushed: seq<NodeId>)
    requires Layered(g, roots, done, l) && l.current != []
    requires forall s :: s in pushed ==> Step(g, l.current[|l.current| - 1], s)
    ensures var k := |l.current| - 1;
            Layered(g, roots, done + {l.current[k]}, Layers(pushed + l.later, l.current[..k], l.depth))
  {
    var k := |l.current| - 1;
    DropLayered(g, roots, done, l);
    assert l.current[k] in l.current;
    forall s | s in pushed
      ensures Within(g, roots, s, l.depth + 2)
    {
      WithinOneMore(g, roots, l.current[k], s, l.depth + 1);
    }
  }

  // ---------- Levels ----------

  /** The level of the function at the end of p is known and not above what p crosses. */
  ghost predicate Bounded(g: DepGraph, levels: map<FunctionId, int>, p: seq<NodeId>)
    requires |p| > 0
  {
    LevelKnown(g, levels, End(p)) && levels[g[End(p)].parent.value] <= Crossings(g, p)
  }

  /** So it is for each shortest path whose last step has been taken. */
  ghost predicate LevelsNear(g: DepGraph, roots: seq<NodeId>, visited: set<NodeId>, levels: map<FunctionId, int>) {
    forall p :: Shortest(g, roots, p) && (|p| == 1 || p[|p| - 2] in visited) ==> Bounded(g, levels, p)
  }

  ghost predicate RelatedNear(g: DepGraph, roots: seq<NodeId>, related: map<FunctionId, int>) {
    forall f, p :: f in related && Nearest(g, roots, f, p) ==> related[f] <= Crossings(g, p)
  }

  /** Whatever is nearer than the current depth and has a value has been visited. */
  lemma NearerIsVisited(g: DepGraph, roots: seq<NodeId>, visited: set<NodeId>, done: set<NodeId>, list: seq<NodeId>,
                        l: Layers, p: seq<NodeId>)
    requires DistinctValues(g) && Complete(g, roots, visited, done, list) && Layered(g, roots, done, l)
    requires RootPath(g, roots, p) && 1 < |p| <= l.depth + 1
    ensures p[|p| - 2] in visited
  {
    PrefixIsPath(g, roots, p);
    assert Within(g, roots, p[|p| - 2], l.depth);
  }

  /** A new node at the current depth passes on the level of a shortest path to it. */
  lemma NewNodeIsBounded(g: DepGraph, roots: seq<NodeId>, visited: set<NodeId>, done: set<NodeId>, list: seq<NodeId>,
                         l: Layers, levels: map<FunctionId, int>, q: seq<NodeId>)
    requires DistinctValues(g) && Complete(g, roots, visited, done, list) && Layered(g, roots, done, l)
    requires LevelsNear(g, roots, visited, levels)
    requires Shortest(g, roots, q) && Within(g, roots, End(q), l.depth + 1)
    ensures Bounded(g, levels, q)
  {
    var p :| RootPath(g, roots, p) && End(p) == End(q) && |p| <= l.depth + 1;
    if |q| > 1 {
      NearerIsVisited(g, roots, visited, done, list, l, q);
    }
  }

  lemma VisitLevels(g: DepGraph, roots: seq<NodeId>, visited: set<NodeId>, done: set<NodeId>, list: seq<NodeId>,
                    l: Layers, levels: map<FunctionId, int>, n: NodeId, after: map<FunctionId, int>)
    requires DistinctValues(g) && Complete(g, roots, visited, done, list) && Layered(g, roots, done, l)
    requires LevelsNear(g, roots, visited, levels) && NoHigher(levels, after)
    requires Within(g, roots, n, l.depth + 1) && (forall s :: s in g ==> g[s].parent.Some?)
    requires forall s :: Step(g, n, s) ==> PassedOn(g, levels, after, n, s)
    ensures LevelsNear(g, roots, visited + {n}, after)
  {
    forall p | Shortest(g, roots, p) && (|p| == 1 || p[|p| - 2] in visited + {n})
      ensures Bounded(g, after, p)
    {
      if |p| == 1 || p[|p| - 2] in visited {
        assert Bounded(g, levels, p);
      } else {
        PrefixIsPath(g, roots, p);
        PrefixIsShortest(g, roots, p);
        NewNodeIsBounded(g, roots, visited, done, list, l, levels, p[..|p| - 1]);
        assert PassedOn(g, levels, after, n, End(p));
      }
    }
  }

  // ---------- Recorded levels ----------

  /** What visiting n does to the related functions. */
  ghost predicate Records(g: DepGraph, start: FunctionId, declarations: set<FunctionId>, n: NodeId,
                          levels: map<FunctionId, int>, before: map<FunctionId, int>, after: map<FunctionId, int>) {
    n in g &&
    var k := g[n].kind;
    if k.FunctionNode? && k.f != start && k.f !in declarations && k.f in levels && k.f !in before
    then after == before[k.f := levels[k.f]]
    else after == before
  }

  /** Nothing visited and defined is missing among the related functions. */
  ghost predicate AllRecorded(g: DepGraph, start: FunctionId, declarations: set<FunctionId>, visited: set<NodeId>,
                              related: map<FunctionId, int>) {
    forall f :: IsRelated(g, visited, start, declarations, f) ==> f in related
  }

  lemma NearerIsRecorded(g: DepGraph, start: FunctionId, declarations: set<FunctionId>, roots: seq<NodeId>,
                         visited: set<NodeId>, done: set<NodeId>, list: seq<NodeId>, l: Layers,
                         related: map<FunctionId, int>, f: FunctionId, p: seq<NodeId>)
    requires DistinctValues(g) && Complete(g, roots, visited, done, list) && Layered(g, roots, done, l)
    requires AllRecorded(g, start, declarations, visited, related)
    requires f != start && f !in declarations && EndsAt(g, roots, f, p) && |p| <= l.depth
    ensures f in related
  {
    assert Within(g, roots, End(p), l.depth);
    assert End(p) in visited && IsRelated(g, visited, start, declarations, f);
  }

  lemma NewRecordIsNear(g: DepGraph, start: FunctionId, declarations: set<FunctionId>, roots: seq<NodeId>,
                        visited: set<NodeId>, done: set<NodeId>, list: seq<NodeId>, l: Layers,
                        levels: map<FunctionId, int>, related: map<FunctionId, int>, n: NodeId, p: seq<NodeId>)
    requires DistinctValues(g) && Parented(g, start, roots) && (forall r :: r in roots ==> r in g)
    requires Complete(g, roots, visited, done, list) && Layered(g, roots, done, l)
    requires LevelsNear(g, roots, visited, levels) && AllRecorded(g, start, declarations, visited, related)
    requires n in g && g[n].kind.FunctionNode? && Within(g, roots, n, l.depth + 1)
    requires g[n].kind.f != start && g[n].kind.f !in declarations && g[n].kind.f !in related
    requires Nearest(g, roots, g[n].kind.f, p)
    ensures g[n].kind.f in levels && levels[g[n].kind.f] <= Crossings(g, p)
  {
    var f := g[n].kind.f;
    var q :| RootPath(g, roots, q) && End(q) == n && |q| <= l.depth + 1;
    assert EndsAt(g, roots, f, q);
    if |p| <= l.depth {
      NearerIsRecorded(g, start, declarations, roots, visited, done, list, l, related, f, p);
    }
    NearestIsShortest(g, roots, f, p);
    if |p| > 1 {
      NearerIsVisited(g, roots, visited, done, list, l, p);
    }
    assert Bounded(g, levels, p);
  }

  // ---------- All together ----------

  /** The invariant of the loop, on graphs with parents and distinct values. */
  ghost predicate Ranked(g: DepGraph, start: FunctionId, roots: seq<NodeId>, visited: set<NodeId>, done: set<NodeId>,
                         l: Layers, levels: map<FunctionId, int>, related: map<FunctionId, int>) {
    Parented(g, start, roots) && DistinctValues(g) ==>
      && Layered(g, roots, done, l)
      && LevelsNear(g, roots, visited, levels)
      && RelatedNear(g, roots, related)
  }

  lemma RankedStarts(g: DepGraph, start: FunctionId, roots: seq<NodeId>, levels: map<FunctionId, int>)
    requires start in levels && levels[start] == 0 && forall r :: r in roots ==> r in g
    ensures Ranked(g, start, roots, {}, {}, Layers([], roots, 0), levels, map[])
  {
    LayersStart(g, roots);
  }

  /** When the current layer is used up, the next one begins. */
  lemma TurnLayer(g: DepGraph, start: FunctionId, roots: seq<NodeId>, visited: set<NodeId>, done: set<NodeId>,
                  l: Layers, levels: map<FunctionId, int>, related: map<FunctionId, int>) returns (next: Layers)
    requires Complete(g, roots, visited, done, l.later + l.current) && l.later + l.current != []
    requires Ranked(g, start, roots, visited, done, l, levels, related)
    ensures Ranked(g, start, roots, visited, done, next, levels, related)
    ensures next.later + next.current == l.later + l.current && next.current != []
  {
    next := l;
    if l.current == [] {
      next := Layers([], l.later, l.depth + 1);
      if Parented(g, start, roots) && DistinctValues(g) {
        NextLayer(g, roots, visited, done, l);
      }
    }
  }

  lemma DropRanked(g: DepGraph, start: FunctionId, roots: seq<NodeId>, visited: set<NodeId>, done: set<NodeId>,
                   l: Layers, levels: map<FunctionId, int>, related: map<FunctionId, int>, n: NodeId)
    returns (next: Layers)
    requires Ranked(g, start, roots, visited, done, l, levels, related)
    requires l.current != [] && n == l.current[|l.current| - 1]
    ensures Ranked(g, start, roots, visited, done + {n}, next, levels, related)
    ensures next.later + next.current == (l.later + l.current)[..|l.later + l.current| - 1]
  {
    next := Layers(l.later, l.current[..|l.current| - 1], l.depth);
    if Parented(g, start, roots) && DistinctValues(g) {
      DropLayered(g, roots, done, l);
    }
  }

  lemma VisitRanked(g: DepGraph, start: FunctionId, roots: seq<NodeId>, visited: set<NodeId>, done: set<NodeId>,
                    l: Layers, levels: map<FunctionId, int>, related: map<FunctionId, int>, n: NodeId,
                    pushed: seq<NodeId>, levels': map<FunctionId, int>, related': map<FunctionId, int>,
                    declarations: set<FunctionId>)
    returns (next: Layers)
    requires Ranked(g, start, roots, visited, done, l, levels, related) && (forall r :: r in roots ==> r in g)
    requires Complete(g, roots, visited, done, l.later + l.current)
    requires l.current != [] && n == l.current[|l.current| - 1]
    requires forall s :: s in pushed <==> Step(g, n, s)
    requires NoHigher(levels, levels') && (forall s :: Step(g, n, s) ==> PassedOn(g, levels, levels', n, s))
    requires Records(g, start, declarations, n, levels, related, related')
    requires Parented(g, start, roots) ==> AllRecorded(g, start, declarations, visited, related)
    ensures Ranked(g, start, roots, visited + {n}, done + {n}, next, levels', related')
    ensures next.later + next.current == pushed + (l.later + l.current)[..|l.later + l.current| - 1]
  {
    next := Layers(pushed + l.later, l.current[..|l.current| - 1], l.depth);
    if Parented(g, start, roots) && DistinctValues(g) {
      var list := l.later + l.current;
      assert n in l.current;
      VisitLayered(g, roots, done, l, pushed);
      VisitLevels(g, roots, visited, done, list, l, levels, n, levels');
      VisitRelated(g, start, declarations, roots, visited, done, list, l, levels, related, n, related');
    }
  }

  lemma VisitRelated(g: DepGraph, start: FunctionId, declarations: set<FunctionId>, roots: seq<NodeId>,
                     visited: set<NodeId>, done: set<NodeId>, list: seq<NodeId>, l: Layers,
                     levels: map<FunctionId, int>, related: map<FunctionId, int>, n: NodeId,
                     related': map<FunctionId, int>)
    requires DistinctValues(g) && Parented(g, start, roots) && (forall r :: r in roots ==> r in g)
    requires Complete(g, roots, visited, done, list) && Layered(g, roots, done, l)
    requires LevelsNear(g, roots, visited, levels) && AllRecorded(g, start, declarations, visited, related)
    requires Within(g, roots, n, l.depth + 1) && RelatedNear(g, roots, related)
    requires Records(g, start, declarations, n, levels, related, related')
    ensures RelatedNear(g, roots, related')
  {
    forall f, p | f in related' && Nearest(g, roots, f, p)
      ensures related'[f] <= Crossings(g, p)
    {
      if f !in related {
        NewRecordIsNear(g, start, declarations, roots, visited, done, list, l, levels, related, n, p);
      }
    }
  }

  /** The search and the order of its list together. */
  ghost predicate Progress(g: DepGraph, start: FunctionId, roots: seq<NodeId>, visited: set<NodeId>, done: set<NodeId>,
                           processed: set<ValueId>, list: seq<NodeId>, l: Layers, levels: map<FunctionId, int>,
                           related: map<FunctionId, int>) {
    && Searching(g, roots, visited, done, processed, list)
    && list == l.later + l.current
    && Ranked(g, start, roots, visited, done, l, levels, related)
  }

  lemma ProgressStarts(g: DepGraph, start: FunctionId, roots: seq<NodeId>, levels: map<FunctionId, int>)
    requires start in levels && levels[start] == 0 && forall r :: r in roots ==> r in g
    ensures Progress(g, start, roots, {}, {}, {}, roots, Layers([], roots, 0), levels, map[])
  {
    SearchStarts(g, roots);
    RankedStarts(g, start, roots, levels);
  }

  /** A node without a value, or with one already met, is taken off the end of the list. */
  lemma ProgressDrops(g: DepGraph, start: FunctionId, roots: seq<NodeId>, visited: set<NodeId>, done: set<NodeId>,
                      processed: set<ValueId>, list: seq<NodeId>, n: NodeId, l: Layers, levels: map<FunctionId, int>,
                      related: map<FunctionId, int>) returns (next: Layers)
    requires Progress(g, start, roots, visited, done, processed, list + [n], l, levels, related)
    requires n in g && (HasLLVMValue(g[n]) ==> g[n].value.Some? && g[n].value.value in processed)
    ensures Progress(g, start, roots, visited, done + {n}, processed, list, next, levels, related)
  {
    var before := list + [n];
    assert n in before && before[..|before| - 1] == list;
    var turned := TurnLayer(g, start, roots, visited, done, l, levels, related);
    DropKeeps(g, roots, visited, done, processed, before, list, n);
    next := DropRanked(g, start, roots, visited, done, turned, levels, related, n);
  }

  /** A new node is taken off the end of the list and its sources are pushed in front. */
  lemma ProgressVisits(g: DepGraph, start: FunctionId, roots: seq<NodeId>, visited: set<NodeId>, done: set<NodeId>,
                       processed: set<ValueId>, list: seq<NodeId>, n: NodeId, l: Layers, levels: map<FunctionId, int>,
                       related: map<FunctionId, int>, pushed: seq<NodeId>, levels': map<FunctionId, int>,
                       related': map<FunctionId, int>, declarations: set<FunctionId>) returns (next: Layers)
    requires Progress(g, start, roots, visited, done, processed, list + [n], l, levels, related)
    requires (forall r :: r in roots ==> r in g) && n in g && HasLLVMValue(g[n]) && g[n].value.Some?
    requires forall s :: s in pushed <==> Step(g, n, s)
    requires NoHigher(levels, levels') && (forall s :: Step(g, n, s) ==> PassedOn(g, levels, levels', n, s))
    requires Records(g, start, declarations, n, levels, related, related')
    requires Parented(g, start, roots) ==> AllRecorded(g, start, declarations, visited, related)
    ensures Progress(g, start, roots, visited + {n}, done + {n}, processed + {g[n].value.value}, pushed + list, next,
                     levels', related')
  {
    var before := list + [n];
    assert n in before && before[..|before| - 1] == list;
    var turned := TurnLayer(g, start, roots, visited, done, l, levels, related);
    VisitKeeps(g, roots, visited, done, processed, before, list, pushed + list, n);
    next := VisitRanked(g, start, roots, visited, done, turned, levels, related, n, pushed, levels', related',
                        declarations);
  }

  /** What is on the list is in the graph. */
  lemma QueuedIsNode(g: DepGraph, start: FunctionId, roots: seq<NodeId>, visited: set<NodeId>, done: set<NodeId>,
                     processed: set<ValueId>, list: seq<NodeId>, n: NodeId, l: Layers, levels: map<FunctionId, int>,
                     related: map<FunctionId, int>)
    requires Progress(g, start, roots, visited, done, processed, list + [n], l, levels, related)
    ensures n in g
  {
    assert n in list + [n];
  }
}
