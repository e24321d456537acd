/** What the backward traversal from the return values of an annotated function
    (lib/Analysis/Partitioner.cpp, PartitionForReturnValue) visits, and what its levels
    mean. */
module TraversalSpec {
  import opened CallGraphs

  datatype NodeId = At(id: nat)
  datatype ValueId = Val(id: nat)

  /** What the traversal distinguishes; Other is anything without an LLVM value. */
  datatype Kind = Ordinary | FunctionNode(f: FunctionId) | Constant | Null | Other

  /** sources are the sources of the in-edges, in their order. */
  datatype DepNode = DepNode(kind: Kind, value: Option<ValueId>, parent: Option<FunctionId>, sources: seq<NodeId>)

  type DepGraph = map<NodeId, DepNode>

  predicate CanProcess(n: DepNode) {
    !n.kind.Constant? && !n.kind.Null?
  }

  predicate HasLLVMValue(n: DepNode) {
    !n.kind.Other? && !n.kind.Null?
  }

  /** The traversal goes on from these nodes only. */
  predicate Expands(n: DepNode) {
    HasLLVMValue(n) && !n.kind.FunctionNode?
  }

  ghost predicate Closed(g: DepGraph) {
    forall n, s :: n in g && s in g[n].sources ==> s in g
  }

  /** What termination relies on: values to remember nodes by. */
  ghost predicate WellFormed(g: DepGraph) {
    && Closed(g)
    && (forall n :: n in g && HasLLVMValue(g[n]) ==> g[n].value.Some?)
  }

  /** What knowing every level relies on: parents everywhere, a function node belonging
      to its own function and the roots to the annotated one. */
  ghost predicate Parented(g: DepGraph, start: FunctionId, roots: seq<NodeId>) {
    && (forall n :: n in g ==> g[n].parent.Some?)
    && (forall n :: n in g && g[n].kind.FunctionNode? ==> g[n].parent.value == g[n].kind.f)
    && (forall r :: r in roots && r in g ==> g[r].parent == Some(start))
  }

  /** The level of the function that the node belongs to is known. */
  predicate LevelKnown(g: DepGraph, levels: map<FunctionId, int>, n: NodeId) {
    n in g && g[n].parent.Some? && g[n].parent.value in levels
  }

  ghost predicate DistinctValues(g: DepGraph) {
    forall m, n :: m in g && n in g && HasLLVMValue(g[m]) && HasLLVMValue(g[n]) && g[m].value == g[n].value ==> m == n
  }

  // ---------- Reachability ----------

  /** One backward step. */
  predicate Step(g: DepGraph, n: NodeId, s: NodeId) {
    n in g && s in g && Expands(g[n]) && s in g[n].sources && CanProcess(g[s])
  }

  ghost predicate IsPath(g: DepGraph, p: seq<NodeId>) {
    forall i :: 0 <= i < |p| - 1 ==> Step(g, p[i], p[i + 1])
  }

  /** Paths go from sink to source, on from LLVM nodes other than function nodes, and
      never to constants or null. */
  lemma StepMeans(g: DepGraph, n: NodeId, s: NodeId)
    ensures Step(g, n, s) <==>
            && n in g && s in g && s in g[n].sources
            && (g[n].kind.Ordinary? || g[n].kind.Constant?)
            && (g[s].kind.Ordinary? || g[s].kind.FunctionNode? || g[s].kind.Other?)
  {
  }

  ghost predicate Reachable(g: DepGraph, roots: seq<NodeId>, n: NodeId) {
    exists p :: |p| > 0 && p[0] in roots && p[|p| - 1] == n && IsPath(g, p)
  }

  lemma RootsAreReachable(g: DepGraph, roots: seq<NodeId>, n: NodeId)
    requires n in roots
    ensures Reachable(g, roots, n)
  {
    var p := [n];
    assert p[0] in roots && p[|p| - 1] == n && IsPath(g, p);
  }

  lemma StepsReach(g: DepGraph, roots: seq<NodeId>, n: NodeId, s: NodeId)
    requires Reachable(g, roots, n) && Step(g, n, s)
    ensures Reachable(g, roots, s)
  {
    var p :| |p| > 0 && p[0] in roots && p[|p| - 1] == n && IsPath(g, p);
    var q := p + [s];
    assert q[0] in roots && q[|q| - 1] == s && IsPath(g, q);
  }

  ghost predicate StepClosed(g: DepGraph, done: set<NodeId>) {
    forall n, s :: n in done && Step(g, n, s) ==> s in done
  }

  lemma {:induction false} PathStaysInside(g: DepGraph, done: set<NodeId>, p: seq<NodeId>)
    requires StepClosed(g, done)
    requires |p| > 0 && p[0] in done && IsPath(g, p)
    ensures p[|p| - 1] in done
  {
    if |p| > 1 {
      var n := |p| - 1;
      PathStaysInside(g, done, p[..n]);
      assert Step(g, p[n - 1], p[n]);
    }
  }

  /** A set that holds the roots and is closed under steps holds all reachable nodes. */
  lemma ReachableStaysInside(g: DepGraph, roots: seq<NodeId>, done: set<NodeId>, n: NodeId)
    requires StepClosed(g, done) && (forall r :: r in roots ==> r in done)
    requires Reachable(g, roots, n)
    ensures n in done
  {
    var p :| |p| > 0 && p[0] in roots && p[|p| - 1] == n && IsPath(g, p);
    PathStaysInside(g, done, p);
  }

  // ---------- Levels ----------

  /** Some step leads from a node of a to a node of another function b. */
  ghost predicate Crosses(g: DepGraph, a: FunctionId, b: FunctionId) {
    a != b && exists n, s :: Step(g, n, s) && g[n].parent == Some(a) && g[s].parent == Some(b)
  }

  ghost predicate IsWalk(g: DepGraph, start: FunctionId, w: seq<FunctionId>) {
    |w| > 0 && w[0] == start && forall i :: 0 <= i < |w| - 1 ==> Crosses(g, w[i], w[i + 1])
  }

  /** f is `length` crossings away from start along some walk. */
  ghost predicate WalkOf(g: DepGraph, start: FunctionId, f: FunctionId, length: int) {
    exists w :: IsWalk(g, start, w) && w[|w| - 1] == f && length == |w| - 1
  }

  lemma WalkStarts(g: DepGraph, start: FunctionId)
    ensures WalkOf(g, start, start, 0)
  {
    assert IsWalk(g, start, [start]);
  }

  lemma WalkExtends(g: DepGraph, start: FunctionId, a: FunctionId, b: FunctionId, length: int)
    requires WalkOf(g, start, a, length) && Crosses(g, a, b)
    ensures WalkOf(g, start, b, length + 1)
  {
    var w :| IsWalk(g, start, w) && w[|w| - 1] == a && length == |w| - 1;
    var v := w + [b];
    assert IsWalk(g, start, v) && v[|v| - 1] == b;
  }

  /** Levels are lengths of real walks, the start having none. */
  ghost predicate LevelsSound(g: DepGraph, start: FunctionId, levels: map<FunctionId, int>) {
    && start in levels && levels[start] == 0
    && forall f :: f in levels ==> WalkOf(g, start, f, levels[f])
  }

  lemma WalksAreNotNegative(g: DepGraph, start: FunctionId, f: FunctionId, length: int)
    requires WalkOf(g, start, f, length)
    ensures length >= 0
  {
  }

  // ---------- The traversal ----------

  /** Defined functions, other than the annotated one, with a node in the set. */
  ghost predicate IsRelated(g: DepGraph, visited: set<NodeId>, start: FunctionId, declarations: set<FunctionId>,
                            f: FunctionId) {
    f != start && f !in declarations && exists n :: n in visited && n in g && g[n].kind == FunctionNode(f)
  }

  /** processed holds the values of the visited nodes. */
  ghost predicate Remembers(g: DepGraph, visited: set<NodeId>, processed: set<ValueId>) {
    && (forall n :: n in visited ==> n in g && HasLLVMValue(g[n]) && g[n].value.Some? && g[n].value.value in processed)
    && (forall v :: v in processed ==> exists n :: n in visited && n in g && g[n].value == Some(v))
  }

  /** Nothing that a visited node leads to, and no root, has been lost. */
  ghost predicate Complete(g: DepGraph, roots: seq<NodeId>, visited: set<NodeId>, done: set<NodeId>,
                           list: seq<NodeId>) {
    && (forall r :: r in roots ==> r in done || r in list)
    && (forall n, s :: n in visited && Step(g, n, s) ==> s in done || s in list)
    && (DistinctValues(g) ==> forall n :: n in done && n in g && HasLLVMValue(g[n]) ==> n in visited)
  }

  ghost predicate AllReachable(g: DepGraph, roots: seq<NodeId>, visited: set<NodeId>, done: set<NodeId>,
                               list: seq<NodeId>) {
    && visited <= done
    && (forall n :: n in done ==> n in g && Reachable(g, roots, n))
    && (forall n :: n in list ==> n in g && Reachable(g, roots, n))
  }

  ghost predicate Searching(g: DepGraph, roots: seq<NodeId>, visited: set<NodeId>, done: set<NodeId>,
                            processed: set<ValueId>, list: seq<NodeId>) {
    && AllReachable(g, roots, visited, done, list)
    && Complete(g, roots, visited, done, list)
    && Remembers(g, visited, processed)
  }

  lemma SearchStarts(g: DepGraph, roots: seq<NodeId>)
    requires forall r :: r in roots ==> r in g
    ensures Searching(g, roots, {}, {}, {}, roots)
  {
    forall r | r in roots
      ensures Reachable(g, roots, r)
    {
      RootsAreReachable(g, roots, r);
    }
  }

  lemma SearchEnds(g: DepGraph, roots: seq<NodeId>, visited: set<NodeId>, done: set<NodeId>, processed: set<ValueId>)
    requires Searching(g, roots, visited, done, processed, [])
    ensures forall n :: n in visited ==> n in g && Reachable(g, roots, n) && HasLLVMValue(g[n])
    ensures DistinctValues(g) ==> forall n :: n in g && Reachable(g, roots, n) && HasLLVMValue(g[n]) ==> n in visited
  {
    if DistinctValues(g) {
      forall n | n in g && Reachable(g, roots, n) && HasLLVMValue(g[n])
        ensures n in visited
      {
        VisitedIsReachable(g, roots, visited, done, n);
      }
    }
  }

  /** The list before a node is taken off its end. */
  ghost predicate TakenOff(before: seq<NodeId>, list: seq<NodeId>, n: NodeId) {
    forall x :: x in before <==> x in list || x == n
  }

  /** A node without a value, or with one already met, is dropped without loss. */
  lemma DropKeeps(g: DepGraph, roots: seq<NodeId>, visited: set<NodeId>, done: set<NodeId>, processed: set<ValueId>,
                  before: seq<NodeId>, list: seq<NodeId>, n: NodeId)
    requires Searching(g, roots, visited, done, processed, before) && TakenOff(before, list, n) && n in before
    requires HasLLVMValue(g[n]) ==> g[n].value.Some? && g[n].value.value in processed
    ensures Searching(g, roots, visited, done + {n}, processed, list)
  {
    if HasLLVMValue(g[n]) {
      var m :| m in visited && m in g && g[m].value == Some(g[n].value.value);
    }
  }

  lemma VisitKeeps(g: DepGraph, roots: seq<NodeId>, visited: set<NodeId>, done: set<NodeId>, processed: set<ValueId>,
                   before: seq<NodeId>, list: seq<NodeId>, longer: seq<NodeId>, n: NodeId)
    requires Searching(g, roots, visited, done, processed, before) && TakenOff(before, list, n) && n in before
    requires n in g && HasLLVMValue(g[n]) && g[n].value.Some?
    requires forall s :: s in longer <==> s in list || Step(g, n, s)
    ensures Searching(g, roots, visited + {n}, done + {n}, processed + {g[n].value.value}, longer)
  {
    forall s | Step(g, n, s)
      ensures Reachable(g, roots, s)
    {
      StepsReach(g, roots, n, s);
    }
    forall r | r in roots
      ensures r in done + {n} || r in longer
    {
      assert r in done || r in before;
    }
    forall m, s | m in visited + {n} && Step(g, m, s)
      ensures s in done + {n} || s in longer
    {
      assert m == n || s in done || s in before;
    }
  }

  lemma VisitedIsReachable(g: DepGraph, roots: seq<NodeId>, visited: set<NodeId>, done: set<NodeId>, n: NodeId)
    requires DistinctValues(g) && Complete(g, roots, visited, done, [])
    requires n in g && Reachable(g, roots, n) && HasLLVMValue(g[n])
    ensures n in visited
  {
    ReachableStaysInside(g, roots, done, n);
  }

  lemma RelatedAfter(g: DepGraph, visited: set<NodeId>, start: FunctionId, declarations: set<FunctionId>, n: NodeId)
    requires n in g
    ensures forall f :: IsRelated(g, visited + {n}, start, declarations, f) <==>
              (IsRelated(g, visited, start, declarations, f)
               || (f != start && f !in declarations && g[n].kind == FunctionNode(f)))
  {
  }

  lemma LastTakenOff<T>(s: seq<T>, t: seq<T>)
    requires s != [] && t == s[..|s| - 1]
    ensures forall x :: x in s <==> x in t || x == s[|s| - 1]
  {
    assert s == t + [s[|s| - 1]];
  }
}
