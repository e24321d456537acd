/** The augmented call graph as the optimisers read it: every node keeps its own
    copy of each incident edge, once as an in-edge and once as an out-edge. */
module CallGraphs {
  import opened Numbers
  import opened Sums

  /** A function stands for its identity only. */
  datatype FunctionId = Fn(id: nat)

  datatype Option<+T> = None | Some(value: T)

  /** `callNum` is the weight of the CALL_NUM factor of this copy of the edge. */
  datatype Edge = Edge(source: FunctionId, sink: FunctionId, callNum: real)

  datatype Node = Node(inEdges: seq<Edge>, outEdges: seq<Edge>, sensitiveRelated: Option<real>, size: Option<real>)

  type CallGraph = map<FunctionId, Node>

  /** One incident edge copy seen from its node: the other end and the weight. */
  datatype Link = Link(other: FunctionId, weight: real)

  function InLinks(node: Node): seq<Link> {
    seq(|node.inEdges|, i requires 0 <= i < |node.inEdges| =>
      Link(node.inEdges[i].source, node.inEdges[i].callNum))
  }

  function OutLinks(node: Node): seq<Link> {
    seq(|node.outEdges|, i requires 0 <= i < |node.outEdges| =>
      Link(node.outEdges[i].sink, node.outEdges[i].callNum))
  }

  function Links(node: Node): seq<Link> {
    InLinks(node) + OutLinks(node)
  }

  function LinksOf(g: CallGraph, f: FunctionId): seq<Link> {
    if f in g then Links(g[f]) else []
  }

  /** Accumulates, in list order, the weights of the first n links whose other
      end is in s (inside) or is not in s (!inside). */
  function WeightTo(m: Arithmetic, links: seq<Link>, n: nat, s: set<FunctionId>, inside: bool): real
    requires n <= |links|
  {
    if n == 0 then 0.0
    else
      var before := WeightTo(m, links, n - 1, s, inside);
      if (links[n - 1].other in s) == inside then Plus(m, before, links[n - 1].weight) else before
  }

  function Internal(m: Arithmetic, g: CallGraph, f: FunctionId, s: set<FunctionId>): real {
    WeightTo(m, LinksOf(g, f), |LinksOf(g, f)|, s, true)
  }

  function External(m: Arithmetic, g: CallGraph, f: FunctionId, s: set<FunctionId>): real {
    WeightTo(m, LinksOf(g, f), |LinksOf(g, f)|, s, false)
  }

  /** All that f's own edge copies weigh between f and `other`. */
  function EdgeCost(m: Arithmetic, g: CallGraph, f: FunctionId, other: FunctionId): real {
    Internal(m, g, f, {other})
  }

  function FactorOrZero(factor: Option<real>): real {
    if factor.Some? then factor.value else 0.0
  }

  /** Sensitivity counts for moving a function in, size against it.  This
      addition is on plain doubles, not on the sticking number type. */
  function NodeCost(g: CallGraph, f: FunctionId): real {
    if f in g then FactorOrZero(g[f].sensitiveRelated) + -1.0 * FactorOrZero(g[f].size) else 0.0
  }

  ghost predicate NonNegativeWeights(g: CallGraph) {
    forall f, i :: f in g && 0 <= i < |Links(g[f])| ==> Links(g[f])[i].weight >= 0.0
  }

  /** Taking x out of s turns the weight towards x from inside to outside. */
  lemma {:induction false} WeightWithout(links: seq<Link>, n: nat, s: set<FunctionId>, x: FunctionId)
    requires n <= |links| && x in s
    ensures WeightTo(Exact, links, n, s, true)
         == WeightTo(Exact, links, n, s - {x}, true) + WeightTo(Exact, links, n, {x}, true)
    ensures WeightTo(Exact, links, n, s - {x}, false)
         == WeightTo(Exact, links, n, s, false) + WeightTo(Exact, links, n, {x}, true)
  {
    if n > 0 {
      WeightWithout(links, n - 1, s, x);
    }
  }

  /** The weight towards each single function. */
  ghost function ToEach(links: seq<Link>): FunctionId -> real {
    u => WeightTo(Exact, links, |links|, {u}, true)
  }

  /** Weight towards a set is the sum of the weights towards its members. */
  lemma {:induction false} WeightAsSum(links: seq<Link>, s: set<FunctionId>)
    ensures WeightTo(Exact, links, |links|, s, true)
         == SetSum(s, ToEach(links))
    decreases |s|
  {
    if s != {} {
      var x := AnyElement(s);
      WeightWithout(links, |links|, s, x);
      SetSumPick(s, ToEach(links), x);
      WeightAsSum(links, s - {x});
    } else {
      WeightToNothing(links, |links|);
    }
  }

  lemma {:induction false} WeightToNothing(links: seq<Link>, n: nat)
    requires n <= |links|
    ensures WeightTo(Exact, links, n, {}, true) == 0.0
  {
    if n > 0 {
      WeightToNothing(links, n - 1);
    }
  }

  /** With non-negative weights, a smaller set has less inside and more outside. */
  lemma {:induction false} WeightMonotone(links: seq<Link>, n: nat, s: set<FunctionId>, t: set<FunctionId>)
    requires n <= |links| && s <= t
    requires forall i :: 0 <= i < n ==> links[i].weight >= 0.0
    ensures 0.0 <= WeightTo(Exact, links, n, s, true) <= WeightTo(Exact, links, n, t, true)
    ensures WeightTo(Exact, links, n, s, false) >= WeightTo(Exact, links, n, t, false)
  {
    if n > 0 {
      WeightMonotone(links, n - 1, s, t);
    }
  }
}
