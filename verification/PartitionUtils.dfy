/** Interfaces between partitions, recomputed from the program dependence graph
    (lib/Utils/PartitionUtils.cpp). */
module PartitionUtils {
  import opened CallGraphs

  /** A place where a function is called: by whom, and whether inside a loop. */
  datatype CallSite = CallSite(caller: FunctionId, inLoop: bool)

  /** An outgoing edge of a call node; the destination is a function node or not. */
  datatype PdgEdge = PdgEdge(isControl: bool, callee: Option<FunctionId>)

  /** Call sites of the function, and the edges of each call instruction in it. */
  datatype FunctionPdg = FunctionPdg(callSites: seq<CallSite>, callNodes: seq<seq<PdgEdge>>)

  type Pdg = map<FunctionId, FunctionPdg>

  predicate IsCalledFrom(f: FunctionPdg, callers: set<FunctionId>, inside: bool) {
    exists i :: 0 <= i < |f.callSites| && (f.callSites[i].caller in callers) == inside
  }

  predicate Calls(f: FunctionPdg, callee: FunctionId) {
    exists i, j :: 0 <= i < |f.callNodes| && 0 <= j < |f.callNodes[i]|
                   && f.callNodes[i][j] == PdgEdge(true, Some(callee))
  }

  /** Functions of the set that are called from outside it. */
  function InInterface(functions: set<FunctionId>, pdg: Pdg): set<FunctionId> {
    set f | f in functions && f in pdg && IsCalledFrom(pdg[f], functions, false)
  }

  predicate InOutInterface(functions: set<FunctionId>, pdg: Pdg, callee: FunctionId) {
    callee !in functions && exists f :: f in functions && f in pdg && Calls(pdg[f], callee)
  }

  method ComputeInInterface(functions: set<FunctionId>, pdg: Pdg) returns (inInterface: set<FunctionId>)
    ensures inInterface == InInterface(functions, pdg)
    ensures forall f :: f in inInterface <==>
              f in functions && f in pdg
              && exists i :: 0 <= i < |pdg[f].callSites| && pdg[f].callSites[i].caller !in functions
  {
    inInterface := {};
    var remaining := functions;
    while remaining != {}
      invariant remaining <= functions
      invariant inInterface == InInterface(functions, pdg) - remaining
      decreases remaining
    {
      var f :| f in remaining;
      remaining := remaining - {f};
      if f !in pdg {
        continue;
      }
      var callSites := pdg[f].callSites;
      for i := 0 to |callSites|
        invariant inInterface == InInterface(functions, pdg) - remaining - {f}
        invariant forall k :: 0 <= k < i ==> callSites[k].caller in functions
      {
        if callSites[i].caller !in functions {
          inInterface := inInterface + {f};
          break;
        }
      }
    }
  }

  method ComputeOutInterface(functions: set<FunctionId>, pdg: Pdg) returns (outInterface: set<FunctionId>)
    ensures forall callee :: callee in outInterface <==> InOutInterface(functions, pdg, callee)
    ensures forall callee :: callee in outInterface <==>
              callee !in functions
              && exists f, i, j :: f in functions && f in pdg && 0 <= i < |pdg[f].callNodes|
                                   && 0 <= j < |pdg[f].callNodes[i]| && pdg[f].callNodes[i][j].isControl
                                   && pdg[f].callNodes[i][j].callee == Some(callee)
  {
    outInterface := {};
    var remaining := functions;
    while remaining != {}
      invariant remaining <= functions
      invariant forall callee :: callee in outInterface <==>
                  (callee !in functions && exists f :: f in functions - remaining && f in pdg && Calls(pdg[f], callee))
      decreases remaining
    {
      var f :| f in remaining;
      if f in pdg {
        var called := CalleesOutside(functions, pdg[f]);
        outInterface := outInterface + called;
      }
      remaining := remaining - {f};
    }
  }

  /** The loops over one function's call nodes and their edges. */
  method CalleesOutside(functions: set<FunctionId>, fpdg: FunctionPdg) returns (called: set<FunctionId>)
    ensures forall callee :: callee in called <==> callee !in functions && Calls(fpdg, callee)
  {
    called := {};
    for i := 0 to |fpdg.callNodes|
      invariant forall callee :: callee in called <==>
                  (callee !in functions
                   && exists k, l :: 0 <= k < i && 0 <= l < |fpdg.callNodes[k]|
                                     && fpdg.callNodes[k][l] == PdgEdge(true, Some(callee)))
    {
      var edges := fpdg.callNodes[i];
      ghost var before := called;
      for j := 0 to |edges|
        invariant forall callee :: callee in called <==>
                    (callee in before
                     || (callee !in functions && exists l :: 0 <= l < j && edges[l] == PdgEdge(true, Some(callee))))
      {
        if edges[j].isControl && edges[j].callee.Some? && edges[j].callee.value !in functions {
          called := called + {edges[j].callee.value};
        }
      }
    }
  }

  /** Call sites and call nodes tell the same story, and everything has a graph. */
  ghost predicate SameCallRelation(all: set<FunctionId>, pdg: Pdg) {
    && all <= pdg.Keys
    && (forall f, i :: f in all && 0 <= i < |pdg[f].callSites| ==> pdg[f].callSites[i].caller in all)
    && (forall f, g :: f in all && Calls(pdg[f], g) ==> g in all)
    && (forall f, g :: f in all && g in all ==>
          (Calls(pdg[f], g) <==> exists i :: 0 <= i < |pdg[g].callSites| && pdg[g].callSites[i].caller == f))
  }

  /** What one of two complementary sets calls outside is what the other offers. */
  lemma InterfacesMirror(p: set<FunctionId>, q: set<FunctionId>, pdg: Pdg, callee: FunctionId)
    requires p !! q && SameCallRelation(p + q, pdg)
    ensures InOutInterface(p, pdg, callee) <==> callee in InInterface(q, pdg)
  {
    if InOutInterface(p, pdg, callee) {
      CalledMeansOffered(p, q, pdg, callee);
    }
    if callee in InInterface(q, pdg) {
      OfferedMeansCalled(p, q, pdg, callee);
    }
  }

  lemma CalledMeansOffered(p: set<FunctionId>, q: set<FunctionId>, pdg: Pdg, callee: FunctionId)
    requires p !! q && SameCallRelation(p + q, pdg)
    requires InOutInterface(p, pdg, callee)
    ensures callee in InInterface(q, pdg)
  {
    var f :| f in p && f in pdg && Calls(pdg[f], callee);
    assert f in p + q && callee in p + q;
    var i :| 0 <= i < |pdg[callee].callSites| && pdg[callee].callSites[i].caller == f;
    assert pdg[callee].callSites[i].caller !in q;
  }

  lemma OfferedMeansCalled(p: set<FunctionId>, q: set<FunctionId>, pdg: Pdg, callee: FunctionId)
    requires p !! q && SameCallRelation(p + q, pdg)
    requires callee in InInterface(q, pdg)
    ensures InOutInterface(p, pdg, callee)
  {
    var i :| 0 <= i < |pdg[callee].callSites| && pdg[callee].callSites[i].caller !in q;
    var f := pdg[callee].callSites[i].caller;
    assert f in p + q && callee in p + q;
    assert Calls(pdg[f], callee);
  }
}
