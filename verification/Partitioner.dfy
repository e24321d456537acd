/** How the partitions start: the analyses of all annotations merged, and the rest
    of the module as their complement (lib/Analysis/Partitioner.cpp). */
module Partitioners {
  import opened CallGraphs
  import opened Partitions
  import opened PartitionUtils
  import opened KLOptimizers
  import opened PipelineSpec

  /** What the three analyses of one annotation return. */
  datatype AnnotationParts = AnnotationParts(
    ofFunction: PartitionValue,
    ofArguments: PartitionValue,
    ofReturn: PartitionValue)

  const EMPTY: PartitionValue := PartitionValue({}, map[], {}, {}, {})

  function JoinAll(parts: seq<PartitionValue>): PartitionValue {
    if parts == [] then EMPTY
    else
      var n := |parts| - 1;
      Join(JoinAll(parts[..n]), parts[n])
  }

  function Flatten(annotations: seq<AnnotationParts>): seq<PartitionValue> {
    if annotations == [] then []
    else
      var n := |annotations| - 1;
      Flatten(annotations[..n]) + [annotations[n].ofFunction, annotations[n].ofArguments, annotations[n].ofReturn]
  }

  // ---------- Order does not matter ----------

  /** level is the smallest that any part gives to f. */
  ghost predicate IsLeastLevel(parts: seq<PartitionValue>, f: FunctionId, level: int) {
    && (exists p :: p in parts && f in p.related && p.related[f] == level)
    && (forall p :: p in parts && f in p.related ==> level <= p.related[f])
  }

  lemma {:induction false} JoinAllMeans(parts: seq<PartitionValue>)
    ensures forall f :: f in JoinAll(parts).functions <==> exists p :: p in parts && f in p.functions
    ensures forall f :: f in JoinAll(parts).inInterface <==> exists p :: p in parts && f in p.inInterface
    ensures forall f :: f in JoinAll(parts).outInterface <==> exists p :: p in parts && f in p.outInterface
    ensures forall v :: v in JoinAll(parts).globals <==> exists p :: p in parts && v in p.globals
    ensures forall f :: f in JoinAll(parts).related <==> exists p :: p in parts && f in p.related
    ensures forall f :: f in JoinAll(parts).related ==> IsLeastLevel(parts, f, JoinAll(parts).related[f])
  {
    if parts != [] {
      var n := |parts| - 1;
      var init, last := parts[..n], parts[n];
      JoinAllMeans(init);
      assert parts == init + [last];
      assert last in parts;
      forall f | f in JoinAll(parts).related
        ensures IsLeastLevel(parts, f, JoinAll(parts).related[f])
      {
        LeastLevelOfMore(init, last, f);
      }
    }
  }

  lemma LeastLevelOfMore(init: seq<PartitionValue>, last: PartitionValue, f: FunctionId)
    requires f in JoinAll(init).related ==> IsLeastLevel(init, f, JoinAll(init).related[f])
    requires f in JoinAll(init).related <==> exists p :: p in init && f in p.related
    requires f in MinMerge(JoinAll(init).related, last.related)
    ensures IsLeastLevel(init + [last], f, MinMerge(JoinAll(init).related, last.related)[f])
  {
    var parts := init + [last];
    assert last in parts;
    if f in JoinAll(init).related {
      var p :| p in init && f in p.related && p.related[f] == JoinAll(init).related[f];
      assert p in parts;
    }
  }

  lemma SameLevels(a: seq<PartitionValue>, b: seq<PartitionValue>, f: FunctionId)
    requires forall p :: p in a <==> p in b
    requires f in JoinAll(a).related
    ensures f in JoinAll(b).related && JoinAll(a).related[f] == JoinAll(b).related[f]
  {
    JoinAllMeans(a);
    JoinAllMeans(b);
    SameLeastLevel(a, b, f, JoinAll(a).related[f], JoinAll(b).related[f]);
  }

  /** The secure functions, the related functions and their levels depend only on
      which partitions are merged, not on their order or multiplicity. */
  lemma MergeOrderDoesNotMatter(a: seq<PartitionValue>, b: seq<PartitionValue>)
    requires forall p :: p in a <==> p in b
    ensures JoinAll(a).functions == JoinAll(b).functions
    ensures JoinAll(a).related == JoinAll(b).related
  {
    forall f | f in JoinAll(a).related || f in JoinAll(b).related
      ensures f in JoinAll(a).related && f in JoinAll(b).related
      ensures JoinAll(a).related[f] == JoinAll(b).related[f]
    {
      if f in JoinAll(a).related {
        SameLevels(a, b, f);
      } else {
        SameLevels(b, a, f);
      }
    }
    SameMap(JoinAll(a).related, JoinAll(b).related);
    JoinAllMeans(a);
    JoinAllMeans(b);
  }

  lemma SameLeastLevel(a: seq<PartitionValue>, b: seq<PartitionValue>, f: FunctionId, x: int, y: int)
    requires forall p :: p in a <==> p in b
    requires IsLeastLevel(a, f, x) && IsLeastLevel(b, f, y)
    ensures x == y
  {
  }

  lemma {:induction false} FlattenMembers(annotations: seq<AnnotationParts>, p: PartitionValue)
    ensures p in Flatten(annotations) <==>
            exists x :: x in annotations && (p == x.ofFunction || p == x.ofArguments || p == x.ofReturn)
  {
    if annotations != [] {
      var n := |annotations| - 1;
      FlattenMembers(annotations[..n], p);
      assert annotations == annotations[..n] + [annotations[n]];
      assert annotations[n] in annotations;
    }
  }

  lemma AnnotationOrderDoesNotMatter(a: seq<AnnotationParts>, b: seq<AnnotationParts>)
    requires forall x :: x in a <==> x in b
    ensures JoinAll(Flatten(a)).functions == JoinAll(Flatten(b)).functions
    ensures JoinAll(Flatten(a)).related == JoinAll(Flatten(b)).related
  {
    forall p
      ensures p in Flatten(a) <==> p in Flatten(b)
    {
      FlattenMembers(a, p);
      FlattenMembers(b, p);
    }
    MergeOrderDoesNotMatter(Flatten(a), Flatten(b));
  }

  // ---------- Globals ----------

  /** The functions at the other ends of a global's edges, none for a node outside all
      functions. */
  datatype GlobalNode = GlobalNode(inParents: seq<Option<FunctionId>>, outParents: seq<Option<FunctionId>>)

  predicate Touches(parents: seq<Option<FunctionId>>, fs: set<FunctionId>) {
    exists i :: 0 <= i < |parents| && parents[i].Some? && parents[i].value in fs
  }

  /** The globals with an edge from or to a node of one of the functions. */
  function ReferencedGlobals(globals: map<GlobalId, GlobalNode>, fs: set<FunctionId>): set<GlobalId> {
    set v | v in globals && (Touches(globals[v].inParents, fs) || Touches(globals[v].outParents, fs))
  }

  method PartitionGlobals(globals: map<GlobalId, GlobalNode>, fs: set<FunctionId>) returns (referenced: set<GlobalId>)
    ensures referenced == ReferencedGlobals(globals, fs)
    ensures forall v :: v in referenced <==>
              && v in globals
              && exists f :: f in fs && (Some(f) in globals[v].inParents || Some(f) in globals[v].outParents)
  {
    referenced := {};
    var remaining := globals.Keys;
    while remaining != {}
      invariant remaining <= globals.Keys
      invariant referenced == ReferencedGlobals(globals, fs) - remaining
      decreases remaining
    {
      var v :| v in remaining;
      var fromInside := HasParentIn(globals[v].inParents, fs);
      var toInside := HasParentIn(globals[v].outParents, fs);
      if fromInside || toInside {
        referenced := referenced + {v};
      }
      remaining := remaining - {v};
    }
  }

  method HasParentIn(parents: seq<Option<FunctionId>>, fs: set<FunctionId>) returns (found: bool)
    ensures found == Touches(parents, fs)
  {
    found := false;
    for i := 0 to |parents|
      invariant found <==> exists k :: 0 <= k < i && parents[k].Some? && parents[k].value in fs
    {
      if parents[i].Some? && parents[i].value in fs {
        found := true;
      }
    }
  }

  // ---------- The partitioner ----------

  class Partitioner {
    const info: ModuleInfo
    const pdg: Pdg
    const globals: map<GlobalId, GlobalNode>
    const securePartition: Partition
    const insecurePartition: Partition

    constructor (info: ModuleInfo, pdg: Pdg, globals: map<GlobalId, GlobalNode>)
      ensures this.info == info && this.pdg == pdg && this.globals == globals
      ensures fresh(securePartition) && fresh(insecurePartition) && securePartition != insecurePartition
      ensures securePartition.Value() == EMPTY && insecurePartition.Value() == EMPTY
    {
      this.info, this.pdg, this.globals := info, pdg, globals;
      securePartition := new Partition();
      insecurePartition := new Partition();
    }

    /** Merges the analyses in the order of the annotations and complements the result. */
    method PartitionModule(annotations: seq<AnnotationParts>)
      requires securePartition != insecurePartition
      requires securePartition.Value() == EMPTY && insecurePartition.Value() == EMPTY
      modifies securePartition, insecurePartition
      ensures securePartition.functions == JoinAll(Flatten(annotations)).functions
      ensures securePartition.related == JoinAll(Flatten(annotations)).related
      ensures insecurePartition.functions == info.functions - securePartition.functions
      ensures insecurePartition.related == map[]
      ensures securePartition.globals == ReferencedGlobals(globals, securePartition.functions)
      ensures insecurePartition.globals == ReferencedGlobals(globals, insecurePartition.functions)
      ensures securePartition.inInterface == InInterface(securePartition.functions, pdg)
      ensures insecurePartition.inInterface == InInterface(insecurePartition.functions, pdg)
      ensures forall f :: f in securePartition.outInterface <==> InOutInterface(securePartition.functions, pdg, f)
      ensures forall f :: f in insecurePartition.outInterface <==> InOutInterface(insecurePartition.functions, pdg, f)
    {
      MergeAnnotations(annotations);
      var referenced := PartitionGlobals(globals, securePartition.functions);
      securePartition.globals := referenced;
      var inInterface := ComputeInInterface(securePartition.functions, pdg);
      securePartition.inInterface := inInterface;
      var outInterface := ComputeOutInterface(securePartition.functions, pdg);
      securePartition.outInterface := outInterface;
      ComputeInsecurePartition();
    }

    /** The loop over the annotations. */
    method MergeAnnotations(annotations: seq<AnnotationParts>)
      requires securePartition.Value() == EMPTY
      modifies securePartition
      ensures securePartition.Value() == JoinAll(Flatten(annotations))
    {
      for i := 0 to |annotations|
        invariant securePartition.Value() == JoinAll(Flatten(annotations[..i]))
      {
        assert annotations[..i + 1][..i] == annotations[..i];
        ghost var merged := Flatten(annotations[..i]);
        JoinThree(merged, annotations[i].ofFunction, annotations[i].ofArguments, annotations[i].ofReturn);
        securePartition.AddPartition(annotations[i].ofFunction);
        securePartition.AddPartition(annotations[i].ofArguments);
        securePartition.AddPartition(annotations[i].ofReturn);
      }
      assert annotations[..|annotations|] == annotations;
    }

    method ComputeInsecurePartition()
      requires securePartition != insecurePartition && insecurePartition.functions == {}
      modifies insecurePartition`functions, insecurePartition`globals
      modifies insecurePartition`inInterface, insecurePartition`outInterface
      ensures insecurePartition.functions == info.functions - securePartition.functions
      ensures insecurePartition.globals == ReferencedGlobals(globals, insecurePartition.functions)
      ensures insecurePartition.inInterface == InInterface(insecurePartition.functions, pdg)
      ensures forall f :: f in insecurePartition.outInterface <==> InOutInterface(insecurePartition.functions, pdg, f)
    {
      var remaining := info.functions;
      while remaining != {}
        invariant remaining <= info.functions
        invariant insecurePartition.functions == info.functions - remaining - securePartition.functions
        decreases remaining
      {
        var f :| f in remaining;
        if f !in securePartition.functions {
          insecurePartition.AddToPartition(f);
        }
        remaining := remaining - {f};
      }
      var referenced := PartitionGlobals(globals, insecurePartition.functions);
      insecurePartition.globals := referenced;
      var inInterface := ComputeInInterface(insecurePartition.functions, pdg);
      insecurePartition.inInterface := inInterface;
      var outInterface := ComputeOutInterface(insecurePartition.functions, pdg);
      insecurePartition.outInterface := outInterface;
    }
  }

  lemma JoinOne(parts: seq<PartitionValue>, p: PartitionValue)
    ensures JoinAll(parts + [p]) == Join(JoinAll(parts), p)
  {
    assert (parts + [p])[..|parts|] == parts;
  }

  lemma JoinThree(parts: seq<PartitionValue>, a: PartitionValue, b: PartitionValue, c: PartitionValue)
    ensures JoinAll(parts + [a, b, c]) == Join(Join(Join(JoinAll(parts), a), b), c)
  {
    JoinOne(parts, a);
    JoinOne(parts + [a], b);
    JoinOne(parts + [a] + [b], c);
    assert parts + [a, b, c] == parts + [a] + [b] + [c];
  }

  /** Partitions built this way are a sound start for the optimiser, provided the
      analyses and the calls stay inside the module. */
  lemma PartitionerStartsPipeline(cfg: Config, secure: PartitionValue, insecure: PartitionValue)
    requires secure.functions <= cfg.info.functions && secure.related.Keys <= cfg.info.functions
    requires insecure.functions == cfg.info.functions - secure.functions
    requires forall f :: f in secure.outInterface <==> InOutInterface(secure.functions, cfg.pdg, f)
    requires forall f :: f in insecure.outInterface <==> InOutInterface(insecure.functions, cfg.pdg, f)
    requires forall f, g :: f in cfg.info.functions && f in cfg.pdg && Calls(cfg.pdg[f], g) ==> g in cfg.info.functions
    ensures Running(cfg, secure.functions, State(secure, insecure))
  {
  }
}
