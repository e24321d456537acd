# Verified model of the partition optimiser

The program divides the functions of a C or C++ program into a *secure* partition
(destined for an enclave) and an *insecure* one, and then improves the division.
This project models the division and its improvement in Dafny and proves what they
are for.

* `CallGraphs`, `CallGraphBuilders`: the augmented call graph. Each call edge exists
  twice, as an in-edge copy at the callee and an out-edge copy at the caller.
* `Weights`, `CallCounts`, `WeightAssigning`: how the copies get their weights - call
  sites are counted, both copies get the count, and the in-edge copies are normalised
  through pointers collected on the way - and when the two copies agree afterwards.
* `Numbers`: the number type of the cost model, which sticks at two sentinels.
* `KLOptimizationPasses`, `KLOptimizers`: the Kernighan-Lin pass as a class with the
  fields and loops of the program, on sticking numbers. `KLSpec` is the selection by
  selection specification, over either arithmetic; `KLOptimality` proves what the pass
  achieves over exact numbers; `KLSaturation` says when additions of the program's
  numbers lose nothing and carries the results over; `CutCost` relates the gains to the
  reported context switches.
* `ILPModels`, `ILPRounding`, `ILPValues`, `ILPOptimizations`: the linear model, why
  keeping only variables equal to 1 is optimal, and the optimisation as a class.
* `NodeFactors`: what sensitivity and size of a node are worth in a gain and in the
  objective of the linear model.
* `Partitions`, `Partitioners`, `ReturnTraversal`: how partitions are built from
  annotations. `TraversalSpec` says what the backward traversal reaches,
  `TraversalOrder` that it takes nodes in the order of their distance from the roots.
* `PartitionUtils`, `Optimizations`, `PipelineSpec`, `PartitionOptimizers`: the
  optimiser pipeline and the recomputed interfaces. `PipelineEffects` proves what the
  pipeline achieves, in terms of the list of optimisations and the partitions at its
  start.
* `PartitionStatistics`: the reported number of context switches.
* `SGXCodeGenerator`: the generated call stubs, interpreted over one parameter stack.
* `Guarantees`: results that combine several of these.
* `ExactConditions`: properties that some graphs break, each with the exact condition
  under which every graph meets it.
* `Counterexamples`: inputs on which the program does less well than its design
  suggests, each derived from call sites as weight assignment would leave it.

Classes change their fields in place as the program does; each method is specified
by a function or predicate over values, and the theorems are about those.

## Reading the statements

* `Exact` and `Saturating` name the two kinds of addition. Everything the classes
  compute is `Saturating`. `LosesNothing` and the predicates built on it say that no
  addition meets a sentinel that absorbs; for non-negative weights that is exactly
  when an accumulated weight is right (`KLSaturation.WeightIsExact`). For gains it is
  sufficient only, since two losses can cancel.
* A candidate's load is its incident weights plus its node cost, in absolute value.
  `Light`: each candidate's load is below 100000; then the selections lose nothing,
  whatever the loads sum to. `Moderate`: the loads together are below 100000; then the
  scan for the best prefix loses nothing either. Neither bound can be raised
  (`ExactConditions.LoadBoundIsExact`, `ExactConditions.TotalBoundIsExact`).
* `Kept(m, g, insecure, candidates)` is the set of functions the pass finally moves,
  `Trace` its whole record of moves, `After(.., j)` its state at selection `j`.
* `Loss` is the reported context switches minus the node costs of secure functions,
  the quantity the optimisers lower.
* `CopiesAgree` (both copies of each call edge weigh the same) is a hypothesis of the
  statements about the whole cut. The program rescales the in-edge copies only, so it
  does not always hold: `WeightAssigning.WeightAssigningHelper.AssignWeights` says
  exactly when it does, and `CutCost.LossOfPrefix` holds without it.
* A run of the optimiser goes through `states`, one before each optimisation in the list
  and one at the end. `Decided` functions are those that a function move or the solver
  chose in the state it ran in; `MayFollow` and `ChosenAt` say which these are.
* The order of an unordered container is an arbitrary choice in every loop over one,
  so the theorems hold for each order.

## Findings

* The gain of a function that calls itself is an under-estimate, because its self-calls
  count as internal, twice (lib/Optimization/KLOptimizationPass.cpp:148-165);
  `Counterexamples.RecursiveFunctionIsLeftBehind` gives the input. Functions left behind
  with self-calls of a given weight are never worth moving exactly when that weight is
  zero (`ExactConditions.OnlySelfCallsHideMoves`).
* A weight of 100000 absorbs another (include/Analysis/Numbers.h:77-80), which can hide
  an improving move (`Counterexamples.HeavyPassMissesAGain`). A bound on the candidates'
  loads rules that out on every graph exactly when it is at most 100000
  (`ExactConditions.LoadBoundIsExact`).
* Only in-edge copies are collected for normalisation (lib/Analysis/CallGraph.cpp:424
  against 444-447), so the two copies agree exactly when all counted calls have the
  same count; calls from loops beside one plain call are enough for them to differ
  (`Counterexamples.LoopAndPlainCallDisagree`).
* Where they differ a pass can make the reported cost worse
  (`Counterexamples.PassRaisesLoss`). No pass on a graph's edge copies does, whatever the
  node costs and the start, exactly when self-calls cover what the others' copies add
  (`ExactConditions.CoverIsExact`).
* The handler pushes the parameter copies in the order in which the caller pops them
  (lib/CodeGen/SGXCodeGenerator.cpp:300-304 and 511-513), so they come back reversed; a
  caller's parameters keep their values exactly when there is at most one
  (`SGXCodeGenerator.CopiesReturnInPlace`).

## Model

| member | source | states |
|---|---|---|
| Numbers.SafeSum | include/Analysis/Numbers.h:74-102 | the addition is exact if and only if no sentinel absorbs the other operand, an absorbing sentinel being the result |
| KLSpec.FirstMax | lib/Optimization/KLOptimizationPass.cpp:74-75 | the selected position is the first maximum |
| KLOptimizationPasses.MaxElement | lib/Optimization/KLOptimizationPass.cpp:74-75 | the scan finds that first maximum |
| KLOptimizationPasses.KLOptimizationPass.Run | lib/Optimization/KLOptimizationPass.cpp:66-81 | from candidates all in the graph, the recorded moves are the specified trace, exactly the moves after the best prefix are undone on both partitions, and related functions are dropped for the kept ones only |
| KLOptimizationPasses.KLOptimizationPass.SelectAll | lib/Optimization/KLOptimizationPass.cpp:72-78 | the loop goes through the specified states and every recorded function has changed sides |
| KLOptimizationPasses.KLOptimizationPass.SelectAndMove | lib/Optimization/KLOptimizationPass.cpp:73-77 | one round moves the first maximum of the current gains and leaves the other entries aligned |
| KLOptimizationPasses.KLOptimizationPass.ComputeCandidateEdgeCosts | lib/Optimization/KLOptimizationPass.cpp:83-100 | the table holds, for every candidate with a node and every other function, the weight of all edge copies between them; a candidate without a node is skipped |
| KLOptimizationPasses.KLOptimizationPass.AccumulateEdgeCosts | lib/Optimization/KLOptimizationPass.cpp:91-98 | in-edges and out-edges of one node are summed per other end |
| KLOptimizationPasses.KLOptimizationPass.ComputeNodeCosts | lib/Optimization/KLOptimizationPass.cpp:102-116 | the node cost of every candidate with a node is the value of its sensitivity, if it has one, less that of its size, if it has one; a candidate without a node is skipped |
| KLOptimizationPasses.KLOptimizationPass.ComputeMoveGains | lib/Optimization/KLOptimizationPass.cpp:118-130 | the first call computes all gains, a later one adds twice the edge cost to the moved function |
| NodeFactors.GainOfFactors | lib/Optimization/KLOptimizationPass.cpp:102-142 | with any two factors put at a node, or with either or both missing, its gain is external minus internal weight plus the sensitivity minus the size |
| KLOptimizationPasses.KLOptimizationPass.ComputeInitialMoveGains | lib/Optimization/KLOptimizationPass.cpp:132-142 | each gain is external minus internal cost plus node cost |
| KLOptimizationPasses.KLOptimizationPass.GetFunctionCosts | lib/Optimization/KLOptimizationPass.cpp:144-167 | incident weight split by whether the other end is in the insecure partition |
| KLOptimizationPasses.KLOptimizationPass.MoveFunction | lib/Optimization/KLOptimizationPass.cpp:169-178 | one candidate and its gain leave the lists, are recorded, and the function changes sides |
| KLOptimizationPasses.KLOptimizationPass.ApplyOptimization | lib/Optimization/KLOptimizationPass.cpp:180-201 | keeps the best prefix of the recorded moves and undoes exactly the rest |
| KLOptimizationPasses.KLOptimizationPass.BestMove | lib/Optimization/KLOptimizationPass.cpp:183-192 | the scan for the best prefix, on sticking numbers, starting from no move at all |
| KLOptimality.TracePrefix | lib/Optimization/KLOptimizationPass.cpp:72-78 | recorded moves are never revised: earlier records are prefixes of later ones |
| KLOptimality.TraceSelects | lib/Optimization/KLOptimizationPass.cpp:72-78 | every recorded move is the first maximum of its own selection |
| KLOptimality.CandidatesSplit | lib/Optimization/KLOptimizationPass.cpp:72-78 | at every selection the recorded moves and the remaining candidates divide the original candidates, none twice |
| KLOptimality.UpdateIsRecomputation | lib/Optimization/KLOptimizationPass.cpp:118-142 | adding twice the edge cost equals recomputing every gain from scratch after the move |
| KLOptimality.GainsAreRecomputed | lib/Optimization/KLOptimizationPass.cpp:72-142 | at every selection every entry of the gain array is the gain recomputed against the current partitions |
| KLOptimality.ScanFindsLastBest | lib/Optimization/KLOptimizationPass.cpp:183-192 | no prefix, the empty one included, gains more than the kept one, and every longer one gains strictly less |
| KLOptimality.LocallyOptimal | lib/Optimization/KLOptimizationPass.cpp:66-81 | when the pass ends every candidate left behind has a strictly negative gain against the final partition |
| KLOptimality.GainMonotone | lib/Optimization/KLOptimizationPass.cpp:144-167 | with non-negative weights the gain of a function grows as the insecure set shrinks |
| KLOptimality.GainsNeverDecrease | lib/Optimization/KLOptimizationPass.cpp:118-130 | between any two selections no candidate that stays has lost gain, and none has come back |
| KLOptimality.ClosedUnderGoodMoves | lib/Optimization/KLOptimizationPass.cpp:180-201 | every function reachable by a chain of moves, each neutral or better when made, is among those finally moved |
| KLOptimality.GoodCandidatesAreMoved | lib/Optimization/KLOptimizationPass.cpp:180-201 | every candidate whose initial gain is at least 0 ends up secure |
| KLSaturation.WeightIsExact | include/Analysis/Numbers.h:74-102 | non-negative weights accumulate to the exact sum if and only if no running sum or weight is a sentinel that absorbs, and to too little otherwise |
| KLSaturation.SmallGain | lib/Optimization/KLOptimizationPass.cpp:140-167 | a function with load below the sentinel has the same gain on both kinds of number, bounded by its load |
| KLSaturation.SameStates | lib/Optimization/KLOptimizationPass.cpp:72-142 | where neither initial gains nor updates lose anything every selection happens in the same state on both kinds of number |
| KLSaturation.LightSelectionsLoseNothing | lib/Optimization/KLOptimizationPass.cpp:118-142 | they lose nothing if each candidate's own load is below the sentinel |
| KLSaturation.PrefixGainBounded | lib/Optimization/KLOptimizationPass.cpp:186-187 | the running gain sum stays within the total load of the moved functions |
| KLSaturation.LosslessPassIsExact | lib/Optimization/KLOptimizationPass.cpp:66-201 | where selections and scan lose nothing the pass makes the same moves with the same gains and keeps the same prefix as on exact numbers |
| KLSaturation.ModeratePassIsExact | lib/Optimization/KLOptimizationPass.cpp:66-201 | that is so if the candidates' loads (incident weights plus absolute node cost) sum to less than 100000 |
| ExactConditions.TotalBoundIsExact | lib/Optimization/KLOptimizationPass.cpp:118-142 | every pass whose candidates' loads sum to less than a bound records exact gains, if and only if the bound is at most 100000 |
| KLSaturation.ScanEndsBeforeALoss | lib/Optimization/KLOptimizationPass.cpp:183-192 | even when its sums stick the scan keeps a prefix that is followed by a move of negative gain, or all moves |
| KLSaturation.LosslessPassIsLocallyOptimal | lib/Optimization/KLOptimizationPass.cpp:66-201 | local optimality on the program's own numbers wherever selections lose nothing and no single gain is the sentinel |
| KLSaturation.LightPassIsLocallyOptimal | lib/Optimization/KLOptimizationPass.cpp:66-201 | so whenever each candidate's own load is below the sentinel: every candidate left behind has a strictly negative gain against the final partition |
| ExactConditions.LoadBoundIsExact | lib/Optimization/KLOptimizationPass.cpp:183-197 | every pass whose candidates each load less than a bound leaves no neutral or better move behind, if and only if the bound is at most 100000 |
| KLSaturation.LightPassClosedUnderGoodMoves | lib/Optimization/KLOptimizationPass.cpp:180-201 | then every function in a chain of moves, each neutral or better when made, is finally secure |
| KLSaturation.LightPassMovesGoodCandidates | lib/Optimization/KLOptimizationPass.cpp:180-201 | and so is every candidate with an initial gain of at least 0 |
| KLSaturation.LosslessGainsNeverDecrease | lib/Optimization/KLOptimizationPass.cpp:118-130 | on the program's numbers too no candidate that stays loses gain between two selections |
| Counterexamples.HeavyGraphIsProduced | lib/Analysis/CallGraph.cpp:489-532 | 100000 call sites of each of three callers give a graph that normalisation leaves as it is |
| Counterexamples.HeavyPassMissesAGain | include/Analysis/Numbers.h:77-80 | on that graph the pass over the only movable function keeps nothing, although moving it would gain 99999 |
| CutCost.InflowIsOutflow | lib/Analysis/CallGraph.cpp:585-595 | with agreeing copies, what flows into one set from another counted at the callees is what flows out counted at the callers |
| CutCost.BothReportsAreTheCut | lib/Analysis/PartitionStatistics.cpp:115-169 | for complementary sets both totals are equal to the weight of the call edges that cross, each counted once |
| CutCost.ReportedAfterMove | lib/Optimization/KLOptimizationPass.cpp:140-167 | on any graph, how one move changes the reported switches: internal minus external less the self-call weight, plus the mismatch between the two copies of the function's edges |
| CutCost.LossAfterMove | lib/Optimization/KLOptimizationPass.cpp:140-178 | on any graph the true decrease by one move is its gain plus the weight of its self-calls minus that mismatch, which is zero if the copies agree |
| CutCost.LossOfPrefix | lib/Optimization/KLOptimizationPass.cpp:72-201 | conservation on any graph: after any prefix of the pass, start loss minus current loss is the gain sum plus the moved self-calls minus the mismatches met |
| CutCost.PassNeverWorsens | lib/Optimization/KLOptimizationPass.cpp:66-201 | on any graph the accepted gain sum is not negative, and the true decrease is that sum plus the self-calls moved minus the mismatches; so the result is never worse where self-calls cover the mismatches |
| CutCost.AgreeingCopiesAreCovered | lib/Optimization/KLOptimizationPass.cpp:148-165 | agreeing copies with non-negative weights are covered |
| ExactConditions.CoverIsExact | lib/Optimization/KLOptimizationPass.cpp:66-201 | no pass on a graph's edge copies raises the loss, whatever the node costs and the start, if and only if self-calls cover every mismatch |
| Counterexamples.LoopGraphIsProduced | lib/Analysis/CallGraph.cpp:489-532 | two callers in loops and one plain call give in-edge copies of 1, 1 and 0 and out-edge copies of 1000, 1000 and 1 |
| Counterexamples.PassRaisesLoss | lib/Optimization/KLOptimizationPass.cpp:66-201 | on that graph the pass over the only movable function moves it and raises the loss by 999 |
| CutCost.PassKeepsTheBestVisited | lib/Optimization/KLOptimizationPass.cpp:180-201 | without self-calls among candidates the final partition is the best of all that the pass visited |
| KLOptimizers.KLOptimizer.CollectPassCandidates | lib/Optimization/KLOptimizer.cpp:69-78 | the candidates are, each once, the insecure functions that are no declaration, intrinsic or main |
| KLOptimizers.KLOptimizer.Run | lib/Optimization/KLOptimizer.cpp:51-67 | one run adds exactly the kept candidates to the secure side, removes them from the insecure side and from the related functions; what is added was insecure and is no declaration, intrinsic or main; if each movable function's load is below the sentinel none left insecure has a gain of 0 or more against the final partition |
| KLOptimizers.RevertedAreTheRest | lib/Optimization/KLOptimizationPass.cpp:193-197 | every candidate is tried, and those undone are exactly those not kept |
| ILPModels.FeasibleMeans | lib/Optimization/ILPOptimization.cpp:98-149 | the feasible points are exactly: shares in [0, 1], secure functions at 1, other declarations and main at 0, and each edge at most one minus the distance of its ends |
| ILPRounding.AlwaysFeasible | lib/Optimization/ILPOptimization.cpp:132-149 | the constraint system always has a solution, the starting partition |
| ILPRounding.TightIsBest | lib/Optimization/ILPOptimization.cpp:140-156 | for given node values no edge values do better than one minus the distance of the ends |
| ILPRounding.RoundingIsOptimal | lib/Optimization/ILPOptimization.cpp:78-85 | for every optimal continuous solution the 0/1 point of the functions whose variable is exactly 1 is optimal too |
| ILPRounding.ExtractedPartitionIsBest | lib/Optimization/ILPOptimization.cpp:78-171 | the extracted set meets the pins and is at least as good as any other set that does |
| ILPValues.ValueOfPartition | lib/Optimization/ILPOptimization.cpp:151-171 | the objective of a 0/1 point is total edge weight minus cut weight plus chosen node costs; self-edges are never cut |
| NodeFactors.ValueOfFactors | lib/Optimization/ILPOptimization.cpp:157-171 | with any factors put at a node, or with either missing, taking it into a 0/1 point changes the objective by the change of the cut plus the sensitivity minus the size, unless their difference sticks |
| ILPValues.BestEdgeValues | lib/Optimization/ILPOptimization.cpp:132-171 | no feasible point with 0/1 node values exceeds that value, and it is attained |
| ILPValues.ValueIsMinusLoss | lib/Optimization/ILPOptimization.cpp:151-171 | the objective of a partition is a constant minus the loss that Kernighan-Lin lowers |
| ILPValues.IlpMinimisesLoss | lib/Optimization/ILPOptimization.cpp:64-171 | the extracted partition has the least loss among all that keep the secure functions and add no declaration and no main |
| ILPOptimizations.ILPOptimization.Run | lib/Optimization/ILPOptimization.cpp:64-86 | hands exactly the specified model to the solver and then collects exactly the functions whose variable is 1, none if the solver fails; if the solver's answer is feasible the secure functions are among them and no other declaration or main is |
| ILPOptimizations.PinsMean | lib/Optimization/ILPOptimization.cpp:134-142 | every feasible point has secure functions at 1 and every other declaration and main of the module at 0 |
| ILPOptimizations.FeasibleChoices | lib/Optimization/ILPOptimization.cpp:132-149 | a choice of functions is feasible exactly when it contains the secure ones and adds no declaration and no main |
| ILPOptimizations.ILPOptimization.Apply | lib/Optimization/ILPOptimization.cpp:88-96 | the collected functions change sides and leave the related functions |
| ILPOptimizations.ILPOptimization.CreateNodeVariables | lib/Optimization/ILPOptimization.cpp:98-108 | one variable for each node |
| ILPOptimizations.ILPOptimization.CreateEdgeVariables | lib/Optimization/ILPOptimization.cpp:111-130 | one variable for each out-edge |
| ILPOptimizations.ILPOptimization.CreateConstraints | lib/Optimization/ILPOptimization.cpp:132-149 | exactly the pins of the nodes and the two inequalities of each edge |
| ILPOptimizations.ILPOptimization.CreateObjective | lib/Optimization/ILPOptimization.cpp:151-171 | each edge variable weighs the CALL_NUM of its out-edge copy, each node variable the sticking difference of the two factors, a missing one being zero |
| Guarantees.BuiltGraphIsUsable | lib/Analysis/CallGraph.cpp:563-595 | every graph with the builder's edges meets what the optimisers ask of one |
| Guarantees.LosslessPassNeverWorsens | lib/Optimization/KLOptimizationPass.cpp:66-201 | where nothing is lost and self-calls cover the mismatches the pass on the program's numbers never raises the true loss |
| Guarantees.ModeratePassNeverWorsens | lib/Optimization/KLOptimizationPass.cpp:66-201 | so below the bound |
| Guarantees.LosslessPassKeepsTheBestVisited | lib/Optimization/KLOptimizationPass.cpp:180-201 | where nothing is lost and without self-calls the pass on the program's numbers ends in the best partition it visited |
| Guarantees.NoFurtherMoveHelps | lib/Optimization/KLOptimizationPass.cpp:66-201 | what moving one more function would cost after a pass on either kind of number, and that it is strictly positive if the function does not call itself |
| Counterexamples.RecursiveGraphIsProduced | lib/Analysis/CallGraph.cpp:489-532 | a function with n call sites in itself and n in another keeps its weights, with agreeing copies, for n up to 100000 |
| Counterexamples.RecursiveFunctionIsLeftBehind | lib/Optimization/KLOptimizationPass.cpp:144-167 | a pass on that graph leaves the function behind, although moving it would lower the true loss by n |
| ExactConditions.OnlySelfCallsHideMoves | lib/Optimization/KLOptimizationPass.cpp:144-201 | on every graph every function left behind with self-calls of weight e is strictly not worth moving, if and only if e is 0 or outside what a candidate can have |
| Guarantees.IlpIsNoWorseThanPass | lib/Optimization/ILPOptimization.cpp:64-171 | from the same start the loss of the ILP result is at most that of a pass in any candidate order on either kind of number |
| Guarantees.RunNeverWorsens | lib/Optimization/PartitionOptimizer.cpp:36-49 | however many passes a list asks for, no state of the run has a higher loss than the first, where self-calls cover the mismatches and the movable loads sum to less than 100000 |
| Guarantees.IlpAloneIsBest | lib/Optimization/PartitionOptimizer.cpp:36-100 | the optimiser with ILP alone and a solver that finds an optimum ends in a partition of least loss among all that keep the secure functions and add no declaration and no main |
| PartitionStatistics.PartitionStatistics.Report | lib/Analysis/PartitionStatistics.cpp:34-41 | for complementary partitions and agreeing copies both context-switch entries are the weight of the cut |
| PartitionStatistics.PartitionStatistics.ReportNumOfContextSwitches | lib/Analysis/PartitionStatistics.cpp:115-122 | the entry is the exact double-counted sum whenever the weights met stay below the sentinel |
| PartitionStatistics.PartitionStatistics.GetCtxSwitchesInFunction | lib/Analysis/PartitionStatistics.cpp:147-169 | the weight of one function's edge copies whose other end is outside, zero without a node |
| PartitionUtils.ComputeInInterface | lib/Utils/PartitionUtils.cpp:15-39 | the members with a call site outside the set |
| PartitionUtils.ComputeOutInterface | lib/Utils/PartitionUtils.cpp:41-79 | the functions outside the set that a call node of a member has a control edge to |
| PartitionUtils.InterfacesMirror | lib/Utils/PartitionUtils.cpp:15-79 | for complementary sets, when call sites and control edges describe the same calls, the out-interface of one is the in-interface of the other |
| Optimizations.FunctionsMoveToPartition.Run | lib/Optimization/FunctionsMoveToPartitionOptimization.cpp:30-38 | collects the defined out-interface functions that are called from the partition only, or from one of its loops |
| Optimizations.FunctionsMoveToPartition.Apply | lib/Optimization/FunctionsMoveToPartitionOptimization.cpp:40-43 | adds the collected functions to the partition |
| Optimizations.FunctionsMoveToPartition.ComputeFunctionsCalledFromPartitionOnly | lib/Optimization/FunctionsMoveToPartitionOptimization.cpp:45-66 | those not yet collected, defined, and without a call site outside |
| Optimizations.FunctionsMoveToPartition.ComputeFunctionsCalledFromPartitionLoops | lib/Optimization/FunctionsMoveToPartitionOptimization.cpp:68-87 | those not yet collected, defined, and called in a loop of the partition |
| Optimizations.FunctionsMoveToPartition.HasCallSiteOutsidePartition | lib/Optimization/FunctionsMoveToPartitionOptimization.cpp:89-98 | whether some caller is outside |
| Optimizations.FunctionsMoveToPartition.HasCallSiteInLoop | lib/Optimization/FunctionsMoveToPartitionOptimization.cpp:100-119 | whether some call site is in a loop of a function of the partition |
| Optimizations.MoveTargetsMean | lib/Optimization/FunctionsMoveToPartitionOptimization.cpp:45-119 | a defined out-interface function is moved exactly when every call site of it is in the partition or one in the partition is in a loop |
| Optimizations.GlobalsMoveToPartition.Run | lib/Optimization/GlobalsMoveToPartitionOptimization.cpp:23-31 | collects the globals of the partition that the other one does not use |
| Optimizations.GlobalsMoveToPartition.Apply | lib/Optimization/GlobalsMoveToPartitionOptimization.cpp:33-36 | the partition's globals become the collected ones |
| Optimizations.StaticAnalysis.Apply | include/Optimization/StaticAnalysisOptimization.h:27-33 | all related functions join the partition and none stays merely related |
| PipelineSpec.RunStepStaysRunning | lib/Optimization/PartitionOptimizer.cpp:39-48 | running any one optimisation keeps the partitions disjoint and covering, keeps what was secure, and leaves a record that stays inside the module |
| PipelineSpec.RunTraceStaysRunning | lib/Optimization/PartitionOptimizer.cpp:36-49 | so does running any list of optimisations |
| PipelineSpec.PipelineIsFinal | lib/Optimization/PartitionOptimizer.cpp:91-100 | applying any sound records ends in disjoint partitions that cover the module, contain every originally secure function, and leave no secure function related |
| PipelineSpec.InsecureMoveHasNoEffect | lib/Optimization/PartitionOptimizer.cpp:45-48 | leaving out the function moves that ran on the insecure partition gives the same final state |
| PipelineEffects.AppliedSecure | lib/Optimization/PartitionOptimizer.cpp:91-96 | applying records makes secure exactly what was secure, what a secure-side function move or an ILP record contains, and, if the static analysis is among them, what was related |
| PipelineEffects.FinishedSecure | lib/Optimization/PartitionOptimizer.cpp:91-100 | and leaves related, with its level, exactly what was related and has not become secure |
| PipelineEffects.LastGlobalsCount | lib/Optimization/GlobalsMoveToPartitionOptimization.cpp:33-36 | the last globals record of a side decides the globals of that side |
| PipelineEffects.NoGlobalsStay | lib/Optimization/PartitionOptimizer.cpp:91-100 | without such a record they stay as they are |
| PipelineEffects.StatesOfRun | lib/Optimization/PartitionOptimizer.cpp:36-49 | every run goes through states in the order of the list, changed by passes only, and its records take exactly what a function move or the solver chose in the state it ran in |
| PipelineEffects.RunGrows | lib/Optimization/PartitionOptimizer.cpp:36-49 | until the apply phase only functions that are no declaration, intrinsic or main become secure, only by passes, and nothing else changes |
| PipelineEffects.NothingToGainAfterPass | lib/Optimization/PartitionOptimizer.cpp:36-49 | from the first pass in the list on, with loads below the sentinel, no movable insecure function has a gain of 0 or more |
| PipelineEffects.FinalSecure | lib/Optimization/PartitionOptimizer.cpp:36-100 | secure in the end is exactly what was at the end of the run phase, what was decided during it, and what was related if the static analysis is in the list |
| PipelineEffects.FinalGlobals | lib/Optimization/PartitionOptimizer.cpp:36-100 | each side ends with its globals that the other did not use if the global move is in the list, and with its own otherwise |
| PipelineEffects.OutsidersStay | lib/Optimization/PartitionOptimizer.cpp:36-100 | with a solver whose answers are feasible a declaration becomes secure only as a related function taken by the static analysis, and a main only so or by the function move |
| PartitionOptimizers.PartitionOptimizer.Run | lib/Optimization/PartitionOptimizer.cpp:36-51 | for every list of optimisations: the final secure functions are exactly those at the end of the run phase, those decided on the way and, with STATIC_ANALYSIS, the related ones; related functions and the globals of both sides are given by the start and the list; followers of the first secure functions are secure with FUNCTIONS_MOVE_TO; a pass leaves nothing to gain; declarations and main stay outside unless taken as said above; the partitions split the module and keep what was secure; the four interfaces are recomputed and mirror each other |
| PartitionOptimizers.PartitionOptimizer.RunPhase | lib/Optimization/PartitionOptimizer.cpp:38-49 | the list of optimisation objects matches the records of a specified run |
| PartitionOptimizers.PartitionOptimizer.RunOne | lib/Optimization/PartitionOptimizer.cpp:53-89 | what each kind of optimisation finds, function and global moves on both sides |
| PartitionOptimizers.PartitionOptimizer.Apply | lib/Optimization/PartitionOptimizer.cpp:91-105 | applies every object in order, separates the partitions, recomputes the interfaces |
| PartitionOptimizers.PartitionOptimizer.ApplyOne | lib/Optimization/PartitionOptimizer.cpp:94-96 | what each kind of object does to the members, related functions and globals of each side, and that it does nothing else |
| PartitionOptimizers.PartitionOptimizer.Separate | lib/Optimization/PartitionOptimizer.cpp:97-100 | secure functions leave the insecure partition and the related functions |
| PartitionOptimizers.PartitionOptimizer.UpdateInterfaces | lib/Optimization/PartitionOptimizer.cpp:101-104 | all four interfaces are those of the current members |
| Partitions.Partition.AddRelatedFunctions | lib/Analysis/Partition.cpp:146-155 | pointwise union of the levels, the smaller winning |
| Partitions.Partition.AddPartition | lib/Analysis/Partition.cpp:58-65 | every set is joined and the levels are merged |
| Partitions.Partition.AddRelatedFunction | lib/Analysis/Partition.cpp:67-70 | an existing level is kept |
| Partitioners.JoinAllMeans | lib/Analysis/Partition.cpp:58-65 | merging any list gives the union of members and, for each related function, the least level any part records |
| Partitioners.MergeOrderDoesNotMatter | lib/Analysis/Partition.cpp:146-155 | members, related functions and levels depend only on which partitions are merged |
| Partitioners.AnnotationOrderDoesNotMatter | lib/Analysis/Partitioner.cpp:546-561 | nor on the order or repetition of the annotations |
| Partitioners.PartitionGlobals | lib/Analysis/Partitioner.cpp:504-529 | the globals with an edge from or to a node of one of the functions |
| Partitioners.Partitioner.PartitionModule | lib/Analysis/Partitioner.cpp:546-569 | the secure partition merges all analyses, the insecure one is its complement, globals and interfaces are recomputed for both |
| Partitioners.Partitioner.ComputeInsecurePartition | lib/Analysis/Partitioner.cpp:531-544 | the insecure partition is the rest of the module, with the globals it references and its interfaces |
| Partitioners.PartitionerStartsPipeline | lib/Analysis/Partitioner.cpp:546-569 | partitions built this way meet what the optimiser pipeline starts from |
| ReturnTraversal.PartitionForReturnValue.Traverse | lib/Analysis/Partitioner.cpp:450-502 | terminates on every finite graph whose valued nodes have non-null values; visits only, and with distinct values all, valued nodes reachable backwards without passing a function node; related functions are defined ones visited, and all of those unless a level was missing, which cannot happen where nodes have parents; every level is the length of a real walk, and where nodes have parents and distinct values it is at most the number of crossings between functions on any path of fewest steps from a root to the function's node |
| ReturnTraversal.PartitionForReturnValue.UpdateFunctionLevel | lib/Analysis/Partitioner.cpp:209-229 | the level of the new function is lowered to one more than the current one, or the same within one function, and nothing happens without both parents and a level |
| ReturnTraversal.PartitionForReturnValue.AddRelatedFunction | lib/Analysis/Partitioner.cpp:231-240 | records the level, or reports that it is missing and records nothing |
| ReturnTraversal.PartitionForReturnValue.PushSources | lib/Analysis/Partitioner.cpp:490-500 | puts exactly the processable sources in front of the list, keeps the levels sound and passes a known level on to the functions of the sources |
| TraversalSpec.SearchEnds | lib/Analysis/Partitioner.cpp:465-502 | when the list is empty the visited nodes are exactly the reachable valued ones |
| TraversalSpec.VisitKeeps | lib/Analysis/Partitioner.cpp:480-500 | visiting a node keeps the search sound and complete |
| TraversalSpec.DropKeeps | lib/Analysis/Partitioner.cpp:468-479 | skipping a node without a value, or with one met before, loses nothing |
| TraversalSpec.WalkExtends | lib/Analysis/Partitioner.cpp:224-228 | one crossing between functions lengthens a walk by one |
| TraversalOrder.NextLayer | lib/Analysis/Partitioner.cpp:465-468 | when all nodes of one distance from the roots have been taken off, those queued are of the next distance |
| TraversalOrder.VisitLayered | lib/Analysis/Partitioner.cpp:490-500 | visiting a node keeps the list in the order of distance |
| TraversalOrder.NewNodeIsBounded | lib/Analysis/Partitioner.cpp:465-500 | when a node is taken off, the level of its function is at most the crossings of every shortest path to it |
| TraversalOrder.NewRecordIsNear | lib/Analysis/Partitioner.cpp:480-489 | so a level that is newly recorded is at most the crossings of every nearest path to a node of the function |
| CallGraphBuilders.CallGraphBuilder.Create | lib/Analysis/CallGraph.cpp:563-575 | every edge stands exactly once in its caller's out-list and once in its callee's in-list, precisely when the input records such a call between functions |
| CallGraphBuilders.CallGraphBuilder.GetOrAddNode | lib/Analysis/CallGraph.cpp:577-583 | existing nodes are kept, a missing one is added without edges |
| CallGraphBuilders.CallGraphBuilder.AddNodeConnections | lib/Analysis/CallGraph.cpp:585-595 | one more recorded call; a repeated one and one to no function change nothing |
| CallGraphBuilders.CallGraphNode.AddOutEdge | include/Analysis/CallGraph.h:222-229 | only the first edge to a child is inserted, and that is reported |
| CallGraphBuilders.CallGraphNode.AddInEdge | include/Analysis/CallGraph.h:217-220 | the edge is appended |
| CallGraphBuilders.EdgesStayInside | lib/Analysis/CallGraph.cpp:585-595 | both ends of every edge are nodes of the graph |
| Weights.NormalizedKeepsOrder | lib/Analysis/CallGraph.cpp:518-532 | with two different weights, results lie in [0, 1] and are ordered as before |
| Weights.ScaleIsLinear | lib/Analysis/CallGraph.cpp:523-531 | a scaled weight times the range is its distance from the minimum; a single value stays |
| Weights.AgreementIsSameWeights | lib/Analysis/CallGraph.cpp:585-595 | the copies agree on the graph exactly when each call weighs the same on both sides |
| Weights.NormalizedCopiesAgree | lib/Analysis/CallGraph.cpp:518-532 | copies that carry the counts, the in-edge copies rescaled by their range, agree exactly when all counts are the same |
| CallCounts.CountIsWhole | lib/Analysis/CallGraph.cpp:489-507 | a caller's count is a whole number from 1 up to the sentinel, so truncating it loses nothing |
| CallCounts.PlainCallsCount | lib/Analysis/CallGraph.cpp:495-504 | a caller without a call from a loop counts as often as it calls, up to 100000 |
| CallCounts.LastLoopCallCounts | lib/Analysis/CallGraph.cpp:495-504 | otherwise the last call from a loop sets the count to 1000, whatever came before, and the plain calls after it are added, up to 100000 |
| CallCounts.AssignedWeights | lib/Analysis/CallGraph.cpp:405-450 | after the two assignment loops both copies of each edge carry its count, or nothing without call site data |
| CallCounts.CollectedRange | lib/Analysis/CallGraph.cpp:424-424 | the range of the collected weights is the range of the counts |
| CallCounts.RescaledWeights | lib/Analysis/CallGraph.cpp:509-532 | normalising the collected weights rescales the in-edge copies of the counted calls and nothing else |
| CallCounts.NormalisedAgreement | lib/Analysis/CallGraph.cpp:405-532 | afterwards the copies agree exactly when all counted calls have the same count |
| WeightAssigning.CollectFunctionCallSiteData | lib/Analysis/CallGraph.cpp:489-507 | for each function with a dependence graph, what the call sites of each caller count for |
| WeightAssigning.WeightAssigningHelper.AssignInEdges | lib/Analysis/CallGraph.cpp:410-426 | every in-edge of a function with data gets its count and is pointed to exactly once |
| WeightAssigning.WeightAssigningHelper.AssignOutEdges | lib/Analysis/CallGraph.cpp:430-449 | every out-edge gets its count where there is one |
| WeightAssigning.WeightAssigningHelper.AssignCallNumWeights | lib/Analysis/CallGraph.cpp:405-450 | both loops in turn, on counts collected first |
| WeightAssigning.WeightAssigningHelper.NormalizeWeights | lib/Analysis/CallGraph.cpp:518-532 | in place, exactly the weights pointed to are scaled by their range, a single value being left alone |
| WeightAssigning.WeightAssigningHelper.AssignWeights | lib/Analysis/CallGraph.cpp:405-532 | from a fresh graph, edges stay as built, both copies end with the weights described, and the copies agree exactly when all counted calls have the same count |
| Counterexamples.LoopAndPlainCallDisagree | lib/Analysis/CallGraph.cpp:405-532 | on the graph of those call sites the copies differ |
| SGXCodeGenerator.GenerateEcallWrapper | lib/CodeGen/SGXCodeGenerator.cpp:491-516 | the caller's stub (lines 307-333 are the same for calls out of the enclave) |
| SGXCodeGenerator.GenerateEnclaveEcall | lib/CodeGen/SGXCodeGenerator.cpp:258-305 | the handler (lines 431-478 are the same for calls out of the enclave) |
| SGXCodeGenerator.HandlerDelivers | lib/CodeGen/SGXCodeGenerator.cpp:258-305 | the handler passes the i-th argument sent to the i-th parameter and leaves the result below its parameter copies |
| SGXCodeGenerator.CallCrossesBoundary | lib/CodeGen/SGXCodeGenerator.cpp:258-305 | stub against handler, for every signature: one call with the arguments in order, the result back in the caller's variable, an empty stack, and the parameter copies reversed |
| SGXCodeGenerator.CopiesReturnInPlace | lib/CodeGen/SGXCodeGenerator.cpp:300-304 | interpreting the stub against the handler leaves every parameter of the caller with its value, for all arguments and callees, exactly when there is at most one parameter |

## Left out

- Rounding of doubles: values are exact reals. An expression that mixes a number of
  the cost model with a plain integer, such as `2 * cost`, is plain arithmetic in the
  program and exact here; sums and differences of two such numbers stick.
- The overflow and underflow branches of the sum cannot be taken over exact reals.
- The solver: a parameter that may fail; optimality is a hypothesis of the theorems
  that need it. Its tolerances and the exported model file are not modelled.
- ReturnTraversal.PartitionForReturnValue.Traverse: nodes with an LLVM value are
  assumed to have a non-null one, without which the loop need not end. Where the program
  asserts that a level is known, the model goes on and says so in its result. The nodes
  of the return instructions are a parameter.
- PartitionOptimizers.PartitionOptimizer.Run: the duplicates optimisation is asked for
  only after the function move has come first in the list, as the program's fixed
  positions demand; it has no effect on membership.
- Partitioners.Partitioner.PartitionModule: the three analyses of an annotation are
  given as values.
- WeightAssigning.WeightAssigningHelper.AssignWeights: the CALL_NUM factor only; the
  other factors (arguments, return value, size, sensitivity) are given as numbers. Call
  sites are assumed known for every in-edge of a function with a dependence graph, as
  the unchecked lookup at lib/Analysis/CallGraph.cpp:420 demands.
- A function has one node, so the end of an edge is named by the function.
- The saturating multiplication: the core multiplies by coefficients only.
- The forward and backward traversals from annotated arguments, whose termination
  depends on the shape of the dependence graph.
- Statistics other than context switches.
- The text of generated code: types, allocation forms, selectors, status returns.
- Extraction of the partitions from the program, annotation parsing, file and log
  output, command-line passes, debugging and evaluation scripts.
