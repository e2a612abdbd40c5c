# Verified model of MemInstrument's witness propagation and SoftBound code placement

MemInstrument is a compiler pass that makes C programs memory safe. It collects *targets*
(pointers that must be checked, or whose bounds must be handed on, at some instruction), and for
every target needs a *witness*: the bounds of the object the pointer was derived from. This
project models the parts of the pass whose correctness is not local to one function, and proves
them:

- **SSA programs and their runs** (`Ssa`, `Targets`, `Displacement`). A function is a
  control-flow graph over instruction positions; a run is any path through it from the entry, with
  the origin of every pointer before each step. Select conditions and branches are arbitrary.
- **Building the witness graph** (`WitnessGraphs`, `Walks`). The mutable graph of targets and
  requirements, built recursively from pointer uses back to pointer sources, over arbitrary loops.
- **Propagating flags** (`FlagPropagation`). The worklist, and why its result is the least one.
- **Simplifying the graph** (`PhiCollapse`, `PhiTermination`, `TameFunctions`, `CollapseSoundness`,
  `Unchanged`, `MovedConstants`, `Simplification`). The optimistic phi analysis and why it ends, the
  rewiring of the graph, removal of dead nodes, and the search that drops invariants of pointers
  that have not moved.
- **Creating the witnesses** (`WitnessCode`, `WitnessRuns`, `CreationOrder`, `WitnessCreation`,
  `WitnessGeneration`). The memoised recursion that inserts a shadow data flow of witness phis and
  selects, the order in which it does so, and what this code computes in every run of the
  instrumented function.
- **Removing dominated checks** (`DominanceRemoval`). The elimination loop and its soundness over
  runs.
- **SoftBound's shadow stack** (`AscendingLists`, `ShadowStackSlots`, `PointerBoundsPolicy`,
  `CallLayout`, `CallResults`, `ShadowStackProtocol`, `CallExecution`, `FunctionExecution`). Slot
  numbers as caller and callee compute them, the code placed around calls, returns and stores, where
  the results of calls are loaded, the protocol over trees of calls, and what executing the emitted
  code does to the stack, for one call, a function, and whole trees of calls.
- **SoftBound's global initialisers** (`Initializers`). One metadata store per pointer, and what the
  stored bounds admit.

How the main results connect: `GenerateWitnesses` runs all phases and returns code together with a
witness map for each target; `WitnessOfTarget` and `WitnessOfArgument` say, for such code and maps,
that in every run the witness a target uses holds the origin of the target's pointer at that moment.
It also fixes the order of the inserted code (`InOrderOf`). From this alone follow what stands around a
call (`CallCode`), what executing these lines does to the shadow stack (`CallRuns`, `LateCallRuns`), and
that every tree of calls of functions with such code keeps to the protocol (`EmittedCallTree`).

Run times and the C run-time library do not appear, and addresses only where checks compare them: an
origin stands for one execution of an allocation, call or load, a witness holds an origin, and a
mechanism is assumed to make a witness inserted for a source describe that source's latest value. A dereference check asks for
`lower <= p && p + size <= upper`, an invariant for `lower <= p <= upper`, without wrap-around.
Targets that are checks always ask for both bounds, as the constructors of the original do by default.

Every lemma carries `{:induction false}`: no proof rests on automatic induction.

Where the original does not do what it is meant to do, the code is modelled as it is:

- `clearRequirements` (lib/pass/WitnessGraph.cpp:26-34) erases the wrong entries. The two edge
  directions stay in step exactly if the cleared node required nothing but itself
  (`ClearedMirroredIff`). The simplifier has finished reading the backward edges by then.
- A result of a call can be loaded from the shadow stack after its frame has been given up: the
  search for the place of the deallocation stops at the first instruction that is not such a load
  (lib/instrumentation_mechanisms/SoftBoundMechanism.cpp:1967-2008), and the witness of a select
  right behind the call stands there if it was asked for before the call's results were.
  `ResultLoadedTooLate` shows such a function, for all code that can be created for it.
  `ResultsInFrameIff` gives the exact condition on a function and its targets, and
  `LateByTargetOrder` and `LateOnlyByTargetOrder` put it in terms of the order of the targets.
  `LateCallRuns` says what executing such code comes to: it succeeds only if the frame below, which is
  another call's, happens to hold the bounds that are looked for.
- Address computations inside constants are looked through when the graph is built
  (lib/witness_strategies/AfterInflowStrategy.cpp:58-65), so that an invariant can be dropped although
  its pointer has moved: `MovedConstantIsDropped` is an example, `DropJustifiedIff` the exact condition.
  `DroppedIffNeverMoved` says that apart from this the search finds exactly the pointers that never move.
- A call that returns an array of numbers gets a frame with one slot per element, although no
  metadata is handed over (lib/instrumentation_mechanisms/SoftBoundMechanism.cpp:1636-1638, against
  the comment at 1025-1028): `FrameForNumbers` is the family of such calls, and `FrameIffPointers`
  says that these are all the calls for which frames and handed-over pointers disagree.

## Model

| member | source | states |
|---|---|---|
| `WitnessGraphs.WitnessGraph.GetInternalNodeOrNull` | lib/pass/WitnessGraph.cpp:57-66 | finds the node for a target if the graph has one, and only then |
| `WitnessGraphs.WitnessGraph.GetInternalNode` | lib/witness_strategies/WitnessStrategy.cpp:13-29 | there is one node per kind, instrumentee and location afterwards, with the wanted target; source nodes count as complete |
| `WitnessGraphs.WitnessGraph.AddRequirement` | lib/pass/WitnessGraph.cpp:19-24 | exactly one edge is added, in both directions |
| `WitnessGraphs.AddEdgeMirrored` | lib/pass/WitnessGraph.cpp:19-24 | adding an edge keeps the lists of both directions equal as multisets |
| `WitnessGraphs.WitnessGraph.ClearRequirements` | lib/pass/WitnessGraph.cpp:26-34 | unlinks the node's requirements; of the backward lists, erases the entries equal to the requirement |
| `WitnessGraphs.ClearedMirroredIff` | lib/pass/WitnessGraph.cpp:26-34 | after clearing a node the two directions agree if and only if it required nothing but itself |
| `WitnessGraphs.WitnessGraph.RequireRecursively` | lib/witness_strategies/WitnessStrategy.cpp:31-38 | the node requires the value at the location next, which itself has all its requirements |
| `WitnessGraphs.WitnessGraph.RequireSource` | lib/witness_strategies/WitnessStrategy.cpp:40-47 | the node requires the source next |
| `WitnessGraphs.WitnessGraph.AddRequired` | lib/witness_strategies/AfterInflowStrategy.cpp:79-241 | terminates on every SSA function; afterwards every node of the graph has exactly the requirements its instrumentee asks for, no finished node has changed, and the two edge directions agree |
| `WitnessGraphs.WitnessGraph.RequireArguments` | lib/witness_strategies/AfterInflowStrategy.cpp:86-93 | a call invariant requires the value of each required argument, in order |
| `WitnessGraphs.WitnessGraph.RequireOperands` | lib/witness_strategies/AfterInflowStrategy.cpp:100-199 | a node for an instruction requires its operands at the instruction, or its source right behind it |
| `WitnessGraphs.WitnessGraph.RequirePhi` | lib/witness_strategies/AfterInflowStrategy.cpp:133-153 | a use of a phi requires the node of the phi itself, which is expanded once |
| `WitnessGraphs.WitnessGraph.ExpandPhi` | lib/witness_strategies/AfterInflowStrategy.cpp:142-152 | the node of a phi requires each incoming value at the end of its block |
| `WitnessGraphs.WitnessGraph.RequireLeaf` | lib/witness_strategies/AfterInflowStrategy.cpp:204-238 | arguments and plain constants require a source at the function's entry, looking through constant expressions; undefined and aggregate constants one where they are used |
| `WitnessGraphs.WitnessGraph.InsertRequiredTarget` | lib/pass/WitnessGraph.cpp:68-73 | the target gets an external node of its own, and the graph is complete again |
| `WitnessGraphs.ExpectedBelow` | lib/witness_strategies/AfterInflowStrategy.cpp:79-241 | what a target requires is defined earlier, unless the target is a phi with several operands |
| `WitnessGraphs.CycleThroughPhi` | lib/witness_strategies/AfterInflowStrategy.cpp:133-153 | every requirement cycle passes through the node of a phi with several operands |
| `WitnessCreation.RootsAreSources` | lib/witness_strategies/WitnessStrategy.cpp:21-29 | the internal nodes without requirements are exactly the source nodes |
| `Targets.OperandOk` | lib/witness_strategies/AfterInflowStrategy.cpp:155-199 | the operands that selects, address computations, casts and aggregate accesses require are defined on all paths to the place where they are required |
| `Targets.LeafSource` | lib/witness_strategies/AfterInflowStrategy.cpp:42-76 | the source of an argument or a plain constant is itself, at the entry; of an undefined or aggregate constant itself, where it is used; of an address computation or a cast what is left when all of these are taken off, at the entry |
| `Ssa.ConstSameOrigin` | lib/witness_strategies/AfterInflowStrategy.cpp:42-76 | if casts and address computations each have the origin of their operand, every constant has that of its source, throughout every run |
| `Targets.SourceTargetOk` | lib/witness_strategies/AfterInflowStrategy.cpp:102-122 | a source node is placed where its value is defined on all paths, and holds the pointers the node that requires it asks for |
| `Targets.NextDominates` | lib/witness_strategies/AfterInflowStrategy.cpp:102-122 | the place right behind a source dominates whatever the source strictly dominates |
| `FlagPropagation.Propagation.JoinFlags` | lib/pass/ITarget.cpp:543-559 | joins the other target's flags, and reports a change exactly if there was one |
| `FlagPropagation.Propagation.PropagateFlags` | lib/pass/WitnessGraph.cpp:75-93 | terminates; afterwards flags only grow along requirements, and a node has a flag if and only if some external node with the flag leads to it |
| `FlagPropagation.Propagation.PassOn` | lib/pass/WitnessGraph.cpp:81-90 | one worklist step keeps all nodes not waiting settled; it sets a flag or leaves everything as it was |
| `FlagPropagation.LeastClosed` | lib/pass/WitnessGraph.cpp:75-93 | no assignment that respects the external flags and the edges has fewer flags |
| `FlagPropagation.ExternalFlagsStay` | lib/pass/WitnessGraph.cpp:75-93 | a node that nothing requires gains no flags |
| `PhiCollapse.Analysis.UpdateWitnessNode` | lib/witness_strategies/AfterInflowStrategy.cpp:426-470 | the loop over requiring nodes computes the function `Update`: it yields the same entries, and gives up on the recursion depth exactly when that does |
| `PhiCollapse.UpdateSettles` | lib/witness_strategies/AfterInflowStrategy.cpp:426-470 | on any graph, cycles included: a result satisfies all equations except those pending before, and an entry of a root stays |
| `PhiTermination.AcyclicUpdates` | lib/witness_strategies/AfterInflowStrategy.cpp:460-469 | on a graph without cycles the recursion is no deeper than the graph has nodes, from any node and any entries |
| `PhiTermination.RootUpdates` | lib/witness_strategies/AfterInflowStrategy.cpp:426-470 | on any graph in which no extraction is kept, the same for the recursion that starts at a root after any number of others have been handled |
| `TameFunctions.NoPhiNoCycle` | lib/witness_strategies/AfterInflowStrategy.cpp:133-153 | without phis of several operands among its targets, a graph has no cycle |
| `TameFunctions.NoLoopNoCycle` | lib/witness_strategies/AfterInflowStrategy.cpp:133-153 | a function whose points can be ordered along the control flow has a graph without cycles, phis included |
| `TameFunctions.TameFunction` | lib/witness_strategies/AfterInflowStrategy.cpp:450-455 | so the analysis ends for every function that has no loop or extracts no pointer |
| `PhiCollapse.Analysis.EvaluateNode` | lib/witness_strategies/AfterInflowStrategy.cpp:430-455 | the entry is the node itself if its requirements' entries differ or it is kept, and otherwise their common entry |
| `PhiCollapse.MergeAgreed` | lib/witness_strategies/AfterInflowStrategy.cpp:433-443 | requirements that do not conflict all have the common entry or none yet |
| `PhiCollapse.MergeConflict` | lib/witness_strategies/AfterInflowStrategy.cpp:433-443 | a conflict is reported only if two requirements have different entries |
| `PhiCollapse.CollapsedExactly` | lib/witness_strategies/AfterInflowStrategy.cpp:426-470 | in a solution, a node whose requirements have one common entry shares it, and one that is kept or whose requirements have different entries is its own; with or without kept extractions |
| `PhiCollapse.PassesThroughEntry` | lib/witness_strategies/AfterInflowStrategy.cpp:526-537 | in a solution every walk from a node to a root passes through the node's entry, which is its own entry |
| `PhiCollapse.EntryReachesSameRoots` | lib/witness_strategies/AfterInflowStrategy.cpp:544-556 | a root that a node leads to is one that its entry leads to |
| `CollapseSoundness.EntryDominates` | lib/witness_strategies/AfterInflowStrategy.cpp:548-551 | every node gets an entry, so the assertion before the rewiring holds, and the entry's location dominates the node's |
| `CollapseSoundness.NoSiblingEntry` | lib/witness_strategies/AfterInflowStrategy.cpp:548-556 | no phi is collapsed into another phi of its block |
| `CollapseSoundness.SameOriginOnRun` | lib/witness_strategies/AfterInflowStrategy.cpp:526-557 | in every run, whenever a node's location executes, the node's pointer and that of its entry have the same origin |
| `CollapseSoundness.EntryBelow` | lib/witness_strategies/AfterInflowStrategy.cpp:548-556 | a node is collapsed into an earlier definition, so the collapsed graph gains no cycle |
| `Simplification.Solve` | lib/witness_strategies/AfterInflowStrategy.cpp:530-542 | started from all roots, the analysis yields a solution of all equations; it does end, with a depth of at most the number of nodes, if the graph has no cycle or no extraction is kept |
| `Simplification.Rewire` | lib/witness_strategies/AfterInflowStrategy.cpp:544-556 | exactly the nodes that are not their own entry now require their entry, and nothing else |
| `Simplification.CollapsedRequiresEntry` | lib/witness_strategies/AfterInflowStrategy.cpp:544-556 | so a node all of whose requirements have one entry, and that is not kept, requires this entry alone afterwards, and any other node what it did |
| `Simplification.MarkAsReachable` | lib/pass/WitnessGraph.cpp:219-229 | adds nodes the start node leads to, and all of them |
| `Simplification.RemoveDeadNodes` | lib/pass/WitnessGraph.cpp:232-263 | keeps exactly the valid external nodes and the internal nodes they lead to |
| `Simplification.OnlyInOrder` | lib/pass/WitnessGraph.cpp:232-263 | the nodes that are kept stay in the order of the original lists |
| `Simplification.SimplifyWitnessGraph` | lib/witness_strategies/AfterInflowStrategy.cpp:503-557 | the simplified graph still serves for creating witnesses: exactly the nodes that are not their own entry in a solution require their entry instead, and every node left requires what its target asks for, or one earlier node with the same origins in every run; ends whenever the analysis is known to |
| `Unchanged.DidNotChangeSinceWitness` | lib/witness_strategies/AfterInflowStrategy.cpp:472-500 | gives up only if some required node is located at an address computation with a non-zero index, and otherwise has seen all required nodes |
| `Unchanged.IsDroppable` | lib/witness_strategies/AfterInflowStrategy.cpp:521-530 | an invariant is droppable if and only if no node it requires, directly or not, is located at such an address computation |
| `Unchanged.InvalidateUnchanged` | lib/witness_strategies/AfterInflowStrategy.cpp:518-530 | exactly the droppable external targets lose their validity |
| `Unchanged.DroppableIff` | lib/witness_strategies/AfterInflowStrategy.cpp:518-530 | only argument, value and call invariants are dropped, and of these exactly those that require nothing located at an address computation with a non-zero index; never a size check, a check of a called pointer, or a plain request for bounds |
| `Unchanged.DroppedPasses` | lib/witness_strategies/AfterInflowStrategy.cpp:518-530 | in every run with addresses, if the source's address is within its bounds, all bytes that the dropped target's check covers are within them when it is reached |
| `Displacement.DistancesDisplace` | lib/witness_strategies/AfterInflowStrategy.cpp:472-500 | displacements are the distances between the addresses of pointers and of their sources in such runs |
| `Displacement.AddressRunExists` | lib/witness_strategies/AfterInflowStrategy.cpp:133-169 | every path of a function is that of a run with addresses, whatever selects select and however far address computations move |
| `Unchanged.DroppedIsUnmoved` | lib/witness_strategies/AfterInflowStrategy.cpp:518-530 | the pointer of a dropped invariant equals the source pointer it was derived from, in every run, if it cannot come from a constant with an offset |
| `Unchanged.MovedConstantIsDropped` | lib/witness_strategies/AfterInflowStrategy.cpp:58-65 | for every offset other than zero, an invariant of that constant address computation is dropped although its pointer is off by this offset in some run |
| `MovedConstants.DropJustifiedIff` | lib/witness_strategies/AfterInflowStrategy.cpp:472-500 | for scalar pointers, the pointer of a dropped invariant equals its source pointer in every run if and only if it cannot come from a constant whose offsets add up to something other than zero |
| `MovedConstants.DroppedIffNeverMoved` | lib/witness_strategies/AfterInflowStrategy.cpp:472-530 | for scalar pointers, an invariant's pointer equals its source pointer in every run if and only if the invariant is dropped and cannot come from such a constant; so no invariant is kept whose pointer never moves |
| `MovedConstants.DisplacedAlong` | lib/witness_strategies/AfterInflowStrategy.cpp:472-500 | if requirements lead from a target to a pointer that some run moves, some run carries it to the target |
| `Displacement.RunExists` | lib/witness_strategies/AfterInflowStrategy.cpp:133-169 | every path of a function is that of a run, whatever its selects select and however far its address computations move |
| `WitnessCreation.WitnessCreator.CreateWitness` | lib/witness_strategies/AfterInflowStrategy.cpp:243-421 | terminates on every complete or simplified graph; the node gets a witness for each pointer or required argument, code is only added, and all witness maps describe their targets |
| `WitnessCreation.WitnessCreator.InsertWitnesses` | lib/instrumentation_mechanisms/SoftBoundMechanism.cpp:141-242 | a source gets one new witness for each of its pointers, with consecutive numbers in the order of their indices; another node gets none |
| `WitnessCreation.WitnessCreator.ReuseSingle` | lib/witness_strategies/AfterInflowStrategy.cpp:292-321 | the witness of a single requirement serves for the node; of an aggregate, the extracted one |
| `WitnessCreation.WitnessCreator.CombineInsert` | lib/witness_strategies/AfterInflowStrategy.cpp:327-361 | an aggregate with an inserted pointer has that pointer's witness at its index, and the aggregate's elsewhere |
| `WitnessCreation.WitnessCreator.CombinePhi` | lib/witness_strategies/AfterInflowStrategy.cpp:363-394 | a phi gets a witness phi for each pointer, complete when the recursion through its loop is over |
| `WitnessCreation.WitnessCreator.AddIncoming` | lib/instrumentation_mechanisms/SoftBoundMechanism.cpp:279-300 | each witness phi gets, for one more block, a witness of the value that comes from there |
| `WitnessCreation.WitnessCreator.CombineSelect` | lib/witness_strategies/AfterInflowStrategy.cpp:396-416 | a select gets a witness select for each pointer |
| `WitnessCreation.WitnessCreator.InsertSelect` | lib/instrumentation_mechanisms/SoftBoundMechanism.cpp:302-336 | the witness select chooses between witnesses of the two values under the select's own condition |
| `WitnessCreation.WitnessCreator.CombineArguments` | lib/witness_strategies/AfterInflowStrategy.cpp:265-290 | a call invariant gets the witness of every required argument |
| `WitnessCreation.ArgumentWitnesses` | lib/witness_strategies/AfterInflowStrategy.cpp:279-286 | a value's witness is recorded at every argument number the value is passed at |
| `WitnessCreation.SingleDescribes` | lib/witness_strategies/AfterInflowStrategy.cpp:292-321 | a witness for the one value an address computation, cast, extraction, one-operand phi or constant is made from describes the result |
| `WitnessCode.WitnessInSync` | lib/instrumentation_mechanisms/SoftBoundMechanism.cpp:256-336 | in every run of the instrumented code, a witness that has executed holds the origin of the pointer it stands for, around loops as well |
| `WitnessCode.DescribedInEveryRun` | lib/instrumentation_mechanisms/SoftBoundMechanism.cpp:256-336 | a witness recorded for a value at a place evaluates there to the value's origin, in every run |
| `WitnessRuns.WitRunExists` | lib/instrumentation_mechanisms/SoftBoundMechanism.cpp:256-336 | every run of a function is one of its instrumented code: the inserted code can be executed along any path, with one value for each witness phi |
| `WitnessGeneration.GenerateWitnesses` | lib/pass/WitnessGeneration.cpp:22-71 | runs all phases: in the code every witness phi has all its operands and every witness is defined on all paths to its uses, exactly the targets that have not been dropped are fully witnessed, flags are the least ones, a size check, a check of a called pointer or a request for bounds is never dropped, and without simplification the instructions stand in the order of `HandledAll`; the simplifier can give up only on a function with a loop, a requirement cycle and an extracted pointer |
| `WitnessGeneration.CreateWitnesses` | lib/pass/WitnessGraph.cpp:95-101 | every external node is fully witnessed in the end, and the code of an unsimplified graph consists of the instructions of the handled targets, in order |
| `CreationOrder.HandledIffLedTo` | lib/witness_strategies/AfterInflowStrategy.cpp:243-421 | exactly the targets that the given targets lead to are handled |
| `CreationOrder.AllHandledProper` | lib/witness_strategies/AfterInflowStrategy.cpp:248-263 | no source is handled twice |
| `WitnessGeneration.ExactArguments` | lib/witness_strategies/AfterInflowStrategy.cpp:265-290 | a call invariant's map has exactly the required argument numbers as keys, each with the witness of that argument |
| `WitnessGeneration.DroppedTargetPasses` | lib/pass/WitnessGeneration.cpp:53-61 | a target that is left without witnesses needs none: its check would have passed |
| `WitnessGeneration.WitnessOfTarget` | lib/pass/WitnessGeneration.cpp:53-61 | in every run that reaches a target, the witness in its map is the origin of the target's pointer |
| `WitnessGeneration.WitnessOfArgument` | lib/pass/WitnessGeneration.cpp:53-61 | the same for each required argument of a call |
| `DominanceRemoval.SubsumesTransitive` | lib/optimizations/DominanceBasedCheckRemovalPass.cpp:100-137 | subsumption is transitive across constant sizes, variable sizes and invariants |
| `DominanceRemoval.HasLeastCoverer` | lib/optimizations/DominanceBasedCheckRemovalPass.cpp:72-95 | a target that some valid target subsumes and strictly dominates has one among these that nothing makes superfluous |
| `DominanceRemoval.UpdateITargetsForFunction` | lib/optimizations/DominanceBasedCheckRemovalPass.cpp:53-96 | a target stays valid if and only if no target valid at the start subsumes and strictly dominates it, whatever the order of the targets |
| `DominanceRemoval.RemovedIffOutdone` | lib/optimizations/DominanceBasedCheckRemovalPass.cpp:100-137 | a valid target is removed if and only if a valid target that strictly dominates it checks the same pointer and either is a size check of its kind that covers as many bytes whatever values there are, or it is itself an argument or value invariant and these are to be optimised |
| `DominanceRemoval.WiderRemoves` | lib/optimizations/DominanceBasedCheckRemovalPass.cpp:113-124 | a size check is removed for any strictly dominating one of its kind on its pointer that is never narrower |
| `DominanceRemoval.CheckRemovesInvariant` | lib/optimizations/DominanceBasedCheckRemovalPass.cpp:126-137 | if invariants are to be optimised, one is removed for any strictly dominating size check or invariant of its pointer |
| `DominanceRemoval.LastExecution` | lib/optimizations/DominanceBasedCheckRemovalPass.cpp:86-93 | a strictly dominating location has executed before, and since then no value available there has changed |
| `DominanceRemoval.RemovedIsChecked` | lib/optimizations/DominanceBasedCheckRemovalPass.cpp:86-93 | whenever a run reaches a removed check, a remaining check at least as wide has executed on the same value of the same pointer, and if it passed, so would the removed one |
| `DominanceRemoval.RemovalKeepsSafety` | lib/optimizations/DominanceBasedCheckRemovalPass.cpp:53-96 | up to any moment of a run, the remaining checks have all passed if and only if all original checks have |
| `ShadowStackSlots.DetermineNumberOfPointers` | lib/instrumentation_mechanisms/SoftBoundMechanism.cpp:1618-1644 | the slots for a result: one for a pointer, one per pointer of a struct, one per element of an array |
| `ShadowStackSlots.CalleeSlot` | lib/instrumentation_mechanisms/SoftBoundMechanism.cpp:1554-1585 | the callee finds an argument behind the results and the pointer arguments before it |
| `ShadowStackSlots.CallerSlot` | lib/instrumentation_mechanisms/SoftBoundMechanism.cpp:1587-1616 | the caller finds the same for an operand of the call |
| `ShadowStackSlots.CallerMatchesCallee` | lib/instrumentation_mechanisms/SoftBoundMechanism.cpp:1554-1616 | for matching signatures both slots are equal, with or without variadic arguments |
| `ShadowStackSlots.SlotsInjective` | lib/instrumentation_mechanisms/SoftBoundMechanism.cpp:1587-1616 | different pointer arguments have different slots, none of them a result's, all within the frame |
| `ShadowStackSlots.SlotsFill` | lib/instrumentation_mechanisms/SoftBoundMechanism.cpp:1718-1744 | every slot behind the results belongs to a pointer argument |
| `ShadowStackSlots.ComputeSize` | lib/instrumentation_mechanisms/SoftBoundMechanism.cpp:1718-1744 | the size of a frame is the number of result slots and pointer arguments |
| `ShadowStackSlots.FrameIffPointers` | lib/instrumentation_mechanisms/SoftBoundMechanism.cpp:1019-1032 | a call gets a frame exactly when it passes or returns a pointer, if and only if it does not return a non-empty array of non-pointers without passing a pointer |
| `ShadowStackSlots.FrameForNumbers` | lib/instrumentation_mechanisms/SoftBoundMechanism.cpp:1636-1638 | a call that passes no pointer and returns an array of numbers gets a frame with a slot for each of them |
| `ShadowStackSlots.FirstVarArgSlot` | lib/instrumentation_mechanisms/SoftBoundMechanism.cpp:1647-1673 | the callee's first variadic slot is the one every caller uses for its first variadic pointer, if it passes one |
| `ShadowStackSlots.ComputeIndices` | lib/instrumentation_mechanisms/SoftBoundMechanism.cpp:1675-1716 | the indices of exactly the pointers of a result, ascending, one for each result slot |
| `PointerBoundsPolicy.RequiredArguments` | lib/instrumentation_policies/PointerBoundsPolicy.cpp:103-118 | exactly the pointer operands of a call, by ascending number |
| `PointerBoundsPolicy.AddCallTargets` | lib/instrumentation_policies/PointerBoundsPolicy.cpp:74-120 | which targets a call gets, in order: a check if the callee is unknown, checks of the memory an intrinsic copies or sets, and an invariant unless it is a debug or other irrelevant intrinsic, with all pointer operands for a real call |
| `PointerBoundsPolicy.RequiredFillsSlots` | lib/instrumentation_policies/PointerBoundsPolicy.cpp:103-119 | such an invariant is a proper target, and each argument slot of the call is that of exactly one required argument |
| `CallLayout.Emitter.GetLastMDLocation` | lib/instrumentation_mechanisms/SoftBoundMechanism.cpp:1967-2008 | the last of the shadow-stack loads that directly follow an instruction |
| `CallLayout.Emitter.HandleShadowStackAllocation` | lib/instrumentation_mechanisms/SoftBoundMechanism.cpp:1019-1056 | nothing for an empty frame; otherwise an allocation right before the call and a deallocation behind the loads that directly follow it |
| `CallLayout.Emitter.HandleCallInvariant` | lib/instrumentation_mechanisms/SoftBoundMechanism.cpp:972-1017 | allocation, argument stores in order with the caller's slots, call, loads, deallocation; all other lines stay |
| `CallLayout.Emitter.HandleReturnInvariant` | lib/instrumentation_mechanisms/SoftBoundMechanism.cpp:918-941 | the stores of all returned pointers, in slot order, right before the return; all other lines stay |
| `CallLayout.GenerateInvariants` | lib/pass/CheckGeneration.cpp:28-44 | handling invariants of calls, returns and stores of a block in any order yields the same layout |
| `CallLayout.CallLaidOut` | lib/instrumentation_mechanisms/SoftBoundMechanism.cpp:1019-1056 | in that layout every handled call is surrounded by its own code only, whatever its neighbours; all loads precede the deallocation if and only if no other inserted instruction precedes one of them |
| `CallExecution.ArgumentsStored` | lib/instrumentation_mechanisms/SoftBoundMechanism.cpp:990-1011 | between the allocation and the call stands exactly one store for each passed argument, of its witness to its slot |
| `CallLayout.StoreLaidOut` | lib/instrumentation_mechanisms/SoftBoundMechanism.cpp:879-911 | a handled store of a pointer is followed directly by the only metadata store that is made for it |
| `CallLayout.ReturnLaidOut` | lib/instrumentation_mechanisms/SoftBoundMechanism.cpp:918-941 | the stores of a return are the last lines before it, behind all allocations and deallocations of the calls of its block |
| `CallResults.LineForEach` | lib/instrumentation_mechanisms/SoftBoundMechanism.cpp:141-242 | each witness but those of constants has exactly one line, at its place: a load of its argument, a load of its result from the slot of its index, or a computation |
| `CallResults.LinesBehindCall` | lib/instrumentation_mechanisms/SoftBoundMechanism.cpp:165-184 | what witness creation inserts behind a call whose results are asked for: all loads of its results, from their slots in order, with nothing in between; before and behind them only witness selects, and some before them if and only if a select right behind the call is handled before the call's source |
| `CallResults.SourceWitnesses` | lib/instrumentation_mechanisms/SoftBoundMechanism.cpp:165-184 | the witness map of a call's source is the one computed from the call's type: each pointer of the result has the witness loaded from its slot |
| `CallResults.ResultsInFrameIff` | lib/instrumentation_mechanisms/SoftBoundMechanism.cpp:1041-1047 | for all code created for a function and its targets: no result of a call is loaded after the deallocation if and only if, in the order in which the targets are handled, no select right behind the call comes before the call's source |
| `CallResults.LateByTargetOrder` | lib/instrumentation_mechanisms/SoftBoundMechanism.cpp:1041-1047 | results are loaded too late if a target that leads to such a select comes before the first that leads to the call's source |
| `CallResults.LateOnlyByTargetOrder` | lib/instrumentation_mechanisms/SoftBoundMechanism.cpp:1041-1047 | they are only if a target leads to such a select and no target before it to the call's source |
| `CallResults.CallCode` | lib/instrumentation_mechanisms/SoftBoundMechanism.cpp:972-1056 | the complete code around a call, for all created code: allocation, argument stores, call, loads of all results if they are asked for, deallocation; in the excepted case the loads stand behind the deallocation |
| `CallResults.ResultLoadedTooLate` | lib/instrumentation_mechanisms/SoftBoundMechanism.cpp:1041-1047 | in all code created for a function with a call and a select behind it, where the select is checked first, the result is loaded after the deallocation |
| `ShadowStackProtocol.HandleReturn` | lib/instrumentation_mechanisms/SoftBoundMechanism.cpp:918-941 | the witness of the s-th pointer of the result, in the order of its indices, is stored to slot s |
| `ShadowStackProtocol.InsertCallWitnesses` | lib/instrumentation_mechanisms/SoftBoundMechanism.cpp:165-184 | slots are loaded in order, and exactly the indices of the result's pointers get the bounds found in their slots |
| `ShadowStackProtocol.ResultsMatch` | lib/instrumentation_mechanisms/SoftBoundMechanism.cpp:1675-1716 | for every pointer of a result, the caller's witness is the one the callee stored for it, although both compute indices and slots on their own |
| `ShadowStackProtocol.CallRestoresStack` | lib/instrumentation_mechanisms/SoftBoundMechanism.cpp:972-1056 | in every tree of calls each load finds exactly the bounds the other side stored, no operation leaves its frame, and the stack ends up as it was |
| `CallExecution.CallRuns` | lib/instrumentation_mechanisms/SoftBoundMechanism.cpp:972-1056 | executing the lines of a block that belong to a call, with any callee in between that keeps to the protocol: succeeds and restores the stack if and only if the result's witnesses get the bounds the callee has stored for their pointers |
| `CallExecution.LateCallRuns` | lib/instrumentation_mechanisms/SoftBoundMechanism.cpp:1041-1047 | with the loads behind the deallocation these lines succeed if and only if the frame below holds in these slots what the witnesses are to get, whatever the callee has stored |
| `CallExecution.QuietCallRuns` | lib/instrumentation_mechanisms/SoftBoundMechanism.cpp:972-1056 | the lines of a call that returns no pointers succeed and restore the stack |
| `FunctionExecution.BlockRuns` | lib/pass/CheckGeneration.cpp:28-44 | executing all lines of a block, with what is called in between, leaves the stack as it was, unless the block returns |
| `FunctionExecution.ExecutionServes` | lib/instrumentation_mechanisms/SoftBoundMechanism.cpp:918-1056 | called as the protocol asks, all code emitted for a function and for what it calls, along any sequence of blocks, finds each bound where the other side has stored it, leaves the results in its frame, and keeps all other frames |
| `FunctionExecution.IdentityOk` | lib/instrumentation_mechanisms/SoftBoundMechanism.cpp:918-941 | an example of such an execution: a function that returns its argument |
| `FunctionExecution.EmittedCallTree` | lib/instrumentation_mechanisms/SoftBoundMechanism.cpp:972-1056 | with the caller's code around it, such a tree of calls restores the stack |
| `ShadowStackProtocol.BodyServes` | lib/instrumentation_mechanisms/SoftBoundMechanism.cpp:918-941 | the functions in such a tree keep to the protocol: called with the passed bounds in a frame, they leave the results there and keep all other frames |
| `ShadowStackProtocol.CallThenLoads` | lib/instrumentation_mechanisms/SoftBoundMechanism.cpp:972-1056 | for every callee that keeps to the protocol, and on every stack, loads before the deallocation find what they look for if and only if it is what the callee has stored |
| `ShadowStackProtocol.BodyKeepsLowerFrames` | lib/instrumentation_mechanisms/SoftBoundMechanism.cpp:918-941 | a callee finds its arguments' bounds, leaves those of its results in the first slots, and does not touch other frames |
| `ShadowStackProtocol.LateLoads` | lib/instrumentation_mechanisms/SoftBoundMechanism.cpp:1041-1047 | for every such callee, and on every stack, loads after the deallocation find what they look for if and only if the frame below already holds it |
| `Initializers.Setup.HandleInitializer` | lib/instrumentation_mechanisms/SoftBoundMechanism.cpp:611-742 | stores the bounds of all pointers inside a constant, returns those of a pointer, and fails for a vector of pointers or if a pointer inside has no bounds |
| `Initializers.Setup.HandleElements` | lib/instrumentation_mechanisms/SoftBoundMechanism.cpp:705-738 | fails if and only if some path inside leads to a pointer without bounds or a vector of pointers |
| `Initializers.Setup.SetUpGlobals` | lib/instrumentation_mechanisms/SoftBoundMechanism.cpp:543-609 | succeeds if and only if no instrumented initialiser contains such a pointer; skips all-zero initialisers |
| `Initializers.StoresExact` | lib/instrumentation_mechanisms/SoftBoundMechanism.cpp:705-738 | the stores emitted for a constant are exactly those for the index paths to pointers inside it, with the bounds of the object behind casts and address computations |
| `Initializers.StoredBoundsRight` | lib/instrumentation_mechanisms/SoftBoundMechanism.cpp:1204-1311 | a pointer anywhere in an initialiser has exactly one store, whose bounds admit, wherever things are in memory: nothing for null; exactly its bytes for a variable or a block; nothing but its entry for a function; what is configured for variables of no known size and for integers |
| `Initializers.EveryStoreRight` | lib/instrumentation_mechanisms/SoftBoundMechanism.cpp:1204-1311 | and every store is one for such a pointer, with such bounds; so unlimited bounds occur only where they are configured |
| `Initializers.GlobalOkIff` | lib/instrumentation_mechanisms/SoftBoundMechanism.cpp:611-742 | a global can be set up if and only if nothing in its initialiser is a vector of pointers, or a pointer to anything but null, a variable, a function, a block, or an integer, the latter and variables of no known size unless they are disallowed |
| `Initializers.OneStorePerPointer` | lib/instrumentation_mechanisms/SoftBoundMechanism.cpp:543-742 | each pointer of each initialiser, at any depth, has exactly one store |
| `Initializers.StoreIsForPointer` | lib/instrumentation_mechanisms/SoftBoundMechanism.cpp:543-742 | every store is the one for a pointer of an instrumented, not all-zero initialiser |

## Left out

- Node objects: a node is a row of a table, identified by its running number, and is never freed; the list order of nodes and requirements is kept.
- Flags in node identity: targets of nodes made during construction have no flags yet, so that the comparison of flags in `ITarget::equals` cannot matter and is left out.
- Order of one mechanism's instructions for one witness: base and bound of a witness count as one value, inserted as one instruction.
- `WitnessCode.WitnessInSync`: assumes that the instructions a mechanism inserts for a source make the witness describe the source's latest value; the metadata table for loads from memory is not modelled.
- `PhiCollapse.Analysis.UpdateWitnessNode`: recursion deeper than a given bound ends without a result; that this does not happen is proved for graphs without cycles and for graphs in which no extraction is kept, not for those with both.
- `WitnessGraphs.WitnessGraph.RequireOperands`: results of invokes and loads of variable arguments have no counterpart.
- `WitnessCreation.WitnessCreator.InsertWitnesses`: which bounds the mechanism inserts for each kind of source is assumed, except for the results of calls.
- `CallLayout.Emitter.GetLastMDLocation`: only the forward search for loads that places the deallocation.
- `Simplification.SimplifyWitnessGraph`: not for graphs with call invariants, which no mechanism has whose invariants are checks.
- `Unchanged.DroppedIsUnmoved`: needs the condition on constants, and `MovedConstants.DropJustifiedIff` and `MovedConstants.DroppedIffNeverMoved` are about scalar pointers; inside aggregates a moved pointer may have been overwritten again.
- Invoke and landing pads with several predecessors, unreachable code, vectors of pointers, and aggregates within aggregates: no well-formed function of the model has them.
- Variadic calls beyond their slots: proxies for variable argument lists need the C run-time.
- The option that gives every target its own copy of a shared witness: off, as by default.
- The dominator tree: taken as correct for reachable locations.
- Branches of handling intrinsics that copy metadata, and checks of called pointers: one inserted call each, without conditions on others. The metadata store of a stored pointer is one line of its block.
- `FunctionExecution.ExecutionServes`: assumes that witnesses have the bounds they are loaded with, that blocks hold one point for each instruction, and that no result is loaded too late.
- Call instructions with inline assembly, and the option that turns off call checks.
- Low-fat pointers, the splay mechanism, narrowing, profiles, statistics, configuration, dumping, and module set-up.
- Combinations of the dominance filter with other filters: their outcome depends on the order of passes by design.
