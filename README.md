# Dataflow++ engine: a verified model

This project models the core of the Dataflow++ reactive dataflow library. The core is the
engine (`src/internal/engine.cpp`). It keeps a dependency graph of nodes. The active part of
that graph is held in a topological order. The engine's worklists activate vertices when a data
edge is enabled. They deactivate vertices when the last consumer goes away. The pump updates the
marked vertices in order. A vertex whose reference count drops to zero is torn down together
with everything only it kept alive. Two satellites ride on the engine. The handle layer
(`src/prelude/core/internal/ref.cpp`) adds and drops references and forwards scheduling and
metadata requests. The conditional node (`include/dataflow/prelude/core/internal/node_if.h`)
is the node kind the activation rule for conditionals is written for.

The graph is an arena of vertex records indexed by descriptor. Vertex 0 is the hidden main
activator created by `start`. A vertex's out-edges are its argument edges, in argument order,
followed by at most one logical edge to its activator. The topological order is a value: the
sequence of positioned vertices plus the set of marked ones. A deleted vertex stays in the arena
as a cleared, dead record. The engine invariant (`DependencyGraph.Inv`) says, among other
things, that:

- every active vertex has a position, and the position order is topological for enabled edges;
- consumer lists match enabled edges exactly;
- every vertex reachable from an observer through enabled edges is active;
- every live vertex's reference count is its number of handles plus its structural in-degree.

Every public operation keeps it.

Modules: `TopologicalList` (the order), `DependencyGraph` (vertices, edges, the invariant),
`GraphSteps` (adding vertices and edges), `Activation` and `Enabling` (`enable_edge`),
`Deactivation` (`disable_edge`), `Pumping` (`pump_`), `Teardown` (`remove_subgraph_`),
`Handles` (reference counts), `Dataflow` (the `Engine` class), `References` (the `Ref` class)
and `Conditional` (`node_if`).

## Model

| member | source | states |
|---|---|---|
| Dataflow.Engine.constructor | src/internal/engine.cpp:35-54 | `start`: the engine holds only the hidden main activator, at the only position, nothing marked, not pumping, and the invariant holds |
| Dataflow.Engine.Shutdown | src/internal/engine.cpp:543-548 | `~engine` requires that only the main activator is left, and deletes it; afterwards every record is deleted |
| Dataflow.Engine.IsActiveNode | src/internal/engine.cpp:374 | a vertex is active exactly when it is in the topological order |
| Dataflow.Engine.AddVertex | src/internal/engine.cpp:69 | `add_vertex` appends one record with the next descriptor and keeps the invariant |
| Dataflow.Engine.AddNode | src/internal/engine.cpp:65-83 | the new vertex is inactive, has one disabled edge per argument in argument order, every argument gains one reference per occurrence, and the engine invariant still holds |
| Dataflow.Engine.AddArgs | src/internal/engine.cpp:72-77 | the argument loop adds the edges and references of exactly the given arguments |
| GraphSteps.AddArgsEffect | src/internal/engine.cpp:72-77 | the new vertex gets one disabled edge per argument; every other vertex's count rises by its multiplicity among the arguments; nothing else changes |
| GraphSteps.AddArgsKeeps | src/internal/engine.cpp:65-83 | adding the argument edges of a new vertex keeps the engine invariant |
| Dataflow.Engine.AddConditionalNode | src/internal/engine.cpp:126-137 | `add_node`, and the new vertex is conditional, inactive, with disabled edges to its arguments |
| Dataflow.Engine.AddPersistentNode | src/internal/engine.cpp:139-150 | a new constant vertex whose position is the order's first slot: it is never active |
| Dataflow.Engine.AddActiveNode | src/internal/engine.cpp:85-124 | the new vertex is active and eager, its first edge is an enabled data edge to `w`, its logical edge goes to the order's front, `w` gains exactly one reference, and the invariant holds after the pump, whether or not the pump failed; without a failure nothing is left marked and the new vertex is initialized |
| Dataflow.Engine.AddEagerVertex | src/internal/engine.cpp:87-102 | the part of `add_active_node` before `enable_edge`: the new vertex is active and eager, with a disabled data edge to `w`, `w` gains one reference, and the invariant holds except at the new vertex |
| Dataflow.Engine.EnableEdge | src/internal/engine.cpp:188-346 | enabling a data edge of an active vertex restores the invariant: every vertex reachable through enabled edges is active, the order is topological, consumers match enabled edges; the static graph is unchanged, nothing is disabled or deactivated, and every newly activated vertex is marked |
| Dataflow.Engine.EnableLoop | src/internal/engine.cpp:203-343 | the worklist loop ends with an empty stack, the running invariant, nothing undone and every newly activated vertex marked |
| Dataflow.Engine.EnableStep | src/internal/engine.cpp:209-343 | one round of the worklist pops the top entry and activates, revisits or drops it |
| Enabling.StepKeeps | src/internal/engine.cpp:209-343 | each round keeps the invariant of a running `enable_edge` and makes the stack lighter, so the loop ends |
| Dataflow.Engine.ActivateRound | src/internal/engine.cpp:225-253 | an inert target is placed right before its consumer, marked, given its implied activator, and its edges (only the condition of a conditional) are enabled and pushed |
| Activation.ActivateKeeps | src/internal/engine.cpp:225-232 | activating an inert target keeps the running invariant: it is placed right before its consumer, marked, active and given the implied activator |
| Dataflow.Engine.RevisitRound | src/internal/engine.cpp:258-340 | an active target takes the new activator when the new one comes earlier, moves before its consumer when it came after, and passes both flags on to its enabled edges |
| Activation.RebaseKeeps | src/internal/engine.cpp:258-271 | `reset_activator_` on an active, non-eager vertex keeps the running invariant |
| Activation.MoveKeeps | src/internal/engine.cpp:273-282 | moving a vertex before its consumer, keeping its mark, repairs that edge and leaves only the moved vertex's own enabled edges pending |
| Activation.PushKeeps | src/internal/engine.cpp:284-294 | pushing an enabled edge of a moved vertex turns its pending pair into a stack entry |
| Dataflow.Engine.EnableArgs | src/internal/engine.cpp:234-252 | the first `n` edges of the activated vertex are enabled and pushed, in order |
| Enabling.EnableArgsEffect | src/internal/engine.cpp:234-252 | enabling the first `n` edges enables exactly those and changes no vertex's activity |
| Dataflow.Engine.PushArgs | src/internal/engine.cpp:284-294 | every enabled edge of the vertex is pushed, in order, with the two flags |
| Activation.EnableArgKeeps | src/internal/engine.cpp:176-186 | `enable_edge_` puts the source at the front of the target's consumers and keeps the running invariant |
| DependencyGraph.ImpliedActivator | src/internal/engine.cpp:550-564 | a conditional vertex reached through an edge other than its condition implies its condition; otherwise its own activator |
| Dataflow.Engine.DisableEdge | src/internal/engine.cpp:359-433 | disabling an enabled edge restores the invariant (for an eager source, except its own data edge), keeps the static graph, activates and enables nothing, adds no mark, and leaves the edge disabled |
| Dataflow.Engine.DisableLoop | src/internal/engine.cpp:369-432 | the worklist loop ends with an empty stack and the running invariant, activating nothing and adding no mark |
| Dataflow.Engine.DisableRound | src/internal/engine.cpp:371-431 | one round skips constant and inactive vertices, deactivates a vertex without consumers, and moves a vertex none of whose consumers implies its activator before its earliest consumer, giving it the activator that consumer implies (the corrected rule, see Findings) |
| Deactivation.DisableStepKeeps | src/internal/engine.cpp:371-431 | every round keeps the invariant of a running `disable_edge`, under the re-anchoring rule as written and under the corrected one |
| Deactivation.DisableStepProgress | src/internal/engine.cpp:369-432 | every round makes the stack lighter and undoes no deactivation, so the loop ends, under either rule |
| Dataflow.Engine.DeactivateRound | src/internal/engine.cpp:379-391 | `deactivate_vertex_` erases the position and the logical edge and clears `initialized`, then every enabled edge is disabled and its target pushed, in order |
| Deactivation.DeactivateKeeps | src/internal/engine.cpp:581-596 | deactivating an active vertex without consumers keeps the running invariant |
| Dataflow.Engine.DisableArgs | src/internal/engine.cpp:381-391 | each enabled edge of the deactivated vertex is disabled and its target pushed, in order |
| Deactivation.ReanchorKeeps | src/internal/engine.cpp:395-419 | a vertex moved before its earliest consumer, which comes after it, keeps its mark and takes the activator the rule gives (that consumer's own as written, the one it implies for the vertex corrected), and under either rule the running invariant holds once its enabled targets are pushed |
| Deactivation.DisableStepAnchors | src/internal/engine.cpp:393-419 | after a round of the corrected rule, a vertex that was active with consumers has an activator that one of its consumers implies for it |
| StrayActivator.InvG0 | src/internal/engine.cpp:85-124 | the state that holding `x` and then `c` eagerly leaves (three variables, two conditionals, two eager holders, one handle on each) satisfies the engine invariant |
| StrayActivator.WalkA | src/internal/engine.cpp:393-419 | once the hold on `x` goes, the round that pops `x` finds no consumer sharing its activator and re-anchors it before `y`: with `y`'s own activator `b` as written, with the `d` that `y` implies corrected |
| StrayActivator.InvH2 | src/internal/engine.cpp:435-489 | after that round, the detachment and the teardown of the holder, the engine invariant holds |
| StrayActivator.Step2 | src/internal/engine.cpp:258-271 | when `add_active_node(y)` rebases `y` to the main activator, the entry into `x` leaves `x`'s activator alone, since `d` does not precede it |
| StrayActivator.InvHB2 | src/internal/engine.cpp:85-124 | once that `enable_edge` is done the engine invariant holds |
| StrayActivator.WalkC3 | src/internal/engine.cpp:379-391 | after the hold on `c` goes and `c` is deactivated, the round that pops `b` finds it without consumers and deactivates it |
| StrayActivator.AsWrittenStrays | src/internal/engine.cpp:395-419 | as written, the run ends once `release` returns in a state satisfying the engine invariant, in which `x` is active and its activator `b` is live but not in the order |
| StrayActivator.CorrectedKeepsActivator | src/internal/engine.cpp:395-419 | with the corrected rule the same run ends in a state satisfying the engine invariant, with `x`'s activator `d` active |
| Deactivation.EarliestIsFirst | src/internal/engine.cpp:403-409 | the consumer picked by `min_element` comes before every other consumer |
| Dataflow.Engine.PushTargets | src/internal/engine.cpp:421-429 | the target of every enabled edge is pushed, in order |
| Deactivation.DisableDone | src/internal/engine.cpp:359-433 | with the stack empty, the engine invariant holds again over the same static graph |
| Dataflow.Engine.Pump | src/internal/engine.cpp:152-173 | pumping requires no pump in progress; whether or not an update fails, pumping has stopped, the argument buffer is empty, the order is unchanged and only `initialized` flags were set; the ghost set `seen` holds every vertex marked before the pump, the position `v` was marked at, and the consumers of every vertex whose update reported a change; without a failure nothing is left marked and every vertex in `seen` is initialized |
| Dataflow.Engine.PumpLoop | src/internal/engine.cpp:491-531 | the loop runs until no position is marked, or stops at the first failing update, keeping the invariant and changing only marks and `initialized` flags; `seen` starts as the marks and gains the consumers of each vertex whose update reports a change; without a failure every vertex in `seen` is initialized |
| Dataflow.Engine.PumpRound | src/internal/engine.cpp:496-529 | one round unmarks the earliest marked vertex before updating it, passes the targets of its enabled edges in edge order, marks its consumers exactly when the update reports a change, and sets `initialized` |
| Pumping.PumpRoundKeeps | src/internal/engine.cpp:491-531 | a round that does not fail keeps the invariant, only sets the visited vertex's flag, and moves the earliest mark strictly forward |
| Pumping.SeenRound | src/internal/engine.cpp:513-523 | after a round every vertex in `seen` is still marked or initialized, and a vertex whose update reported a change has all its consumers in `seen` |
| Pumping.PumpRoundFails | src/internal/engine.cpp:513-516 | a failing round has only unmarked its vertex, which keeps the invariant |
| Dataflow.Engine.MarkConsumers | src/internal/engine.cpp:517-523 | exactly the consumers' positions are added to the marks |
| TopologicalList.BeginMarkedIsEarliest | src/internal/engine.cpp:491-494 | `begin_marked` is empty exactly when nothing is marked, and otherwise is a marked position before every other marked one |
| TopologicalList.MoveOrder | src/internal/engine.cpp:275-282 | moving a position before another keeps its mark, places it immediately before the other, and keeps every other pair's order |
| TopologicalList.InsertFacts | src/internal/engine.cpp:566-579 | `insert(pos, v)` places `v` immediately before `pos` and keeps the order of everything else |
| TopologicalList.EraseFacts | src/internal/engine.cpp:581-596 | `erase` removes exactly the erased position and keeps the order of everything else |
| Dataflow.Engine.AddRef | src/prelude/core/internal/ref.cpp:28-32 | one more handle on the vertex: its count and its handle count rise by one, and the invariant holds |
| Handles.RecountKeeps | src/prelude/core/internal/ref.cpp:28-37 | changing the number of handles on a live vertex, with its count following, keeps the invariant |
| Handles.HeldLive | src/prelude/core/internal/ref.cpp:34-37 | a vertex with a handle on it is live and its count is at least its number of handles |
| Dataflow.Engine.Release | src/prelude/core/internal/ref.cpp:34-37 | one handle fewer: the count drops by one and nothing else changes, unless that was the last reference, in which case the vertex is torn down: it is deleted, every surviving vertex without references had none before, and every deleted vertex is that vertex or a target of a deleted vertex; every vertex still held stays alive |
| Dataflow.Engine.RemoveSubgraph | src/internal/engine.cpp:435-489 | for a vertex with count zero, the invariant holds afterwards, the vertex is deleted, every surviving vertex without references had none before, every deleted vertex is the start or a target of a deleted vertex, and the survivors keep their static records apart from their counts |
| Dataflow.Engine.DetachEager | src/internal/engine.cpp:476-483 | an eager vertex loses its data edge (deactivating what only it kept active), its logical edge and its position; what remains is the engine invariant over the graph with its flags cleared |
| Teardown.DetachKeeps | src/internal/engine.cpp:476-483 | with its data edge disabled, removing the logical edge of the eager vertex and erasing its position gives the engine invariant back |
| Dataflow.Engine.ReleaseSubgraph | src/internal/engine.cpp:439-488 | the depth-first visit deletes exactly the discovered vertices, each the start or a target of another discovered vertex; every undiscovered survivor without references had none before, and the invariant holds |
| Dataflow.Engine.VisitRound | src/internal/engine.cpp:447-470 | one visit step examines the next edge of the top frame and discovers a white target, or finishes the frame and deletes its vertex when its count is zero; the visit invariant holds and the visit gets closer to its end |
| Dataflow.Engine.ReleaseTargets | src/internal/engine.cpp:451-461 | `discover_vertex` releases every structural edge once, and exactly the targets whose count reaches zero become white |
| Teardown.ReleaseAll | src/internal/engine.cpp:451-461 | the release loop lowers every target's count by its number of edges from the vertex, and the white set gains exactly the targets whose count reaches zero |
| Teardown.DiscoverKeeps | src/internal/engine.cpp:447-462 | discovering a white vertex keeps the visit invariant: counts match the unreleased edges, discovered vertices are inactive and unobserved, and every white vertex is still ahead in the visit |
| Teardown.AdvanceKeeps | src/internal/engine.cpp:487-488 | examining the next edge of the top frame keeps the visit invariant and shrinks the remaining work |
| Teardown.FinishKeeps | src/internal/engine.cpp:464-470 | finishing the top frame deletes its vertex, whose count is zero, keeps the visit invariant and shrinks the remaining work |
| Teardown.DoneKeeps | src/internal/engine.cpp:487-489 | once the stack is empty nothing is white, every discovered vertex is deleted, and the engine invariant holds |
| Teardown.TeardownEffect | src/internal/engine.cpp:435-489 | told against the graph before the teardown: the start is deleted, every deleted vertex is the start or a target of a deleted vertex, survivors without references had none before, and they keep their static records |
| Dataflow.Engine.SetMetadata | src/prelude/core/internal/ref.cpp:59-63 | the given metadata, or none, is what is attached to the vertex afterwards, and nothing else is touched |
| Dataflow.Engine.ScheduleForNextUpdate | src/prelude/core/internal/ref.cpp:48-51 | the vertex is queued behind those already waiting for the next update |
| References.Ref.FromId | src/prelude/core/internal/ref.cpp:74-78 | a handle made from an id adds exactly one reference to that vertex |
| References.Ref.Copy | src/prelude/core/internal/ref.cpp:28-32 | copying a handle adds exactly one reference to the same vertex |
| References.Ref.Destroy | src/prelude/core/internal/ref.cpp:34-37 | destroying a handle releases exactly one reference; when it was the last, the vertex is deleted, every surviving vertex without references had none before, and every deleted vertex is that vertex or a target of a deleted vertex; every vertex still held stays alive |
| References.Ref.Reset | src/prelude/core/internal/ref.cpp:65-72 | the old vertex has one handle fewer, the new one one more, and the handle now refers to the new vertex |
| References.Ref.Schedule | src/prelude/core/internal/ref.cpp:44-57 | nothing happens for an inactive vertex; during a pump the vertex is only queued for the next update; otherwise it is pumped now, after which nothing is marked and it is initialized unless an update failed |
| References.Ref.SetMetadata | src/prelude/core/internal/ref.cpp:59-63 | metadata is attached only while the vertex is active, and is ignored otherwise |
| Conditional.Create | include/dataflow/prelude/core/internal/node_if.h:38-52 | the new vertex is conditional and inactive, with disabled edges to basis, alternative and consequence in that order, and the eager flag is passed on only when requested |
| Conditional.InertEdges | src/internal/engine.cpp:72-77 | the edges `add_node` creates lead to the arguments in order and are all disabled |
| Conditional.SelectedArgs | include/dataflow/prelude/core/internal/node_if.h:60-66 | with the basis edge and exactly one branch edge enabled, the pump passes exactly two arguments, the basis and then that branch |
| Conditional.IfNode.Update | include/dataflow/prelude/core/internal/node_if.h:60-74 | the node takes the selected branch's value and reports a change exactly when its value differs; the branch's metadata is copied only when the node is initialized and the branch is the one it saw last; the branch is recorded |
| Conditional.IfNode.SetValue | include/dataflow/prelude/core/internal/node_if.h:73 | the node holds the new value and reports a change exactly when it differs from the old one |
| Conditional.IfNode.Deactivate | include/dataflow/prelude/core/internal/node_if.h:76-81 | the recorded branch is cleared |
| Conditional.IfNode.constructor | include/dataflow/prelude/core/internal/node_if.h:55-58 | a new conditional node has no recorded branch |

## Left out

- Memory allocation, placement new, the Boost graph library and Qt integration are not modelled.
- The edge descriptors of the Boost graph are modelled as a vertex and an argument index.
- Exceptions from `update` are modelled as a `Failed` result. The cleanup in `pump` is modelled on that path.
- A node's `update` is an oracle function of the vertex, its `initialized` flag and its arguments. Typed values and the update bodies of other node kinds are not modelled.
- Dataflow.Engine.IsActiveNode: `is_active_node` is not shown. It is taken to mean "positioned and not constant".
- `topological_list` is not shown. It is modelled as a value with `insert` before a position, `erase`, marks and `begin_marked`.
- The position of a constant is the order's first slot, which is the main activator's.
- Dataflow.Engine.DeactivateRound: the precondition of `deactivate_vertex_` that the vertex is initialized is not required. An activated vertex may be deactivated before the pump has set its flag.
- Dataflow.Engine.DetachEager: the data edge is disabled before the logical edge is removed, the reverse of the source's order. The two steps touch disjoint state: the disable walk never reads the detached vertex's logical edge.
- Dataflow.Engine.DetachEager: the `out_degree == 2` assertion is implied by the invariant, not checked.
- Dataflow.Engine.AddConditionalNode requires at least one argument, its condition.
- Dataflow.Engine.AddNode, Dataflow.Engine.AddConditionalNode, Dataflow.Engine.AddActiveNode and Conditional.Create require arguments that are neither the main activator nor eager vertices (`DependencyGraph.ArgOk`). Callers of the library do pass eager vertices as arguments, so graphs with them are outside the model. In such a graph `disable_edge` (src/internal/engine.cpp:371-391) deactivates an eager vertex whose last consumer goes away. `remove_subgraph_` then finds that eager vertex without its logical edge, against its `out_degree == 2` check (line 478). `discover_vertex` (lines 451-453) can also delete an eager vertex that is still active when only a structural edge kept it. The model's invariant, under which every live eager vertex is active with the main activator and its data edge enabled, rules these states out.
- `delete_node` is modelled as replacing the record by a cleared, dead one. Descriptors are never reused.
- `release()` on a vertex is not shown. It is taken to decrement the count and to report whether it reached zero.
- Outside `remove_subgraph_`, vertex colours are taken to be non-white. Only the vertices the visit colours white are entered.
- Dataflow.Engine.Release requires a vertex other than the main activator with a handle on it. Handles come from the vertices `add_node` and its kin return, so the main activator never has one. Dataflow.Engine.AddRef takes any live vertex.
- References.Ref.Reset requires `other` to hold a reference of its own on its vertex, besides this handle's when both refer to the same vertex. Otherwise the release could delete the vertex about to be referenced.
- References.Ref.Schedule: `schedule_and_pump` is not shown. It is modelled as `pump`, which marks the vertex and runs the pump.
- `is_pumping` is modelled as the `pumping_started_` flag.
- Dataflow.Engine.ScheduleForNextUpdate: the queue of next updates is modelled as a sequence. Its later processing is not shown and is not modelled.
- `ref::get_` hands out the node object itself. It is left out along with memory.
- Dataflow.Engine.SetMetadata: `set_metadata` is not shown. It is modelled as attaching the given metadata, or nothing, to the vertex.
- Conditional.Create: the factory `create_conditional` and what it does with the eager flag are not shown. The model creates the conditional vertex and returns the flag.
- The type checks on the arguments of `node_if::create` are left out.
- Conditional.IfNode.SetValue: `set_value_` is not shown. It is modelled as storing the value and reporting a change exactly when the value differs.
- `perform_deactivation_` is not shown and is left out of Conditional.IfNode.Deactivate.
- `label_` and `mem_info_` are left out.
- Scheduling during a pump follows the code: the vertex is handed to `schedule_for_next_update` and waits for the next update, not the current pass.
- Dataflow.Engine.DisableRound, Deactivation.DisableStep and Deactivation.ReanchorKeeps: the engine runs the corrected re-anchoring rule of the Findings, not the one written at src/internal/engine.cpp:396-419. The source keeps a vertex in place when some consumer's own activator equals the vertex's; the engine keeps it only when some consumer implies the vertex's activator, so it also moves a vertex whose activator only a conditional consumer's own activator matches. The source gives a moved vertex the earliest consumer's own activator; the engine gives it the one that consumer implies. `DisableStep` takes the rule as a parameter, and its invariant and termination lemmas hold for both rules.
- The rule that the activator of every active vertex is itself active (asserted at src/internal/engine.cpp:262 and 307) is not part of the invariant. As written it fails (StrayActivator.AsWrittenStrays); for the corrected rule it is not proved. Dataflow.Engine.ActivateRound and Dataflow.Engine.RevisitRound therefore do not state that the implied activator is active.

## Findings

| source | as written | input that shows it | evidently intended | confidence | as-written member | corrected member |
|---|---|---|---|---|---|---|
| src/internal/engine.cpp:395-419 | when the last consumer that keeps a vertex's activator goes away, `disable_edge` compares each remaining consumer's own activator with the vertex's, and re-anchors the vertex with the earliest consumer's own activator (`activator_(*it)`) | variables `b`, `d`, `x`; `y = if(d, x, x)` and `c = if(b, y, y)`, each selecting its second argument; a handle on each. Hold `x` eagerly through `z`, then `c` through `E1` (`c` activates `b` and `y`, `y` activates `d` and reaches `x`). Release `z`: `x` keeps only `y`, whose own activator is `b` while it implies `d`, so `x` takes `b`. `add_active_node(y)`: `y` and `d` move to the main activator, `x` stays on `b`. Release `E1`: `c` and then `b` are deactivated, and `x` stays active with activator `b`. The pump of `add_active_node` is not run; it only sets `initialized` flags | the activator the consumer implies for the vertex (`implied_activator_`), as `enable_edge` uses at lines 225-262, in both the test and the reset; with it, the same run gives `x` the activator `d`, which stays active (StrayActivator.CorrectedKeepsActivator) | not executed | StrayActivator.AsWrittenStrays | Deactivation.DisableStepAnchors |
