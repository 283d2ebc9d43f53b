/**
 * The engine (`engine.cpp`): a dependency graph whose active part is kept in a
 * topological order, with the worklists that activate and deactivate vertices,
 * the pump that updates marked vertices in order, and the reference-counted
 * teardown of subgraphs.
 */
module Dataflow {
  import opened Wrappers
  import opened TopologicalList
  import opened DependencyGraph
  import opened GraphSteps
  import opened Activation
  import opened Enabling
  import opened Deactivation
  import opened Pumping
  import opened Teardown
  import opened Handles

  /** What a node's `update` reports: its value changed, it did not, or it threw. */
  datatype Status = Changed | Unchanged | Failed

  /** A node's `update(id, initialized, args)`, seen by the engine as an oracle. */
  type UpdateOracle = (Vid, bool, seq<Vid>) -> Status

  /** Opaque data a client attaches to a node. */
  datatype Metadata = Metadata(text: string)

  class Engine {
    var graph: Graph                    // `graph_`
    var order: TopoList                 // `order_`
    var pumpingStarted: bool            // `pumping_started_`
    var argsBuffer: seq<Vid>            // `args_buffer_`
    var nextUpdate: seq<Vid>            // vertices scheduled for the next update
    var metadata: map<Vid, Metadata>
    /** The number of client handles (`ref`s) held on each vertex. */
    ghost var ext: seq<nat>

    ghost predicate Valid()
      reads this
    {
      Inv(graph, order, ext)
    }

    /** `start`: an engine holding only the hidden main activator, at the only position. */
    constructor ()
      ensures Valid()
      ensures graph == [Root] && order == TopoList([0], {})
      ensures !pumpingStarted && argsBuffer == [] && nextUpdate == [] && metadata == map[]
    {
      graph := [Root];
      order := TopoList([0], {});
      pumpingStarted := false;
      argsBuffer := [];
      nextUpdate := [];
      metadata := map[];
      ext := [0];
      InitialInv();
    }

    /** `stop`, through `~engine`: only the main activator may be left, and it is deleted. */
    method Shutdown()
      requires Valid() && forall x | 0 < x < |graph| :: !graph[x].live
      modifies this`graph
      ensures |graph| == old(|graph|) && forall x | 0 <= x < |graph| :: graph[x] == Dead
    {
      assert Shape(graph, order);
      forall x | 0 < x < |graph|
        ensures graph[x] == Dead
      {
        assert VertexOk(graph, x);
      }
      graph := graph[0 := Dead];
    }

    /** `is_active_node`. */
    function IsActiveNode(v: Vid): (b: bool)
      reads this
      requires Valid() && v < |graph|
      ensures b <==> v in order.items
    {
      IsActive(graph[v])
    }

    /** `add_vertex`: a new vertex without edges, held by nobody. */
    method AddVertex(n: Vertex) returns (v: Vid)
      requires Valid()
      requires n == Fresh([]) || n == Fresh([]).(constant := true, positioned := true)
      modifies this`graph, this`ext
      ensures Valid()
      ensures v == old(|graph|) && graph == old(graph) + [n] && ext == old(ext) + [0]
    {
      v := |graph|;
      AddVertexKeeps(graph, order, ext, n);
      graph := graph + [n];
      ext := ext + [0];
    }

    /** `add_node`: a new inactive vertex with one disabled edge per argument, in argument
        order, each argument holding one more reference per occurrence. */
    method AddNode(args: seq<Vid>) returns (v: Vid)
      requires Valid()
      requires forall k | 0 <= k < |args| :: 0 < args[k] < |graph| && graph[args[k]].live && !graph[args[k]].eager
      modifies this`graph, this`ext
      ensures Valid()
      ensures v == old(|graph|) && ext == old(ext) + [0]
      ensures graph == AddArgsG(old(graph) + [Fresh([])], v, args)
      ensures Newest(graph, v) && graph[v].args == Inert(args)
    {
      v := AddVertex(Fresh([]));
      AddVertexNewest(old(graph), v);
      AddArgsKeeps(graph, order, ext, v, args);
      AddArgsEffect(graph, v, args);
      AddArgs(v, args);
    }

    /** `add_conditional_node`: `add_node`, and the new vertex is marked conditional; its
        first argument is the one that selects the branch. */
    method AddConditionalNode(args: seq<Vid>) returns (v: Vid)
      requires Valid() && |args| >= 1
      requires forall k | 0 <= k < |args| :: 0 < args[k] < |graph| && graph[args[k]].live && !graph[args[k]].eager
      modifies this`graph, this`ext
      ensures Valid()
      ensures v == old(|graph|) && ext == old(ext) + [0]
      ensures graph == ConditionalG(AddArgsG(old(graph) + [Fresh([])], v, args), v)
      ensures graph[v].conditional && !IsActive(graph[v]) && graph[v].args == Inert(args)
    {
      v := AddNode(args);
      ConditionalKeeps(graph, order, ext, v);
      graph := ConditionalG(graph, v);
    }

    /** `add_persistent_node`: a new constant vertex whose position is the order's first
        slot, so it is never active and never updated by the pump. */
    method AddPersistentNode() returns (v: Vid)
      requires Valid()
      modifies this`graph, this`ext
      ensures Valid()
      ensures v == old(|graph|) && ext == old(ext) + [0]
      ensures graph == old(graph) + [Fresh([]).(constant := true, positioned := true)]
      ensures graph[v].constant && Pos(graph, v) == order.items[0] && !IsActiveNode(v)
    {
      v := AddVertex(Fresh([]).(constant := true, positioned := true));
    }

    /** `add_active_node(w)`: a new eager vertex with one data edge to `w`, placed at the
        end of the order and activated by the root; the data edge is enabled (activating
        what it reaches) and the new vertex is pumped.  Afterwards the vertex is active,
        its data edge to `w` is enabled and its logical edge goes to the root. */
    method AddActiveNode(update: UpdateOracle, w: Vid) returns (v: Vid, failed: bool)
      requires Valid() && !pumpingStarted && argsBuffer == []
      requires 0 < w < |graph| && graph[w].live && !graph[w].eager
      modifies this`graph, this`order, this`ext, this`argsBuffer, this`pumpingStarted
      ensures Valid() && !pumpingStarted && argsBuffer == []
      ensures v == old(|graph|) && |graph| == v + 1 && ext == old(ext) + [0]
      ensures IsActiveNode(v) && graph[v].eager && graph[v].activator == Some(order.items[0])
      ensures graph[v].args == [Edge(w, true)]
      ensures graph[w].refCount == old(graph[w].refCount) + 1
      ensures !failed ==> order.marked == {} && graph[v].initialized
    {
      hide Inv, InvExcept, Spread;
      v := AddEagerVertex(w);
      ghost var g2 := graph;
      EnableEdge(v, 0);
      ghost var g3 := graph;
      ghost var seen, changed;
      failed, seen, changed := Pump(update, v);
      assert Skel(g2[v]) == Skel(g3[v]) && Skel(g2[w]) == Skel(g3[w]);
      TargetsOfSkel(g2[v].args, g3[v].args);
      assert graph[v] == g3[v].(initialized := graph[v].initialized);
      assert graph[w] == g3[w].(initialized := graph[w].initialized);
      EagerActive(graph, order, ext, v);
    }

    /** The part of `add_active_node` before `enable_edge`: the new vertex, its data edge
        and reference, `eager`, its position at the end of the order and its logical edge
        to the order's front.  The invariant holds except that the data edge is not
        enabled yet. */
    method AddEagerVertex(w: Vid) returns (v: Vid)
      requires Valid() && 0 < w < |graph| && graph[w].live && !graph[w].eager
      modifies this`graph, this`order, this`ext
      ensures InvExcept(graph, order, ext, v)
      ensures v == old(|graph|) && |graph| == v + 1 && ext == old(ext) + [0]
      ensures IsActive(graph[v]) && graph[v].live && graph[v].eager && graph[v].args == [Edge(w, false)]
      ensures graph[w].refCount == old(graph[w].refCount) + 1
    {
      AddEagerKeeps(graph, order, ext, w);
      v := |graph|;
      graph := graph + [Fresh([])];
      ext := ext + [0];
      graph := AddArgG(graph, v, w);
      graph := EagerG(graph, v, order.items[0]);
      order := InsertBack(order, v);
    }

    /** The argument loop of `add_node`: `add_edge(v, w)` and `graph_[w].add_ref()` per argument. */
    method AddArgs(v: Vid, args: seq<Vid>)
      requires v < |graph| && forall k | 0 <= k < |args| :: args[k] < |graph|
      modifies this`graph
      ensures graph == AddArgsG(old(graph), v, args)
    {
      var i := 0;
      while i < |args|
        invariant 0 <= i <= |args|
        invariant graph == AddArgsG(old(graph), v, args[..i])
      {
        assert args[..i + 1][..i] == args[..i];
        graph := AddArgG(graph, v, args[i]);
        i := i + 1;
      }
      assert args[..i] == args;
    }
  
    // -------------------------------------------------------------------------
    // enable_edge

    /** `enable_edge(e)` for the `j`-th edge of the active vertex `u`: the edge becomes an
        enabled data dependency, every inert vertex this makes reachable is activated and
        marked, and the order is repaired, so that the invariant holds again. */
    method EnableEdge(u: Vid, j: nat)
      requires InvExcept(graph, order, ext, u)
      requires u < |graph| && IsActive(graph[u]) && j < |graph[u].args| && !graph[u].args[j].enabled
      modifies this`graph, this`order
      ensures Valid()
      ensures SameSkeleton(old(graph), graph) && Grows(old(graph), graph) && graph[u].args[j].enabled
      ensures old(order.marked) <= order.marked
      ensures forall x | 0 <= x < |graph| && !IsActive(old(graph)[x]) && IsActive(graph[x]) :: x in order.marked
    {
      hide Activating, Placement, Closed, Matched, EdgesActive, EdgesPlaced, Sorted, Observed, EagerOk, Counted;
      ghost var g0, l0 := graph, order;
      ShapeDescending(g0, order);
      EnableStart(g0, order, ext, u, j);
      var stack := [Entry(u, graph[u].args[j].target, true, false, false)];
      graph := EnableArgG(graph, u, j);
      ghost var g1 := graph;
      EnableLoop(g0, g1, l0.marked, stack);
      DoneActivating(g0, graph, order, ext);
      GrowsTrans(g0, g1, graph);
    }

    /** The worklist loop of `enable_edge`: rounds are run until the stack is empty; every
        round keeps the invariant, only adds enabled edges and marks every vertex it
        activates. */
    method EnableLoop(ghost g0: Graph, ghost g1: Graph, ghost m0: set<Vid>, st: seq<Entry>)
      requires Descending(Structure(g0)) && |graph| == |g0| && Activating(g0, graph, order, st, {}, {})
      requires Grows(g1, graph) && m0 <= order.marked
      requires forall x | 0 <= x < |graph| && !IsActive(g0[x]) && IsActive(graph[x]) :: x in order.marked
      modifies this`graph, this`order
      ensures |graph| == |g0| && Activating(g0, graph, order, [], {}, {})
      ensures Grows(g1, graph) && m0 <= order.marked
      ensures forall x | 0 <= x < |graph| && !IsActive(g0[x]) && IsActive(graph[x]) :: x in order.marked
    {
      var stack := st;
      while stack != []
        invariant |graph| == |g0| && Activating(g0, graph, order, stack, {}, {})
        invariant Grows(g1, graph) && m0 <= order.marked
        invariant forall x | 0 <= x < |graph| && !IsActive(g0[x]) && IsActive(graph[x]) :: x in order.marked
        decreases StackWeight(Structure(g0), stack)
      {
        ghost var g2, l2, s2 := graph, order, stack;
        stack := EnableStep(stack);
        RoundKeeps(g0, g1, g2, l2, s2, m0, Run(graph, order, stack));
      }
    }

    /** One round of `enable_edge`'s loop: the top entry is popped and its target
        activated, revisited or skipped, exactly as `Step` says. */
    method EnableStep(st: seq<Entry>) returns (r: seq<Entry>)
      requires st != [] && Shape(graph, order) && Placement(graph, order) && Matched(graph) && StackOk(graph, st)
      modifies this`graph, this`order
      ensures Run(graph, order, r) == Step(old(graph), old(order), st)
    {
      var e := st[|st| - 1];
      EntryFacts(graph, order, st, |st| - 1);
      if e.enabled && !graph[e.dst].positioned {
        r := ActivateRound(st);
      } else if IsActive(graph[e.dst]) {
        r := RevisitRound(st);
      } else {
        r := st[..|st| - 1];
      }
    }

    /** `requires_activation(v)` for the top entry `(u, v)`: `v` is activated right before
        `u` and marked, and its edges are enabled and pushed. */
    method ActivateRound(st: seq<Entry>) returns (r: seq<Entry>)
      requires st != [] && Shape(graph, order) && Placement(graph, order) && Matched(graph) && StackOk(graph, st)
      requires st[|st| - 1].dst < |graph| && st[|st| - 1].enabled && !graph[st[|st| - 1].dst].positioned
      modifies this`graph, this`order
      ensures Run(graph, order, r) == ActivateStep(old(graph), old(order), st)
    {
      var e := st[|st| - 1];
      var rest := st[..|st| - 1];
      EntryFacts(graph, order, st, |st| - 1);
      var u, v := e.src, e.dst;
      ArgsBelow(graph, order, v);
      ActivatedGrows(graph, u, v);
      graph, order := ActivatedG(graph, u, v), ActivatedL(order, u, v);
      var n := if graph[v].conditional then 1 else |graph[v].args|;
      r := EnableArgs(v, n, rest);
    }

    /** The top entry `(u, v)` reaches an active `v`: `v` is rebased and repositioned as
        needed, and then passes the flags on to its enabled edges. */
    method RevisitRound(st: seq<Entry>) returns (r: seq<Entry>)
      requires st != [] && Shape(graph, order) && Placement(graph, order) && Matched(graph) && StackOk(graph, st)
      requires st[|st| - 1].dst < |graph| && IsActive(graph[st[|st| - 1].dst])
      modifies this`graph, this`order
      ensures Run(graph, order, r) == RevisitStep(old(graph), old(order), st)
    {
      var e := st[|st| - 1];
      var rest := st[..|st| - 1];
      EntryFacts(graph, order, st, |st| - 1);
      var u, v := e.src, e.dst;
      var b := ImpliedActivator(graph, u, v);
      var rebased := (e.enabled || e.rebased)
                     && Precedes(order, Pos(graph, b), Pos(graph, graph[v].activator.value));
      var a := if e.enabled then b else graph[u].activator.value;
      var repositioned := (e.enabled || e.repositioned) && Precedes(order, u, v);
      if rebased {
        graph := RebasedG(graph, v, a);
      }
      if repositioned {
        order := MoveBefore(order, v, u);
      }
      r := rest;
      if repositioned || rebased {
        r := PushArgs(v, rebased, repositioned, rest);
      }
    }

    /** The edge loop after activating `v`: the first `n` edges of `v` (only the condition
        of a conditional, otherwise all) are enabled and pushed, in order. */
    method EnableArgs(v: Vid, n: nat, st: seq<Entry>) returns (r: seq<Entry>)
      requires v < |graph| && n <= |graph[v].args|
      requires forall k | 0 <= k < |graph[v].args| :: graph[v].args[k].target < |graph|
      modifies this`graph
      ensures graph == EnableArgsG(old(graph), v, n) && r == st + EnabledEntries(old(graph), v, n)
    {
      ghost var g := graph;
      var gr := graph;
      r := st;
      for i := 0 to n
        invariant gr == EnableArgsG(g, v, i) && r == st + EnabledEntries(g, v, i)
      {
        ghost var g1, s1 := EnableArgsG(g, v, i + 1), st + EnabledEntries(g, v, i + 1);
        EnableLoopStep(g, st, v, i, gr, r, g1, s1);
        var e := Entry(v, gr[v].args[i].target, true, false, false);
        gr := EnableArgG(gr, v, i);
        r := r + [e];
      }
      graph := gr;
    }

    /** The edge loop after rebasing or repositioning `v`: every enabled edge of `v` is
        pushed, in order, carrying the two flags. */
    method PushArgs(v: Vid, rb: bool, rp: bool, st: seq<Entry>) returns (r: seq<Entry>)
      requires v < |graph|
      ensures r == st + PushedEntries(graph, v, |graph[v].args|, rb, rp)
    {
      r := st;
      var i := 0;
      while i < |graph[v].args|
        invariant 0 <= i <= |graph[v].args|
        invariant r == st + PushedEntries(graph, v, i, rb, rp)
      {
        PushedStep(graph, st, v, i + 1, rb, rp);
        if graph[v].args[i].enabled {
          r := r + [Entry(v, graph[v].args[i].target, false, rb, rp)];
        }
        i := i + 1;
      }
    }
  
    // -------------------------------------------------------------------------
    // disable_edge

    /** `disable_edge(e)` for the enabled `j`-th edge of `u`: the edge is disabled, every
        vertex left without consumers is deactivated (transitively), every vertex that lost
        the consumer its activator came from is moved before its earliest remaining
        consumer, and the invariant holds again, except that an eager `u` may be left with
        its data edge disabled. */
    method DisableEdge(u: Vid, j: nat)
      requires Valid()
      requires u < |graph| && j < |graph[u].args| && graph[u].args[j].enabled
      modifies this`graph, this`order
      ensures InvExcept(graph, order, ext, u) && (!old(graph[u].eager) ==> Valid())
      ensures SameSkeleton(old(graph), graph) && Shrinks(old(graph), graph) && !graph[u].args[j].enabled
      ensures order.marked <= old(order.marked)
    {
      hide Deactivating;
      ghost var g0 := graph;
      ShapeDescending(g0, order);
      DisableStart(g0, order, u, j);
      var stack := [graph[u].args[j].target];
      graph := DisableArgG(graph, u, j);
      ghost var g1 := graph;
      DisableLoop(g0, g1, order.marked, {u}, stack);
      DisableDone(g0, graph, order, u, ext);
      ShrinksTrans(g0, g1, graph);
    }

    /** The worklist loop of `disable_edge`: rounds are run until the stack is empty; every
        round keeps the invariant, activates and enables nothing, and adds no mark. */
    method DisableLoop(ghost g0: Graph, ghost g1: Graph, ghost m0: set<Vid>, ghost E: set<Vid>, st: seq<Vid>)
      requires Descending(Structure(g0)) && Deactivating(g0, graph, order, st, {}, E)
      requires Shrinks(g1, graph) && order.marked <= m0
      modifies this`graph, this`order
      ensures Deactivating(g0, graph, order, [], {}, E)
      ensures Shrinks(g1, graph) && order.marked <= m0
    {
      var stack := st;
      while stack != []
        invariant Deactivating(g0, graph, order, stack, {}, E)
        invariant Shrinks(g1, graph) && order.marked <= m0
        decreases PendingWeight(Structure(g0), stack)
      {
        ghost var g2, l2, s2 := graph, order, stack;
        stack := DisableRound(stack);
        DisableRoundKeeps(g0, g1, g2, l2, s2, m0, E, DRun(graph, order, stack), Corrected);
      }
    }

    /** One round of `disable_edge`'s loop: the top vertex is popped and skipped,
        deactivated or moved, exactly as `DisableStep` says under the corrected
        re-anchoring rule. */
    method DisableRound(st: seq<Vid>) returns (r: seq<Vid>)
      requires st != [] && Shape(graph, order) && Placement(graph, order) && Matched(graph) && EdgesActive(graph, {})
      requires st[|st| - 1] < |graph|
      modifies this`graph, this`order
      ensures DRun(graph, order, r) == DisableStep(old(graph), old(order), st, Corrected)
    {
      var w := st[|st| - 1];
      var rest := st[..|st| - 1];
      if graph[w].constant || !graph[w].positioned {
        r := rest;
      } else if graph[w].consumers == [] {
        assert VertexOk(graph, w);
        r := DeactivateRound(w, rest);
      } else if KeepsAnchor(Corrected, graph, w) {
        r := rest;
      } else {
        ConsumerFacts(graph, order, w);
        var c := Earliest(order, graph[w].consumers);
        var b := NewAnchor(Corrected, graph, order, w);
        order := MoveBefore(order, w, c);
        graph := RebasedG(graph, w, b);
        r := PushTargets(w, rest);
      }
    }

    /** `deactivate_vertex_(w)` and the edge loop after it: `w` loses its position, its
        logical edge and `initialized`, and every enabled edge of `w` is disabled and its
        target pushed, in order. */
    method DeactivateRound(w: Vid, st: seq<Vid>) returns (r: seq<Vid>)
      requires w < |graph| && w in order.items
      requires forall k | 0 <= k < |graph[w].args| :: graph[w].args[k].target < |graph|
      modifies this`graph, this`order
      ensures graph == DisableArgsG(DeactivatedG(old(graph), w), w, |old(graph)[w].args|)
      ensures order == Erase(old(order), w) && r == st + EnabledTargets(old(graph)[w].args)
    {
      order := Erase(order, w);
      graph := DeactivatedG(graph, w);
      r := DisableArgs(w, st);
    }

    /** The edge loop after a deactivation: each enabled edge of `w` is disabled with
        `disable_edge_` and its target pushed, in order. */
    method DisableArgs(w: Vid, st: seq<Vid>) returns (r: seq<Vid>)
      requires w < |graph| && forall k | 0 <= k < |graph[w].args| :: graph[w].args[k].target < |graph|
      modifies this`graph
      ensures graph == DisableArgsG(old(graph), w, |old(graph)[w].args|)
      ensures r == st + EnabledTargets(old(graph)[w].args)
    {
      ghost var g := graph;
      var gr := graph;
      var n := |graph[w].args|;
      r := st;
      for i := 0 to n
        invariant gr == DisableArgsG(g, w, i) && r == st + EnabledTargets(g[w].args[..i])
      {
        ghost var g1, s1 := DisableArgsG(g, w, i + 1), st + EnabledTargets(g[w].args[..i + 1]);
        DisableNextUnfold(g, st, w, i + 1, gr, r, g1, s1);
        if gr[w].args[i].enabled {
          var t := gr[w].args[i].target;
          gr := DisableArgG(gr, w, i);
          r := r + [t];
        }
      }
      assert g[w].args[..|g[w].args|] == g[w].args;
      graph := gr;
    }

    /** The edge loop after a move: the target of every enabled edge of `w` is pushed, in
        order. */
    method PushTargets(w: Vid, st: seq<Vid>) returns (r: seq<Vid>)
      requires w < |graph|
      ensures r == st + EnabledTargets(graph[w].args)
    {
      r := st;
      var i := 0;
      while i < |graph[w].args|
        invariant 0 <= i <= |graph[w].args|
        invariant r == st + EnabledTargets(graph[w].args[..i])
      {
        EnabledTargetsPrefix(graph[w].args, i);
        if graph[w].args[i].enabled {
          r := r + [graph[w].args[i].target];
        }
        i := i + 1;
      }
      assert graph[w].args[..i] == graph[w].args;
    }
 
    // -------------------------------------------------------------------------
    // pump

    /** `pump(v)`: `v`'s position is marked (a constant's position is the root's slot),
        and the marked positions are updated in order.  Whether or not an update fails,
        pumping has stopped and the argument buffer is empty afterwards; the graph and
        order differ only in marks and `initialized` flags.  `seen` holds every position
        that was marked at some point, `v`'s and the consumers of every vertex whose
        update reported a change (`changed`) among them.  When no update fails, nothing
        is marked any more and every position in `seen` has been updated. */
    method Pump(update: UpdateOracle, v: Vid) returns (failed: bool, ghost seen: set<Vid>, ghost changed: set<Vid>)
      requires Valid() && !pumpingStarted && argsBuffer == [] && v < |graph|
      modifies this`graph, this`order, this`argsBuffer, this`pumpingStarted
      ensures Valid() && !pumpingStarted && argsBuffer == []
      ensures Initializes(old(graph), graph) && order.items == old(order.items)
      ensures old(order.marked) <= seen && (old(graph[v].positioned) ==> Pos(old(graph), v) in seen)
      ensures Spread(graph, seen, changed)
      ensures !failed ==> order.marked == {}
      ensures !failed ==> forall x | x in seen :: x < |graph| && graph[x].initialized
    {
      pumpingStarted := true;
      if graph[v].positioned {
        assert VertexOk(graph, v);
        RemarkKeeps(graph, order, Mark(order, Pos(graph, v)), ext);
        order := Mark(order, Pos(graph, v));
      }
      failed, seen, changed := PumpLoop(update);
      if failed {
        argsBuffer := [];
      }
      pumpingStarted := false;
    }

    /** `pump_`: while some position is marked, the earliest one is visited.  The loop
        ends because the earliest mark moves forward in every round.  `seen` collects
        every position marked at some point and `changed` every vertex whose update
        reported a change; the consumers of those were marked, so they are in `seen`. */
    method PumpLoop(update: UpdateOracle) returns (failed: bool, ghost seen: set<Vid>, ghost changed: set<Vid>)
      requires Valid() && argsBuffer == []
      modifies this`graph, this`order, this`argsBuffer
      ensures Valid() && Initializes(old(graph), graph) && order.items == old(order.items)
      ensures old(order.marked) <= seen && Spread(graph, seen, changed)
      ensures !failed ==> order.marked == {} && argsBuffer == []
      ensures !failed ==> forall x | x in seen :: x < |graph| && graph[x].initialized
    {
      failed := false;
      seen, changed := order.marked, {};
      var it := BeginMarked(order);
      InitializesRefl(graph);
      while it.Some?
        invariant Valid() && argsBuffer == [] && it == BeginMarked(order)
        invariant Initializes(old(graph), graph) && order.items == old(order.items)
        invariant old(order.marked) <= seen && Updated(graph, order, seen) && Spread(graph, seen, changed)
        decreases Pending(order)
      {
        var v := it.value;
        ghost var g, l := graph, order;
        var status := PumpRound(update, v);
        if status == Failed {
          PumpRoundFails(g, l, ext, v);
          failed := true;
          return;
        }
        PumpRoundKeeps(g, l, ext, v, status == Changed);
        InitializesTrans(old(graph), g, graph);
        ghost var seen', changed' := seen, changed;
        if status == Changed {
          seen', changed' := seen + (set c | c in g[v].consumers), changed + {v};
        }
        SeenRound(g, l, v, status == Changed, seen, changed, seen', changed');
        seen, changed := seen', changed';
        it := BeginMarked(order);
      }
      BeginMarkedIsEarliest(order);
    }

    /** One round of `pump_` at the earliest marked position `v`: `v` is unmarked, the
        argument buffer gets the targets of `v`'s enabled edges, and `update` is called
        with them and with `v`'s flag.  If it fails, that is all.  Otherwise the
        consumers of `v` are marked if the value changed, `v` becomes initialized and the
        buffer is cleared. */
    method PumpRound(update: UpdateOracle, v: Vid) returns (status: Status)
      requires v < |graph| && argsBuffer == []
      modifies this`graph, this`order, this`argsBuffer
      ensures status == update(v, old(graph[v].initialized), EnabledTargets(old(graph[v].args)))
      ensures status == Failed ==> graph == old(graph) && order == Unmark(old(order), v)
      ensures status == Failed ==> argsBuffer == EnabledTargets(old(graph[v].args))
      ensures status != Failed ==> argsBuffer == [] && graph == InitializedG(old(graph), v)
      ensures status != Failed ==> order == Visited(old(order), v, old(graph[v].consumers), status == Changed)
    {
      order := Unmark(order, v);
      argsBuffer := PushTargets(v, argsBuffer);
      assert argsBuffer == EnabledTargets(graph[v].args);
      status := update(v, graph[v].initialized, argsBuffer);
      if status == Failed {
        return;
      }
      if status == Changed {
        MarkConsumers(v);
      }
      graph := InitializedG(graph, v);
      argsBuffer := [];
    }

    /** The loop marking the position of every consumer of `v` (a consumer is active, so
        its position is its own slot). */
    method MarkConsumers(v: Vid)
      requires v < |graph|
      modifies this`order
      ensures order == TopoList(old(order).items, old(order).marked + set c | c in graph[v].consumers)
    {
      var cs := graph[v].consumers;
      for k := 0 to |cs|
        invariant order == TopoList(old(order).items, old(order).marked + set c | c in cs[..k])
      {
        assert cs[..k + 1] == cs[..k] + [cs[k]];
        order := Mark(order, cs[k]);
      }
      assert cs[..|cs|] == cs;
    }
  
    // -------------------------------------------------------------------------
    // handles

    /** `add_ref(v)`: a client takes a new handle on the live vertex `v`, whose count goes
        up by one. */
    method AddRef(v: Vid)
      requires Valid() && v < |graph| && graph[v].live
      modifies this`graph, this`ext
      ensures Valid() && |ext| == |graph| && ext == old(ext)[v := old(ext[v]) + 1]
      ensures graph == old(graph)[v := old(graph[v]).(refCount := old(graph[v].refCount) + 1)]
    {
      hide Inv;
      HeldLive(graph, order, ext);
      RecountKeeps(graph, order, ext, v, ext[v] + 1);
      graph := Recounted(graph, v, graph[v].refCount + 1);
      ext := ext[v := ext[v] + 1];
    }

    /** `release(v)`: a client drops one of its handles on `v`, whose count goes down by
        one; when that was the last reference, `remove_subgraph_(v)` tears `v` down with
        everything only it kept alive.  Every vertex that is still held by a handle stays
        alive. */
    method Release(v: Vid)
      requires Valid() && 0 < v < |graph| && ext[v] > 0
      modifies this`graph, this`order, this`ext
      ensures Valid() && |ext| == |graph| == old(|graph|) && ext == old(ext)[v := old(ext[v]) - 1]
      ensures old(graph[v].refCount) > 1 ==>
                order == old(order)
                && graph == old(graph)[v := old(graph[v]).(refCount := old(graph[v].refCount) - 1)]
      ensures old(graph[v].refCount) == 1 ==> !graph[v].live
      ensures old(graph[v].refCount) == 1 ==>
                forall x | 0 <= x < |graph| && x != v && graph[x].live && graph[x].refCount == 0 ::
                  old(graph)[x].refCount == 0
      ensures old(graph[v].refCount) == 1 ==>
                forall x | 0 <= x < |graph| && old(graph)[x].live && !graph[x].live ::
                  x == v || exists y | 0 <= y < |graph| && old(graph)[y].live && !graph[y].live ::
                              x in Targets(old(graph)[y].args)
      ensures forall x | 0 <= x < |graph| && ext[x] > 0 :: graph[x].live
    {
      hide Inv;
      HeldLive(graph, order, ext);
      RecountKeeps(graph, order, ext, v, ext[v] - 1);
      graph := Recounted(graph, v, graph[v].refCount - 1);
      ext := ext[v := ext[v] - 1];
      if graph[v].refCount == 0 {
        RemoveSubgraph(v);
      }
      HeldLive(graph, order, ext);
    }

    /** `get_metadata(v)`: what is attached to `v`, if anything. */
    function MetadataOf(v: Vid): (m: Option<Metadata>)
      reads this
    {
      if v in metadata then Some(metadata[v]) else None
    }

    /** `set_metadata(v, m)`: `m` is attached to `v`, replacing what was attached before;
        a null `m` leaves `v` with nothing attached. */
    method SetMetadata(v: Vid, m: Option<Metadata>)
      modifies this`metadata
      ensures MetadataOf(v) == m
      ensures forall x | x != v :: MetadataOf(x) == old(MetadataOf(x))
    {
      if m.Some? {
        metadata := metadata[v := m.value];
      } else {
        metadata := metadata - {v};
      }
    }

    /** `schedule_for_next_update(v)`: `v` is queued behind the vertices already waiting. */
    method ScheduleForNextUpdate(v: Vid)
      modifies this`nextUpdate
      ensures nextUpdate == old(nextUpdate) + [v]
    {
      nextUpdate := nextUpdate + [v];
    }

    // -------------------------------------------------------------------------
    // remove_subgraph_

    /** `remove_subgraph_(v)` for a vertex nobody holds.  An eager `v` is first detached:
        its data edge is disabled (deactivating what only it kept active), its logical
        edge is removed and its position erased.  Then the depth-first visit from `v`
        releases the edges of every vertex it discovers and deletes it.  Afterwards the
        invariant holds, `v` is deleted, every vertex that lost its last reference is
        deleted, and every deleted vertex is `v` or a target of a deleted vertex; the
        survivors keep their records apart from their counts (and, after an eager `v`,
        apart from what the deactivation changed). */
    method RemoveSubgraph(v: Vid)
      requires Valid() && 0 < v < |graph| && graph[v].live && graph[v].refCount == 0
      modifies this`graph, this`order
      ensures Valid() && |graph| == old(|graph|) && !graph[v].live
      ensures forall x | 0 <= x < |graph| && graph[x].live && graph[x].refCount == 0 :: old(graph)[x].refCount == 0
      ensures forall x | 0 <= x < |graph| && old(graph)[x].live && !graph[x].live ::
                x == v || exists y | 0 <= y < |graph| && old(graph)[y].live && !graph[y].live ::
                            x in Targets(old(graph)[y].args)
      ensures forall x | 0 <= x < |graph| && graph[x].live ::
                Skel(graph[x]) == Skel(old(graph)[x].(refCount := graph[x].refCount))
      ensures !old(graph[v].eager) ==>
                order == old(order)
                && forall x | 0 <= x < |graph| && graph[x].live ::
                     graph[x] == old(graph)[x].(refCount := graph[x].refCount)
    {
      ghost var O := graph;
      ghost var B := graph;
      if graph[v].eager {
        B := DetachEager(v);
      }
      hide Inv, Valid;
      ghost var R := ReleaseSubgraph(B, v);
      TeardownEffect(O, B, graph, R, v);
      SweptSurvivors(B, graph, R);
    }

    /** The eager part of `remove_subgraph_`: the data edge of `v` is disabled, which
        deactivates what only `v` kept active, then its logical edge is removed and its
        position erased.  The result `B` is the graph the depth-first visit then runs
        over: the new graph with `v`'s flags cleared. */
    method DetachEager(v: Vid) returns (ghost B: Graph)
      requires Valid() && 0 < v < |graph| && graph[v].live && graph[v].refCount == 0 && graph[v].eager
      modifies this`graph, this`order
      ensures Inv(B, order, ext) && |B| == |graph| == old(|graph|) && !B[v].eager
      ensures forall x | 0 <= x < |graph| && x != v :: graph[x] == B[x]
      ensures graph[v].live && graph[v].args == B[v].args && graph[v].refCount == 0 && B[v].refCount == 0
      ensures B[v].live && Disabled(B[v].args) == Disabled(old(graph)[v].args)
      ensures forall x | 0 <= x < |B| && x != v :: Skel(B[x]) == Skel(old(graph)[x])
    {
      hide Inv, InvExcept;
      ghost var O := graph;
      EagerActive(graph, order, ext, v);
      DisableEdge(v, 0);
      ghost var g1 := graph;
      DetachKeeps(graph, order, ext, v);
      graph := graph[v := graph[v].(activator := None)];
      order := Erase(order, v);
      graph := graph[v := graph[v].(positioned := false)];
      B := Base(g1, v);
      assert graph == DetachedG(g1, v);
      BaseSkeleton(O, g1, v);
    }

    /** The depth-first visit of `remove_subgraph_` from `v` over the base graph `B`:
        `discover_vertex` releases every structural edge of the vertex and colours white
        each target left without references, the visit goes on into white targets, and
        `finish_vertex` deletes the vertex.  The discovered vertices `R` are exactly the
        deleted ones; each is `v` or a target of another, and every vertex that kept its
        record but lost its last reference has been discovered. */
    method ReleaseSubgraph(ghost B: Graph, v: Vid) returns (ghost R: set<Vid>)
      requires Inv(B, order, ext) && 0 < v < |B| && B[v].live && !B[v].eager && B[v].refCount == 0
      requires |graph| == |B| && forall x | 0 <= x < |graph| && x != v :: graph[x] == B[x]
      requires graph[v].live && graph[v].args == B[v].args && graph[v].refCount == 0
      modifies this`graph
      ensures Valid() && v in R && Swept(B, graph, R) && Reached(Structure(B), R, v)
      ensures forall x | x in R :: x < |B| && B[x].live
      ensures forall x | 0 <= x < |B| && x !in R && B[x].live && graph[x].refCount == 0 :: B[x].refCount == 0
    {
      hide Inv, Releasing, Reached, Work, Swept;
      ghost var S := Structure(B);
      ghost var N := |graph|;
      var white: set<Vid> := {v};
      StartReady(B, order, ext, graph, v);
      ghost var g0 := graph;
      white := white - {v};
      white := ReleaseTargets(v, white);
      StartVisit(B, order, ext, g0, v, graph, white);
      R := {v};
      var stack := [Frame(v, 0)];
      while stack != []
        invariant |graph| == N && Inv(B, order, ext)
        invariant Releasing(B, graph, ext, R, white, stack) && v in R && Reached(S, R, v)
        decreases (set x | 0 <= x < N && x !in R), Work(S, stack)
      {
        ghost var R0 := R;
        white, stack, R := VisitRound(B, v, R, white, stack);
        if R != R0 {
          ghost var y :| 0 <= y < N && y !in R0 && R == R0 + {y};
          ghost var before := set x | 0 <= x < N && x !in R0;
          ghost var after := set x | 0 <= x < N && x !in R;
          assert y in before && y !in after && after <= before;
        }
      }
      DoneKeeps(B, order, ext, graph, R, white);
    }

    /** One step of the depth-first visit: the next edge of the top frame is examined,
        and its target discovered if it is white; or, when the frame has no edge left,
        the frame is finished and its vertex deleted (`finish_vertex`). */
    method VisitRound(ghost B: Graph, ghost v: Vid, ghost R: set<Vid>, white: set<Vid>, stack: seq<Frame>)
      returns (white2: set<Vid>, stack2: seq<Frame>, ghost R2: set<Vid>)
      requires Inv(B, order, ext) && Releasing(B, graph, ext, R, white, stack) && Reached(Structure(B), R, v)
      requires stack != []
      modifies this`graph
      ensures Releasing(B, graph, ext, R2, white2, stack2) && Reached(Structure(B), R2, v)
      ensures R <= R2 && |graph| == old(|graph|)
      ensures R2 == R ==> Work(Structure(B), stack2) < Work(Structure(B), stack)
      ensures R2 != R ==> exists y | 0 <= y < |graph| :: y !in R && R2 == R + {y}
    {
      hide Inv, Releasing, Reached, Work;
      var f := stack[|stack| - 1];
      TopFrame(B, graph, ext, R, white, stack);
      R2 := R;
      if f.i < |graph[f.x].args| {
        var y := graph[f.x].args[f.i].target;
        stack2 := stack[|stack| - 1 := Frame(f.x, f.i + 1)];
        assert stack2 == Advanced(stack);
        if y in white {
          ExamineReady(B, order, ext, graph, R, white, stack);
          ghost var g0 := graph;
          white2 := white - {y};
          white2 := ReleaseTargets(y, white2);
          ExamineWhite(B, order, ext, g0, R, white, stack, v, graph, white2);
          R2 := R + {y};
          stack2 := stack2 + [Frame(y, 0)];
        } else {
          ExamineOther(B, order, ext, graph, R, white, stack);
          white2 := white;
        }
      } else {
        FinishKeeps(B, ext, graph, R, white, stack);
        white2 := white;
        stack2 := stack[..|stack| - 1];
        if graph[f.x].refCount == 0 {
          graph := graph[f.x := Dead];
        }
      }
    }

    /** `discover_vertex(u)`: every structural out-edge of `u` is released, in order,
        and each target whose count reaches zero is coloured white. */
    method ReleaseTargets(u: Vid, white: set<Vid>) returns (w2: set<Vid>)
      requires u < |graph| && forall k | 0 <= k < |graph[u].args| :: graph[u].args[k].target < |graph|
      requires Fits(graph, Targets(graph[u].args))
      modifies this`graph
      ensures graph == Lowered(old(graph), Targets(old(graph)[u].args))
      ensures Whitened(w2, white, Targets(old(graph)[u].args), graph)
    {
      var gr, w := ReleaseAll(graph, Targets(graph[u].args), white);
      graph, w2 := gr, w;
    }
  }
}
