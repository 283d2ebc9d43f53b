/**
 * The steps of `enable_edge` (engine.cpp): enabling a data edge, activating an
 * inert target in front of its consumer, rebasing and repositioning a target that
 * is already active, and the work the stack still holds while it runs.
 *
 * While the stack is not empty the invariant may be broken, but only where the
 * stack says so: an enabled entry `(u, v)` may still have an unpositioned target
 * `v`, and an enabled or repositioned entry may still have its target after its
 * source in the order.  `Activating` is the invariant with these exemptions.
 */
module Activation {
  import opened Wrappers
  import opened TopologicalList
  import opened DependencyGraph

  /** An element of `enable_edge`'s stack: the edge from `src` to `dst` and its flags. */
  datatype Entry = Entry(src: Vid, dst: Vid, enabled: bool, rebased: bool, repositioned: bool)

  /** The edges whose target may still need a position: the enabled entries. */
  ghost function Unplaced(st: seq<Entry>): set<(Vid, Vid)> {
    set k | 0 <= k < |st| && st[k].enabled :: (st[k].src, st[k].dst)
  }

  /** The edges whose target may still come after their source. */
  ghost function Unsorted(st: seq<Entry>): set<(Vid, Vid)> {
    set k | 0 <= k < |st| && (st[k].enabled || st[k].repositioned) :: (st[k].src, st[k].dst)
  }

  /** The enabled out-edges of `v` from index `j` on: after `v` moved, the ones not pushed yet. */
  ghost function Outgoing(g: Graph, v: Vid, j: nat): set<(Vid, Vid)>
    requires v < |g|
  {
    set k | j <= k < |g[v].args| && g[v].args[k].enabled :: (v, g[v].args[k].target)
  }

  /** Every entry is an enabled edge leaving an active vertex. */
  ghost predicate StackOk(g: Graph, st: seq<Entry>) {
    forall k | 0 <= k < |st| ::
      st[k].src < |g| && IsActive(g[st[k].src]) && Edge(st[k].dst, true) in g[st[k].src].args
  }

  /** The invariant while `enable_edge` runs, started from `g0`, with stack `st`, the extra
      unsorted pairs `X` and the eager vertices `E` whose data edge may be disabled.
      Proof note: the body is a single comparison, so a use of the predicate does not
      bring in each conjunct. */
  ghost predicate Activating(g0: Graph, g: Graph, l: TopoList, st: seq<Entry>, X: set<(Vid, Vid)>, E: set<Vid>) {
    (SameSkeleton(g0, g) && Shape(g, l) && Placement(g, l) && Closed(g, {}) && Matched(g) && EdgesActive(g, {})
     && EdgesPlaced(g, Unplaced(st)) && Sorted(g, l, Unsorted(st) + X, {}) && Observed(g, {})
     && EagerOk(g, E) && StackOk(g, st)) == true
  }

  /** Restating the invariant of a running `enable_edge` for equal arguments. */
  lemma ActivatingEq(g0: Graph, g: Graph, g': Graph, l: TopoList, l': TopoList, st: seq<Entry>, st': seq<Entry>,
                     X: set<(Vid, Vid)>, X': set<(Vid, Vid)>, E: set<Vid>, E': set<Vid>)
    requires Activating(g0, g, l, st, X, E)
    requires g == g' && l == l' && st == st' && X == X' && E == E'
    ensures Activating(g0, g', l', st', X', E')
  {
  }

  // ---------------------------------------------------------------------------
  // The steps, as functions of the state.

  /** `enable_edge_(e)` for the `j`-th edge of `u`: the edge is enabled and `u` is put at
      the front of its target's consumers. */
  function EnableArgG(g: Graph, u: Vid, j: nat): Graph
    requires u < |g| && j < |g[u].args| && g[u].args[j].target < |g|
  {
    var t := g[u].args[j].target;
    var g1 := g[u := g[u].(args := g[u].args[j := Edge(t, true)])];
    g1[t := g1[t].(consumers := [u] + g1[t].consumers)]
  }

  /** `activate_vertex_(v, insert(position(u), v), implied_activator_(u, v))`: the vertex
      part. */
  function ActivatedG(g: Graph, u: Vid, v: Vid): Graph
    requires u < |g| && v < |g| && g[u].activator.Some?
  {
    g[v := g[v].(positioned := true, activator := Some(ImpliedActivator(g, u, v)))]
  }

  /** The order part of the activation: `v` right before `u`, and marked. */
  function ActivatedL(l: TopoList, u: Vid, v: Vid): TopoList
    requires u in l.items && v !in l.items
  {
    Mark(Insert(l, u, v), v)
  }

  /** `reset_activator_(v, b)`: the logical edge of `v` now leads to `b`. */
  function RebasedG(g: Graph, v: Vid, b: Vid): Graph
    requires v < |g|
  {
    g[v := g[v].(activator := Some(b))]
  }

  // ---------------------------------------------------------------------------
  // Termination: every entry weighs as much as the paths leaving its target.

  function StackWeight(S: seq<seq<Vid>>, st: seq<Entry>): nat
    requires Descending(S)
  {
    if st == [] then 0
    else StackWeight(S, st[..|st| - 1]) + (if st[|st| - 1].dst < |S| then Weight(S, st[|st| - 1].dst) else 0)
  }

  lemma StackWeightPush(S: seq<seq<Vid>>, st: seq<Entry>, e: Entry)
    requires Descending(S) && e.dst < |S|
    ensures StackWeight(S, st + [e]) == StackWeight(S, st) + Weight(S, e.dst)
  {
    assert (st + [e])[..|st|] == st;
  }

  /** Pushing the entry for the `i`-th edge of `v`, or not, keeps the weight of the pushes
      within the weights of the edges visited so far. */
  lemma PushWeight(S: seq<seq<Vid>>, st: seq<Entry>, w: nat, v: Vid, i: nat, e: Entry, push: bool)
    requires Descending(S) && v < |S| && i < |S[v]| && e.dst == S[v][i]
    requires StackWeight(S, st) <= w + SumWeights(S, S[v][..i], v)
    ensures StackWeight(S, if push then st + [e] else st) <= w + SumWeights(S, S[v][..i + 1], v)
  {
    SumWeightsPrefix(S, S[v], v, i);
    if push {
      StackWeightPush(S, st, e);
    }
  }

  /** All the pushes for the edges of `v` weigh less than the entry for `v` did. */
  lemma PopWeight(S: seq<seq<Vid>>, st: seq<Entry>, e: Entry, r: seq<Entry>)
    requires Descending(S) && e.dst < |S|
    requires StackWeight(S, r) <= StackWeight(S, st) + SumWeights(S, S[e.dst][..|S[e.dst]|], e.dst)
    ensures StackWeight(S, r) < StackWeight(S, st + [e])
  {
    assert S[e.dst][..|S[e.dst]|] == S[e.dst];
    StackWeightPush(S, st, e);
  }

  /** The structure of the graph `enable_edge` started from lists the targets of the
      current edges. */
  lemma SkeletonTarget(g0: Graph, g: Graph, v: Vid, i: nat)
    requires SameSkeleton(g0, g) && v < |g| && i < |g[v].args|
    ensures |Structure(g0)[v]| == |g[v].args| && Structure(g0)[v][i] == g[v].args[i].target
  {
    assert Skel(g0[v]) == Skel(g[v]);
    assert Disabled(g0[v].args)[i] == Disabled(g[v].args)[i];
  }

  lemma SkeletonArity(g0: Graph, g: Graph, v: Vid)
    requires SameSkeleton(g0, g) && v < |g|
    ensures |Structure(g0)[v]| == |g[v].args|
  {
    assert Skel(g0[v]) == Skel(g[v]);
    assert |Disabled(g0[v].args)| == |Disabled(g[v].args)|;
  }

  /** The weights of a prefix are at most the weights of a longer prefix. */
  lemma {:induction false} SumWeightsMono(S: seq<seq<Vid>>, ts: seq<Vid>, bound: Vid, i: nat, j: nat)
    requires Descending(S) && bound <= |S| && i <= j <= |ts|
    requires forall k | 0 <= k < |ts| :: ts[k] < bound
    ensures SumWeights(S, ts[..i], bound) <= SumWeights(S, ts[..j], bound)
  {
    if i < j {
      SumWeightsMono(S, ts, bound, i, j - 1);
      SumWeightsPrefix(S, ts, bound, j - 1);
    }
  }

  /** Nothing `enable_edge` does is undone: active vertices stay active and enabled
      edges stay enabled. */
  ghost predicate Grows(g1: Graph, g2: Graph) {
    |g1| == |g2|
    && forall x | 0 <= x < |g1| ::
         (IsActive(g1[x]) ==> IsActive(g2[x])) && |g1[x].args| == |g2[x].args|
         && forall i | 0 <= i < |g1[x].args| :: g1[x].args[i].enabled ==> g2[x].args[i].enabled
  }

  lemma GrowsRefl(g: Graph)
    ensures Grows(g, g)
  {
  }

  lemma GrowsTrans(g1: Graph, g2: Graph, g3: Graph)
    requires Grows(g1, g2) && Grows(g2, g3)
    ensures Grows(g1, g3)
  {
    forall x | 0 <= x < |g1|
      ensures (IsActive(g1[x]) ==> IsActive(g3[x])) && |g1[x].args| == |g3[x].args|
      ensures forall i | 0 <= i < |g1[x].args| :: g1[x].args[i].enabled ==> g3[x].args[i].enabled
    {
      forall i | 0 <= i < |g1[x].args| && g1[x].args[i].enabled
        ensures g3[x].args[i].enabled
      {
        assert g2[x].args[i].enabled;
      }
    }
  }

  /** Enabling the `j`-th edge of `u` enables that edge and changes no other flag. */
  lemma EnableArgGrows(g: Graph, u: Vid, j: nat)
    requires u < |g| && j < |g[u].args| && g[u].args[j].target < |g|
    ensures Grows(g, EnableArgG(g, u, j))
    ensures var g' := EnableArgG(g, u, j);
            g'[u].args[j].enabled && IsActive(g'[u]) == IsActive(g[u]) && g'[u].conditional == g[u].conditional
            && (forall i | 0 <= i < |g[u].args| && i != j :: g'[u].args[i] == g[u].args[i])
            && forall x | 0 <= x < |g| :: IsActive(g'[x]) == IsActive(g[x])
  {
  }

  lemma ActivatedGrows(g: Graph, u: Vid, v: Vid)
    requires u < |g| && v < |g| && g[u].activator.Some?
    ensures Grows(g, ActivatedG(g, u, v))
    ensures ActivatedG(g, u, v)[v].args == g[v].args && ActivatedG(g, u, v)[v].conditional == g[v].conditional
    ensures forall x | 0 <= x < |g| && x != v :: IsActive(ActivatedG(g, u, v)[x]) == IsActive(g[x])
  {
  }

  lemma RebasedGrows(g: Graph, v: Vid, b: Vid)
    requires v < |g|
    ensures Grows(g, RebasedG(g, v, b))
    ensures forall x | 0 <= x < |g| :: IsActive(RebasedG(g, v, b)[x]) == IsActive(g[x])
  {
  }

  // ---------------------------------------------------------------------------
  // The pending sets.

  lemma PendingPush(st: seq<Entry>, e: Entry)
    ensures Unplaced(st + [e]) == Unplaced(st) + (if e.enabled then {(e.src, e.dst)} else {})
    ensures Unsorted(st + [e]) == Unsorted(st) + (if e.enabled || e.repositioned then {(e.src, e.dst)} else {})
  {
    var s := st + [e];
    assert s[|st|] == e;
    forall p | p in Unplaced(st)
      ensures p in Unplaced(s)
    {
      var k :| 0 <= k < |st| && st[k].enabled && p == (st[k].src, st[k].dst);
      assert s[k] == st[k];
    }
    forall p | p in Unplaced(s)
      ensures p in Unplaced(st) + (if e.enabled then {(e.src, e.dst)} else {})
    {
      var k :| 0 <= k < |s| && s[k].enabled && p == (s[k].src, s[k].dst);
      if k < |st| { assert s[k] == st[k]; }
    }
    forall p | p in Unsorted(st)
      ensures p in Unsorted(s)
    {
      var k :| 0 <= k < |st| && (st[k].enabled || st[k].repositioned) && p == (st[k].src, st[k].dst);
      assert s[k] == st[k];
    }
    forall p | p in Unsorted(s)
      ensures p in Unsorted(st) + (if e.enabled || e.repositioned then {(e.src, e.dst)} else {})
    {
      var k :| 0 <= k < |s| && (s[k].enabled || s[k].repositioned) && p == (s[k].src, s[k].dst);
      if k < |st| { assert s[k] == st[k]; }
    }
  }

  lemma OutgoingStep(g: Graph, v: Vid, j: nat)
    requires v < |g| && j < |g[v].args|
    ensures Outgoing(g, v, j) == Outgoing(g, v, j + 1)
              + (if g[v].args[j].enabled then {(v, g[v].args[j].target)} else {})
  {
  }

  lemma OutgoingEnd(g: Graph, v: Vid)
    requires v < |g|
    ensures Outgoing(g, v, |g[v].args|) == {}
  {
  }

  /** The state before `enable_edge` starts: the invariant, except possibly for the eager
      data edge of `u`, is the invariant of an empty stack. */
  lemma StartActivating(g: Graph, l: TopoList, u: Vid)
    requires Shape(g, l) && Placement(g, l) && Closed(g, {}) && Matched(g) && EdgesActive(g, {})
    requires EdgesPlaced(g, {}) && Sorted(g, l, {}, {}) && Observed(g, {}) && EagerOk(g, {u})
    ensures Activating(g, g, l, [], {}, {u})
  {
    assert Unplaced([]) == {} && Unsorted([]) == {};
  }

  /** The invariant once the stack is empty. */
  lemma DoneActivating(g0: Graph, g: Graph, l: TopoList, ext: seq<nat>)
    requires Activating(g0, g, l, [], {}, {}) && Counted(g0, ext)
    ensures Inv(g, l, ext) && SameSkeleton(g0, g)
  {
    assert Unplaced([]) == {} && Unsorted([]) == {};
    SkeletonCounted(g0, g, ext);
  }

  // ---------------------------------------------------------------------------
  // Enabling an edge.

  /** `enable_edge_` keeps the invariant once the edge is pushed as an enabled entry, and
      it completes the eager vertex `u`. */
  lemma EnableArgKeeps(g0: Graph, g: Graph, l: TopoList, st: seq<Entry>, X: set<(Vid, Vid)>, E: set<Vid>, u: Vid, j: nat)
    requires Activating(g0, g, l, st, X, E)
    requires u < |g| && IsActive(g[u]) && j < |g[u].args| && !g[u].args[j].enabled
    ensures g[u].args[j].target < |g|
    ensures Activating(g0, EnableArgG(g, u, j), l, st + [Entry(u, g[u].args[j].target, true, false, false)], X, E - {u})
  {
    assert VertexOk(g, u);
    assert ArgOk(g, u, g[u].args[j].target);
    var t := g[u].args[j].target;
    var g' := EnableArgG(g, u, j);
    var e := Entry(u, t, true, false, false);
    PendingPush(st, e);
    EnableArgSkeleton(g, u, j);
    SameSkeletonTrans(g0, g, g');
    SkeletonClosed(g, g');
    EnableArgShape(g, l, u, j);
    EnableArgMatched(g, l, u, j);
    EnableArgEdges(g, l, st, X, E, u, j);
    EnableArgStack(g, l, st, u, j);
  }

  lemma EnableArgSkeleton(g: Graph, u: Vid, j: nat)
    requires u < |g| && j < |g[u].args| && 0 < g[u].args[j].target < u
    ensures SameSkeleton(g, EnableArgG(g, u, j))
  {
    DisabledFlip(g[u].args, j, true);
  }

  lemma EnableArgShape(g: Graph, l: TopoList, u: Vid, j: nat)
    requires Shape(g, l) && Placement(g, l) && Closed(g, {}) && u < |g| && IsActive(g[u]) && j < |g[u].args|
    requires 0 < g[u].args[j].target < u
    ensures Shape(EnableArgG(g, u, j), l) && Placement(EnableArgG(g, u, j), l)
  {
    var g' := EnableArgG(g, u, j);
    var t := g[u].args[j].target;
    assert VertexOk(g, u) && g[u].live && g[t].live;
    forall x | 0 <= x < |g'|
      ensures VertexOk(g', x)
    {
      assert VertexOk(g, x);
      assert g'[x] == g[x] || x == u || x == t;
      forall i | 0 <= i < |g'[x].args|
        ensures ArgOk(g', x, g'[x].args[i].target)
      {
        assert g'[x].args[i].target == g[x].args[i].target;
        assert ArgOk(g, x, g[x].args[i].target);
      }
    }
  }

  lemma EnableArgMatched(g: Graph, l: TopoList, u: Vid, j: nat)
    requires Matched(g) && u < |g| && j < |g[u].args| && !g[u].args[j].enabled
    requires 0 < g[u].args[j].target < u
    ensures Matched(EnableArgG(g, u, j))
  {
    var t := g[u].args[j].target;
    var g' := EnableArgG(g, u, j);
    EnabledTargetsEnable(g[u].args, j);
    forall x: Vid, w | 0 <= w < |g'|
      ensures multiset(g'[w].consumers)[x] == if x < |g'| then multiset(EnabledTargets(g'[x].args))[w] else 0
    {
      assert multiset(g[w].consumers)[x] == if x < |g| then multiset(EnabledTargets(g[x].args))[w] else 0;
      EnableArgMatchedAt(g, u, j, x, w);
    }
  }

  lemma EnableArgMatchedAt(g: Graph, u: Vid, j: nat, x: Vid, w: Vid)
    requires u < |g| && j < |g[u].args| && !g[u].args[j].enabled && 0 < g[u].args[j].target < u && w < |g|
    requires multiset(EnabledTargets(g[u].args[j := Edge(g[u].args[j].target, true)]))
             == multiset(EnabledTargets(g[u].args)) + multiset{g[u].args[j].target}
    requires multiset(g[w].consumers)[x] == if x < |g| then multiset(EnabledTargets(g[x].args))[w] else 0
    ensures var g' := EnableArgG(g, u, j);
            multiset(g'[w].consumers)[x] == if x < |g'| then multiset(EnabledTargets(g'[x].args))[w] else 0
  {
    EnableArgConsumers(g, u, j, w);
    if x < |g| {
      EnableArgTargets(g, u, j, x);
    }
  }

  /** Enabling `u`'s `j`-th edge adds `u` once to its target's consumers and changes no
      other consumer list. */
  lemma EnableArgConsumers(g: Graph, u: Vid, j: nat, w: Vid)
    requires u < |g| && j < |g[u].args| && g[u].args[j].target < u && w < |g|
    ensures multiset(EnableArgG(g, u, j)[w].consumers)
            == multiset(g[w].consumers) + if w == g[u].args[j].target then multiset{u} else multiset{}
  {
    var g' := EnableArgG(g, u, j);
    if w == g[u].args[j].target {
      assert g'[w].consumers == [u] + g[w].consumers;
    } else {
      assert g'[w].consumers == g[w].consumers;
    }
  }

  /** Enabling `u`'s `j`-th edge adds its target once to `u`'s enabled targets and changes
      no other vertex's. */
  lemma EnableArgTargets(g: Graph, u: Vid, j: nat, x: Vid)
    requires u < |g| && j < |g[u].args| && g[u].args[j].target < u && x < |g|
    requires multiset(EnabledTargets(g[u].args[j := Edge(g[u].args[j].target, true)]))
             == multiset(EnabledTargets(g[u].args)) + multiset{g[u].args[j].target}
    ensures multiset(EnabledTargets(EnableArgG(g, u, j)[x].args))
            == multiset(EnabledTargets(g[x].args)) + if x == u then multiset{g[u].args[j].target} else multiset{}
  {
    var g' := EnableArgG(g, u, j);
    if x == u {
      assert g'[x].args == g[u].args[j := Edge(g[u].args[j].target, true)];
    } else {
      assert g'[x].args == g[x].args;
    }
  }

  lemma EnableArgEdges(g: Graph, l: TopoList, st: seq<Entry>, X: set<(Vid, Vid)>, E: set<Vid>, u: Vid, j: nat)
    requires Shape(g, l) && Matched(g) && EdgesActive(g, {}) && EdgesPlaced(g, Unplaced(st))
    requires Sorted(g, l, Unsorted(st) + X, {}) && Observed(g, {}) && EagerOk(g, E)
    requires u < |g| && IsActive(g[u]) && j < |g[u].args| && 0 < g[u].args[j].target < u
    ensures var g' := EnableArgG(g, u, j);
            var p := (u, g[u].args[j].target);
            EdgesActive(g', {}) && EdgesPlaced(g', Unplaced(st) + {p})
            && Sorted(g', l, Unsorted(st) + {p} + X, {}) && Observed(g', {}) && EagerOk(g', E - {u})
  {
    assert VertexOk(g, u);
    EnableArgActive(g, E, u, j);
    EnableArgPlaced(g, Unplaced(st), u, j);
    EnableArgSorted(g, l, Unsorted(st), X, u, j);
  }

  lemma EnableArgActive(g: Graph, E: set<Vid>, u: Vid, j: nat)
    requires EdgesActive(g, {}) && Observed(g, {}) && EagerOk(g, E)
    requires u < |g| && IsActive(g[u]) && j < |g[u].args| && 0 < g[u].args[j].target < u
    requires g[u].eager ==> |g[u].args| == 1
    ensures var g' := EnableArgG(g, u, j);
            EdgesActive(g', {}) && Observed(g', {}) && EagerOk(g', E - {u})
  {
  }

  lemma EnableArgPlaced(g: Graph, U: set<(Vid, Vid)>, u: Vid, j: nat)
    requires EdgesPlaced(g, U)
    requires u < |g| && j < |g[u].args| && 0 < g[u].args[j].target < u
    ensures EdgesPlaced(EnableArgG(g, u, j), U + {(u, g[u].args[j].target)})
  {
    var g' := EnableArgG(g, u, j);
    forall x, i | 0 <= x < |g'| && 0 <= i < |g'[x].args| && g'[x].args[i].enabled
      ensures g'[x].args[i].target < |g'|
      ensures g'[g'[x].args[i].target].positioned || (x, g'[x].args[i].target) in U + {(u, g[u].args[j].target)}
    {
      if x != u || i != j {
        assert g'[x].args[i] == g[x].args[i];
        assert g'[g[x].args[i].target].positioned == g[g[x].args[i].target].positioned;
      }
    }
  }

  lemma EnableArgSorted(g: Graph, l: TopoList, P: set<(Vid, Vid)>, X: set<(Vid, Vid)>, u: Vid, j: nat)
    requires Sorted(g, l, P + X, {})
    requires u < |g| && j < |g[u].args| && 0 < g[u].args[j].target < u
    ensures Sorted(EnableArgG(g, u, j), l, P + {(u, g[u].args[j].target)} + X, {})
  {
    var g' := EnableArgG(g, u, j);
    forall x, i | 0 <= x < |g'| && 0 <= i < |g'[x].args| && g'[x].args[i].enabled
      ensures g'[x].args[i].target < |g'|
      ensures (x, g'[x].args[i].target) in P + {(u, g[u].args[j].target)} + X
              || Precedes(l, Pos(g', g'[x].args[i].target), x)
    {
      if x != u || i != j {
        assert g'[x].args[i] == g[x].args[i];
        assert Pos(g', g[x].args[i].target) == Pos(g, g[x].args[i].target);
      }
    }
  }

  lemma EnableArgStack(g: Graph, l: TopoList, st: seq<Entry>, u: Vid, j: nat)
    requires StackOk(g, st) && u < |g| && IsActive(g[u]) && j < |g[u].args| && 0 < g[u].args[j].target < u
    ensures StackOk(EnableArgG(g, u, j), st + [Entry(u, g[u].args[j].target, true, false, false)])
  {
    var g' := EnableArgG(g, u, j);
    var s := st + [Entry(u, g[u].args[j].target, true, false, false)];
    forall k | 0 <= k < |s|
      ensures s[k].src < |g'| && IsActive(g'[s[k].src]) && Edge(s[k].dst, true) in g'[s[k].src].args
    {
      if k < |st| {
        var x := st[k].src;
        assert s[k] == st[k];
        var i :| 0 <= i < |g[x].args| && g[x].args[i] == Edge(st[k].dst, true);
        assert g'[x].args[i] == g[x].args[i];
      } else {
        assert g'[u].args[j] == Edge(g[u].args[j].target, true);
      }
    }
  }

  // ---------------------------------------------------------------------------
  // Popping an entry.

  /** What an entry on the stack tells about its edge. */
  lemma EntryFacts(g: Graph, l: TopoList, st: seq<Entry>, k: nat)
    requires Shape(g, l) && Placement(g, l) && Matched(g) && StackOk(g, st) && k < |st|
    ensures var u, v := st[k].src, st[k].dst;
            0 < v < u < |g| && u in l.items && IsActive(g[u]) && g[u].activator.Some? && !g[v].eager
            && g[u].live && g[v].live && u in g[v].consumers
            && g[u].activator.value < |g| && ImpliedActivator(g, u, v) < |g|
            && (IsActive(g[v]) ==> v in l.items && g[v].activator.Some? && g[v].activator.value < |g|)
  {
    var u, v := st[k].src, st[k].dst;
    var i :| 0 <= i < |g[u].args| && g[u].args[i] == Edge(v, true);
    assert VertexOk(g, u) && VertexOk(g, v);
    if g[u].conditional && g[u].args != [] {
      assert ArgOk(g, u, g[u].args[0].target);
    }
    assert ArgOk(g, u, g[u].args[i].target);
    EdgeConsumer(g, u, i);
  }

  lemma SortedMono(g: Graph, l: TopoList, P: set<(Vid, Vid)>, P': set<(Vid, Vid)>, T: set<Vid>)
    requires Sorted(g, l, P, T) && P <= P'
    ensures Sorted(g, l, P', T)
  {
  }

  lemma PlacedMono(g: Graph, U: set<(Vid, Vid)>, U': set<(Vid, Vid)>)
    requires EdgesPlaced(g, U) && U <= U'
    ensures EdgesPlaced(g, U')
  {
  }

  /** Popping `e` once its target has a position (or `e` is not enabled) keeps the parts
      of the invariant that hold for the remaining stack. */
  lemma PopPlaced(g: Graph, st: seq<Entry>, e: Entry)
    requires EdgesPlaced(g, Unplaced(st + [e])) && StackOk(g, st + [e])
    requires e.dst < |g| && (e.enabled ==> g[e.dst].positioned)
    ensures EdgesPlaced(g, Unplaced(st)) && StackOk(g, st)
  {
    PendingPush(st, e);
    forall k | 0 <= k < |st|
      ensures st[k].src < |g| && IsActive(g[st[k].src]) && Edge(st[k].dst, true) in g[st[k].src].args
    {
      assert (st + [e])[k] == st[k];
    }
  }

  /** Activating an inert target keeps the invariant for the rest of the stack, places the
      target immediately before its consumer, marks it and gives it the implied activator. */
  lemma ActivateKeeps(g0: Graph, g: Graph, l: TopoList, st: seq<Entry>, E: set<Vid>, e: Entry)
    requires Activating(g0, g, l, st + [e], {}, E) && e.enabled && e.dst < |g| && !g[e.dst].positioned
    ensures e.src < |g| && e.src in l.items && e.dst !in l.items && g[e.src].activator.Some?
    ensures Activating(g0, ActivatedG(g, e.src, e.dst), ActivatedL(l, e.src, e.dst), st, {}, E)
    ensures IsActive(ActivatedG(g, e.src, e.dst)[e.dst])
    ensures SameSkeleton(g, ActivatedG(g, e.src, e.dst))
  {
    var u, v := e.src, e.dst;
    var s := st + [e];
    assert s[|st|] == e;
    EntryFacts(g, l, s, |st|);
    assert v !in l.items by { assert VertexOk(g, v); }
    var g' := ActivatedG(g, u, v);
    PendingPush(st, e);
    ActivatedSkeleton(g, u, v);
    SameSkeletonTrans(g0, g, g');
    SkeletonClosed(g, g');
    ActivateShape(g, l, u, v);
    ActivateMatched(g, u, v);
    ActivatePlaced(g, Unplaced(st), u, v);
    ActivateSorted(g, l, Unsorted(st), u, v);
    assert Unsorted(st) + {} == Unsorted(st);
    assert Unsorted(s) + {} == Unsorted(st) + {(u, v)};
    ActivateActive(g, E, u, v);
    StackPop(g, st, e);
    ActivateStack(g, st, u, v);
  }

  /** Where the activation puts the target in the order: right before its consumer, and
      marked. */
  lemma ActivatedOrder(l: TopoList, u: Vid, v: Vid)
    requires Wf(l) && u in l.items && v !in l.items
    ensures forall x | x != v :: Precedes(ActivatedL(l, u, v), v, x) <==> x == u || Precedes(l, u, x)
    ensures ActivatedL(l, u, v).marked == l.marked + {v}
  {
    InsertOrder(l, u, v);
  }

  /** The move keeps the marks. */
  lemma MoveMarks(l: TopoList, v: Vid, to: Vid)
    requires Wf(l) && v in l.items && to in l.items && v != to
    ensures MoveBefore(l, v, to).marked == l.marked
  {
    MoveOrder(l, v, to);
  }

  lemma StackPop(g: Graph, st: seq<Entry>, e: Entry)
    requires StackOk(g, st + [e])
    ensures StackOk(g, st)
  {
    forall k | 0 <= k < |st|
      ensures st[k].src < |g| && IsActive(g[st[k].src]) && Edge(st[k].dst, true) in g[st[k].src].args
    {
      assert (st + [e])[k] == st[k];
    }
  }

  lemma ActivateShape(g: Graph, l: TopoList, u: Vid, v: Vid)
    requires Shape(g, l) && Placement(g, l) && 0 < v < u < |g| && u in l.items && g[u].activator.Some?
    requires !g[v].positioned && !g[v].eager && g[v].live && v !in l.items
    ensures Shape(ActivatedG(g, u, v), ActivatedL(l, u, v)) && Placement(ActivatedG(g, u, v), ActivatedL(l, u, v))
  {
    var g' := ActivatedG(g, u, v);
    var l' := ActivatedL(l, u, v);
    InsertOrder(l, u, v);
    assert VertexOk(g, u) && VertexOk(g, v);
    var b := ImpliedActivator(g, u, v);
    if g[u].conditional && g[u].args != [] && v != g[u].args[0].target {
      assert ArgOk(g, u, g[u].args[0].target);
    }
    assert b < |g|;
    forall x | 0 <= x < |g'|
      ensures VertexOk(g', x)
    {
      assert VertexOk(g, x);
      forall i | 0 <= i < |g'[x].args|
        ensures ArgOk(g', x, g'[x].args[i].target)
      {
        assert ArgOk(g, x, g[x].args[i].target);
      }
    }
  }

  lemma ActivateMatched(g: Graph, u: Vid, v: Vid)
    requires Matched(g) && u < |g| && v < |g| && g[u].activator.Some?
    ensures Matched(ActivatedG(g, u, v))
  {
    var g' := ActivatedG(g, u, v);
    forall x: Vid, w | 0 <= w < |g'|
      ensures multiset(g'[w].consumers)[x] == if x < |g'| then multiset(EnabledTargets(g'[x].args))[w] else 0
    {
      assert multiset(g[w].consumers)[x] == if x < |g| then multiset(EnabledTargets(g[x].args))[w] else 0;
      assert g'[w].consumers == g[w].consumers;
      if x < |g| { assert g'[x].args == g[x].args; }
    }
  }

  lemma ActivatePlaced(g: Graph, U: set<(Vid, Vid)>, u: Vid, v: Vid)
    requires EdgesPlaced(g, U + {(u, v)}) && u < |g| && v < |g| && g[u].activator.Some?
    ensures EdgesPlaced(ActivatedG(g, u, v), U)
  {
  }

  lemma ActivateSorted(g: Graph, l: TopoList, P: set<(Vid, Vid)>, u: Vid, v: Vid)
    requires Sorted(g, l, P + {(u, v)}, {}) && EdgesActive(g, {}) && Wf(l)
    requires 0 < v < u < |g| && u in l.items && v !in l.items && g[u].activator.Some?
    requires !g[v].positioned && !g[v].constant
    ensures Sorted(ActivatedG(g, u, v), ActivatedL(l, u, v), P, {})
  {
    var g' := ActivatedG(g, u, v);
    var l' := ActivatedL(l, u, v);
    forall x, i | 0 <= x < |g'| && 0 <= i < |g'[x].args| && g'[x].args[i].enabled
      ensures g'[x].args[i].target < |g'|
      ensures (x, g'[x].args[i].target) in P || Precedes(l', Pos(g', g'[x].args[i].target), x)
    {
      ActivateSortedAt(g, l, P, u, v, x, i);
    }
  }

  /** One enabled edge after the activation: repaired, or still waiting in `P`. */
  lemma ActivateSortedAt(g: Graph, l: TopoList, P: set<(Vid, Vid)>, u: Vid, v: Vid, x: Vid, i: nat)
    requires Sorted(g, l, P + {(u, v)}, {}) && EdgesActive(g, {}) && Wf(l)
    requires 0 < v < u < |g| && u in l.items && v !in l.items && g[u].activator.Some?
    requires !g[v].positioned && !g[v].constant
    requires x < |g| && i < |ActivatedG(g, u, v)[x].args| && ActivatedG(g, u, v)[x].args[i].enabled
    ensures var g' := ActivatedG(g, u, v);
            var t := g'[x].args[i].target;
            t < |g'| && ((x, t) in P || Precedes(ActivatedL(l, u, v), Pos(g', t), x))
  {
    InsertOrder(l, u, v);
    var g' := ActivatedG(g, u, v);
    var t := g[x].args[i].target;
    assert g'[x].args[i] == g[x].args[i];
    assert Pos(g', t) == Pos(g, t);
    if x == v {
      assert false;
    } else if t != v {
      assert Pos(g, t) != v;
    }
  }

  lemma ActivateActive(g: Graph, E: set<Vid>, u: Vid, v: Vid)
    requires EdgesActive(g, {}) && Observed(g, {}) && EagerOk(g, E)
    requires 0 < v < u < |g| && g[u].activator.Some? && !g[v].eager && u in g[v].consumers
    ensures EdgesActive(ActivatedG(g, u, v), {}) && Observed(ActivatedG(g, u, v), {})
    ensures EagerOk(ActivatedG(g, u, v), E)
  {
  }

  lemma ActivateStack(g: Graph, st: seq<Entry>, u: Vid, v: Vid)
    requires StackOk(g, st) && u < |g| && v < |g| && g[u].activator.Some?
    ensures StackOk(ActivatedG(g, u, v), st)
  {
  }

  // ---------------------------------------------------------------------------
  // Revisiting an active target.

  /** Activation leaves the skeleton alone. */
  lemma ActivatedSkeleton(g: Graph, u: Vid, v: Vid)
    requires u < |g| && v < |g| && g[u].activator.Some?
    ensures SameSkeleton(g, ActivatedG(g, u, v))
  {
    assert Skel(g[v]) == Skel(ActivatedG(g, u, v)[v]);
  }

  /** A new activator leaves the skeleton alone. */
  lemma RebasedSkeleton(g: Graph, v: Vid, b: Vid)
    requires v < |g|
    ensures SameSkeleton(g, RebasedG(g, v, b))
  {
    assert Skel(g[v]) == Skel(RebasedG(g, v, b)[v]);
  }

  /** `reset_activator_(v, b)` keeps the invariant: no part of it depends on where
      the logical edge of an active, non-eager vertex leads. */
  lemma RebaseKeeps(g0: Graph, g: Graph, l: TopoList, st: seq<Entry>, X: set<(Vid, Vid)>, v: Vid, b: Vid)
    requires Activating(g0, g, l, st, X, {}) && 0 < v < |g| && IsActive(g[v]) && !g[v].eager && b < |g|
    ensures Activating(g0, RebasedG(g, v, b), l, st, X, {})
  {
    var g' := RebasedG(g, v, b);
    RebasedSkeleton(g, v, b);
    SameSkeletonTrans(g0, g, g');
    SkeletonClosed(g, g');
    RebaseShape(g, l, v, b);
    RebaseMatched(g, v, b);
    RebaseEdges(g, l, Unplaced(st), Unsorted(st) + X, v, b);
    RebaseStack(g, st, v, b);
  }

  lemma RebaseShape(g: Graph, l: TopoList, v: Vid, b: Vid)
    requires Shape(g, l) && Placement(g, l) && 0 < v < |g| && IsActive(g[v]) && b < |g|
    ensures Shape(RebasedG(g, v, b), l) && Placement(RebasedG(g, v, b), l)
  {
    var g' := RebasedG(g, v, b);
    forall x | 0 <= x < |g'|
      ensures VertexOk(g', x)
    {
      assert VertexOk(g, x);
      forall i | 0 <= i < |g'[x].args|
        ensures ArgOk(g', x, g'[x].args[i].target)
      {
        assert ArgOk(g, x, g[x].args[i].target);
      }
    }
  }

  lemma RebaseMatched(g: Graph, v: Vid, b: Vid)
    requires Matched(g) && v < |g|
    ensures Matched(RebasedG(g, v, b))
  {
    var g' := RebasedG(g, v, b);
    forall x: Vid, w | 0 <= w < |g'|
      ensures multiset(g'[w].consumers)[x] == if x < |g'| then multiset(EnabledTargets(g'[x].args))[w] else 0
    {
      assert multiset(g[w].consumers)[x] == if x < |g| then multiset(EnabledTargets(g[x].args))[w] else 0;
      assert g'[w].consumers == g[w].consumers;
      if x < |g| { assert g'[x].args == g[x].args; }
    }
  }

  lemma RebaseEdges(g: Graph, l: TopoList, U: set<(Vid, Vid)>, P: set<(Vid, Vid)>, v: Vid, b: Vid)
    requires EdgesActive(g, {}) && EdgesPlaced(g, U) && Sorted(g, l, P, {}) && Observed(g, {}) && EagerOk(g, {})
    requires v < |g| && !g[v].eager
    ensures var g' := RebasedG(g, v, b);
            EdgesActive(g', {}) && EdgesPlaced(g', U) && Sorted(g', l, P, {}) && Observed(g', {}) && EagerOk(g', {})
  {
    var g' := RebasedG(g, v, b);
    forall x, i | 0 <= x < |g'| && 0 <= i < |g'[x].args| && g'[x].args[i].enabled
      ensures g'[x].args[i].target < |g'|
      ensures (x, g'[x].args[i].target) in P || Precedes(l, Pos(g', g'[x].args[i].target), x)
    {
      assert g'[x].args[i] == g[x].args[i];
      assert Pos(g', g[x].args[i].target) == Pos(g, g[x].args[i].target);
    }
  }

  lemma RebaseStack(g: Graph, st: seq<Entry>, v: Vid, b: Vid)
    requires StackOk(g, st) && v < |g|
    ensures StackOk(RebasedG(g, v, b), st)
  {
  }

  /** Moving the target of an enabled or repositioned entry in front of its source
      (`erase` and `insert` keeping the mark) repairs the entry's own edge; what it may
      break are the enabled edges leaving the moved vertex, which become pending. */
  lemma MoveKeeps(g0: Graph, g: Graph, l: TopoList, st: seq<Entry>, e: Entry)
    requires Activating(g0, g, l, st + [e], {}, {}) && e.dst < |g| && IsActive(g[e.dst])
    requires (e.enabled || e.repositioned) && Precedes(l, e.src, e.dst)
    ensures e.src != e.dst && e.src in l.items && e.dst in l.items
    ensures Activating(g0, g, MoveBefore(l, e.dst, e.src), st, Outgoing(g, e.dst, 0), {})
  {
    var u, v := e.src, e.dst;
    var s := st + [e];
    assert s[|st|] == e;
    EntryFacts(g, l, s, |st|);
    PendingPush(st, e);
    assert Unsorted(s) + {} == Unsorted(st) + {(u, v)};
    MoveShape(g, l, u, v);
    MoveSorted(g, l, Unsorted(st), u, v);
    PopPlaced(g, st, e);
  }

  lemma MoveShape(g: Graph, l: TopoList, u: Vid, v: Vid)
    requires Shape(g, l) && Placement(g, l) && u in l.items && v in l.items && 0 < v < u
    ensures Shape(g, MoveBefore(l, v, u)) && Placement(g, MoveBefore(l, v, u))
  {
    MoveOrder(l, v, u);
  }

  lemma MoveSorted(g: Graph, l: TopoList, P: set<(Vid, Vid)>, u: Vid, v: Vid)
    requires Sorted(g, l, P + {(u, v)}, {}) && Wf(l) && Precedes(l, u, v) && v < |g| && IsActive(g[v])
    ensures Sorted(g, MoveBefore(l, v, u), P + Outgoing(g, v, 0), {})
  {
    var l' := MoveBefore(l, v, u);
    MoveOrder(l, v, u);
    forall x, i | 0 <= x < |g| && 0 <= i < |g[x].args| && g[x].args[i].enabled
      ensures g[x].args[i].target < |g|
      ensures (x, g[x].args[i].target) in P + Outgoing(g, v, 0) || Precedes(l', Pos(g, g[x].args[i].target), x)
    {
      var t := g[x].args[i].target;
      if x == v {
        assert (v, t) in Outgoing(g, v, 0);
      } else if (x, t) !in P && (x, t) != (u, v) {
        if Pos(g, t) == v {
          PrecedesTrans(l, u, v, x);
        }
      }
    }
  }

  /** An entry whose target stays where it is: its own edge is in order already. */
  lemma StayKeeps(g0: Graph, g: Graph, l: TopoList, st: seq<Entry>, e: Entry)
    requires Activating(g0, g, l, st + [e], {}, {}) && e.dst < |g| && IsActive(g[e.dst])
    requires !((e.enabled || e.repositioned) && Precedes(l, e.src, e.dst))
    ensures Activating(g0, g, l, st, {}, {})
  {
    var u, v := e.src, e.dst;
    var s := st + [e];
    assert s[|st|] == e;
    EntryFacts(g, l, s, |st|);
    PendingPush(st, e);
    PopPlaced(g, st, e);
    if e.enabled || e.repositioned {
      PrecedesTotal(l, u, v);
      assert Unsorted(s) + {} == Unsorted(st) + {(u, v)};
      SortedDrop(g, l, Unsorted(st), u, v);
    } else {
      assert Unsorted(s) + {} == Unsorted(st) + {};
    }
  }

  /** An entry whose target is not active: a constant, or a vertex waiting for the
      enabled entry of the same edge further down the stack. */
  lemma SkipKeeps(g0: Graph, g: Graph, l: TopoList, st: seq<Entry>, e: Entry)
    requires Activating(g0, g, l, st + [e], {}, {}) && e.dst < |g| && !IsActive(g[e.dst])
    requires e.enabled ==> g[e.dst].positioned
    ensures Activating(g0, g, l, st, {}, {})
  {
    var u, v := e.src, e.dst;
    var s := st + [e];
    assert s[|st|] == e;
    EntryFacts(g, l, s, |st|);
    PendingPush(st, e);
    PopPlaced(g, st, e);
    if !(e.enabled || e.repositioned) {
      assert Unsorted(s) + {} == Unsorted(st) + {};
    } else if g[v].positioned {
      assert VertexOk(g, v);
      FrontPrecedes(l, u);
      assert Unsorted(s) + {} == Unsorted(st) + {(u, v)};
      SortedDrop(g, l, Unsorted(st), u, v);
    } else {
      EntryUnplaced(g, st, e);
      assert Unsorted(s) + {} == Unsorted(st) + {};
    }
  }

  /** A pair whose edge is in order need not stay pending. */
  lemma SortedDrop(g: Graph, l: TopoList, P: set<(Vid, Vid)>, u: Vid, v: Vid)
    requires Sorted(g, l, P + {(u, v)}, {}) && v < |g| && Precedes(l, Pos(g, v), u)
    ensures Sorted(g, l, P + {}, {})
  {
  }

  /** A repositioned entry whose target has no position yet shares its edge with an
      enabled entry below it. */
  lemma EntryUnplaced(g: Graph, st: seq<Entry>, e: Entry)
    requires EdgesPlaced(g, Unplaced(st + [e])) && StackOk(g, st + [e])
    requires !e.enabled && e.dst < |g| && !g[e.dst].positioned
    ensures (e.src, e.dst) in Unsorted(st)
  {
    var s := st + [e];
    assert s[|st|] == e;
    var i :| 0 <= i < |g[e.src].args| && g[e.src].args[i] == Edge(e.dst, true);
    PendingPush(st, e);
    var k :| 0 <= k < |st| && st[k].enabled && (e.src, e.dst) == (st[k].src, st[k].dst);
  }

  /** Pushing the `j`-th edge of `v` if it is enabled: a repositioned entry takes over
      the pending pair of the edge. */
  lemma PushKeeps(g0: Graph, g: Graph, l: TopoList, st: seq<Entry>, v: Vid, j: nat, rb: bool, rp: bool)
    requires v < |g| && IsActive(g[v]) && j < |g[v].args|
    requires Activating(g0, g, l, st, if rp then Outgoing(g, v, j) else {}, {})
    ensures Activating(g0, g, l, if g[v].args[j].enabled then st + [Entry(v, g[v].args[j].target, false, rb, rp)] else st,
                       if rp then Outgoing(g, v, j + 1) else {}, {})
  {
    OutgoingStep(g, v, j);
    var t := g[v].args[j].target;
    if g[v].args[j].enabled {
      var e := Entry(v, t, false, rb, rp);
      PendingPush(st, e);
      assert Unsorted(st + [e]) + (if rp then Outgoing(g, v, j + 1) else {})
             == Unsorted(st) + (if rp then Outgoing(g, v, j) else {});
      PushStack(g, st, v, j, rb, rp);
    } else {
      assert (if rp then Outgoing(g, v, j + 1) else {}) == (if rp then Outgoing(g, v, j) else {});
    }
  }

  lemma PushStack(g: Graph, st: seq<Entry>, v: Vid, j: nat, rb: bool, rp: bool)
    requires StackOk(g, st) && v < |g| && IsActive(g[v]) && j < |g[v].args| && g[v].args[j].enabled
    ensures StackOk(g, st + [Entry(v, g[v].args[j].target, false, rb, rp)])
  {
    var s := st + [Entry(v, g[v].args[j].target, false, rb, rp)];
    forall k | 0 <= k < |s|
      ensures s[k].src < |g| && IsActive(g[s[k].src]) && Edge(s[k].dst, true) in g[s[k].src].args
    {
      if k < |st| {
        assert s[k] == st[k];
      } else {
        assert g[v].args[j] == Edge(g[v].args[j].target, true);
      }
    }
  }
}
