/**
 * A run of the engine in which `disable_edge`'s re-anchoring, as the source writes it,
 * leaves an active vertex whose activator is no longer in the order, and in which the
 * corrected rule does not.
 *
 * The graph has the variables `b` (1), `d` (2) and `x` (3), the conditionals
 * `y = if(d, x, x)` (4) and `c = if(b, y, y)` (5), each selecting its second argument,
 * the eager holders `E1` (6) of `c` and `z` (7) of `x`, and a handle on each of 1 to 7.
 * `G0` is the state that holding `x` through `z` and then `c` through `E1` leaves: `c`
 * activates `b` and then `y`, which activates `d` and then reaches the already active
 * `x`.  The run from there:
 *   1. the handle on `z` is released; `disable_edge` re-anchors `x`, which then has
 *      only `y` as consumer, and the teardown deletes `z`;
 *   2. `add_active_node(y)` adds the eager `E2` (8); `enable_edge` rebases `y` and `d`
 *      to the root and leaves `x` alone (the pump, which only sets `initialized`
 *      flags that no later step reads, is not run);
 *   3. the handle on `E1` is released; `disable_edge` deactivates `c` and then `b`,
 *      and the teardown deletes `E1`.
 * As written, step 1 gives `x` the activator `b`, `y`'s own, and step 3 deactivates `b`
 * while `x` stays active.  Corrected, step 1 gives `x` the activator `d` that `y`
 * implies for it, and `d` stays active throughout.  Each step is the model's own step
 * function, the invariant of the worklist holds between the rounds, and the engine's
 * invariant holds after every operation.
 */
module StrayActivator {
  import opened Wrappers
  import opened TopologicalList
  import opened DependencyGraph
  import opened Activation
  import opened Enabling
  import opened Deactivation
  import opened GraphSteps
  import opened Handles
  import opened Teardown

  /** An active, initialized, live vertex that is neither eager nor a conditional. */
  function Held(rc: nat, consumers: seq<Vid>, args: seq<Edge>, a: Vid): Vertex {
    Vertex(rc, true, consumers, args, Some(a), false, false, false, false, true, true)
  }

  function YArgs(): seq<Edge> { [Edge(2, true), Edge(3, true), Edge(3, false)] }
  function CArgs(): seq<Edge> { [Edge(1, true), Edge(4, true), Edge(4, false)] }

  // ---------------------------------------------------------------------------
  // The start.

  function G0(): Graph {
    [Root,
     Held(2, [5], [], 0),
     Held(2, [4], [], 1),
     Held(4, [4, 7], [], 0),
     Held(3, [5], YArgs(), 1).(conditional := true),
     Held(2, [6], CArgs(), 0).(conditional := true),
     Held(1, [], [Edge(5, true)], 0).(eager := true),
     Held(1, [], [Edge(3, true)], 0).(eager := true)]
  }

  function L0(): TopoList { TopoList([0, 3, 7, 1, 2, 4, 5, 6], {}) }
  function X0(): seq<nat> { [0, 1, 1, 1, 1, 1, 1, 1] }

  lemma ShapeG0()
    ensures Shape(G0(), L0())
  {
    var g, l := G0(), L0();
    forall x | 0 <= x < |g| ensures VertexOk(g, x) {
      assert x in {0, 1, 2, 3, 4, 5, 6, 7};
    }
  }

  lemma PlacementG0()
    ensures Placement(G0(), L0())
  {
    var g, l := G0(), L0();
    forall x | 0 <= x < |g| ensures x in l.items <==> IsActive(g[x]) {
      assert x in {0, 1, 2, 3, 4, 5, 6, 7};
    }
  }

  lemma EdgesG0()
    ensures Closed(G0(), {}) && EdgesActive(G0(), {}) && EdgesPlaced(G0(), {})
  {
    var g := G0();
    forall x, j | 0 <= x < |g| && 0 <= j < |g[x].args|
      ensures g[x].args[j].target < |g| && g[g[x].args[j].target].live
      ensures g[x].args[j].enabled ==> IsActive(g[x]) && g[g[x].args[j].target].positioned
    {
      assert x in {0, 1, 2, 3, 4, 5, 6, 7};
    }
  }

  /** Where the vertices sit in `L0`. */
  lemma IndexL0()
    ensures var s := L0().items;
            IndexOf(s, 1) == 3 && IndexOf(s, 2) == 4 && IndexOf(s, 3) == 1 && IndexOf(s, 7) == 2
  {
  }

  lemma IndexL0More()
    ensures var s := L0().items; IndexOf(s, 4) == 5 && IndexOf(s, 5) == 6 && IndexOf(s, 6) == 7
  {
  }

  lemma PrecedesL0()
    ensures var l := L0();
            Precedes(l, 2, 4) && Precedes(l, 3, 4) && Precedes(l, 1, 5) && Precedes(l, 4, 5)
            && Precedes(l, 5, 6) && Precedes(l, 3, 7)
  {
    hide IndexOf;
    IndexL0();
    IndexL0More();
  }

  lemma SortedG0()
    ensures Sorted(G0(), L0(), {}, {})
  {
    hide Precedes;
    var g, l := G0(), L0();
    PrecedesL0();
    forall x, j | 0 <= x < |g| && 0 <= j < |g[x].args| && g[x].args[j].enabled
      ensures g[x].args[j].target < |g| && Precedes(l, Pos(g, g[x].args[j].target), x)
    {
      assert x in {4, 5, 6, 7};
    }
  }

  lemma ObservedG0()
    ensures Observed(G0(), {}) && EagerOk(G0(), {})
  {
    var g := G0();
    forall x | 0 <= x < |g|
      ensures 0 < x && IsActive(g[x]) && !g[x].eager ==> g[x].consumers != []
      ensures g[x].live && g[x].eager ==> IsActive(g[x]) && g[x].activator == Some(0) && g[x].args != [] && g[x].args[0].enabled
    {
      assert x in {0, 1, 2, 3, 4, 5, 6, 7};
    }
  }

  function Passed(e: Edge): seq<Vid> {
    if e.enabled then [e.target] else []
  }

  lemma EnabledTargets1(e0: Edge)
    ensures EnabledTargets([e0]) == Passed(e0)
  {
    assert [e0][..0] == [];
  }

  lemma EnabledTargets3(e0: Edge, e1: Edge, e2: Edge)
    ensures EnabledTargets([e0, e1, e2]) == Passed(e0) + Passed(e1) + Passed(e2)
  {
    assert [e0, e1, e2][..2] == [e0, e1];
    assert [e0, e1][..1] == [e0];
    EnabledTargets1(e0);
    assert EnabledTargets([e0, e1]) == Passed(e0) + Passed(e1);
  }

  /** The targets each vertex of `G0` passes on, and its consumers. */
  function T0(): seq<seq<Vid>> { [[], [], [], [], [2, 3], [1, 4], [5], [3]] }
  function C0(): seq<seq<Vid>> { [[], [5], [4], [4, 7], [5], [6], [], []] }

  lemma PassedG0()
    ensures EnabledTargets(G0()[4].args) == [2, 3] && EnabledTargets(G0()[5].args) == [1, 4]
    ensures EnabledTargets(G0()[6].args) == [5] && EnabledTargets(G0()[7].args) == [3]
  {
    EnabledTargets3(Edge(2, true), Edge(3, true), Edge(3, false));
    EnabledTargets3(Edge(1, true), Edge(4, true), Edge(4, false));
    EnabledTargets1(Edge(5, true));
    EnabledTargets1(Edge(3, true));
  }

  lemma ListsG0()
    ensures |G0()| == |T0()| == |C0()| == 8
    ensures forall x | 0 <= x < 8 :: EnabledTargets(G0()[x].args) == T0()[x] && G0()[x].consumers == C0()[x]
  {
    PassedG0();
    var g := G0();
    assert EnabledTargets([]) == [];
    hide EnabledTargets;
    forall x | 0 <= x < 8 ensures EnabledTargets(g[x].args) == T0()[x] && g[x].consumers == C0()[x] {
      assert x in {0, 1, 2, 3, 4, 5, 6, 7};
    }
  }

  /** `Matched` of a graph whose consumer lists are `C` and whose passed-on targets are `T`,
      when the two agree. */
  lemma MatchedLists(g: Graph, C: seq<seq<Vid>>, T: seq<seq<Vid>>)
    requires |g| == |C| == |T|
    requires forall x | 0 <= x < |g| :: EnabledTargets(g[x].args) == T[x] && g[x].consumers == C[x]
    requires forall x: Vid, w | 0 <= w < |g| :: multiset(C[w])[x] == if x < |g| then multiset(T[x])[w] else 0
    ensures Matched(g)
  {
    forall x: Vid, w | 0 <= w < |g|
      ensures multiset(g[w].consumers)[x] == if x < |g| then multiset(EnabledTargets(g[x].args))[w] else 0
    {
      assert g[w].consumers == C[w];
      assert multiset(C[w])[x] == if x < |g| then multiset(T[x])[w] else 0;
      if x < |g| {
        assert EnabledTargets(g[x].args) == T[x];
      }
    }
  }

  lemma CrossG0()
    ensures forall x: Vid, w | 0 <= w < 8 :: multiset(C0()[w])[x] == if x < 8 then multiset(T0()[x])[w] else 0
  {
    forall x: Vid, w | 0 <= w < 8 ensures multiset(C0()[w])[x] == if x < 8 then multiset(T0()[x])[w] else 0 {
      assert w in {0, 1, 2, 3, 4, 5, 6, 7};
      if x < 8 { assert x in {0, 1, 2, 3, 4, 5, 6, 7}; }
    }
  }

  lemma MatchedG0()
    ensures Matched(G0())
  {
    ListsG0();
    CrossG0();
    MatchedLists(G0(), C0(), T0());
  }

  /** The structural in-degree of `x` in an eight-vertex graph, summed out. */
  lemma InRefs8(S: seq<seq<Vid>>, x: Vid)
    requires |S| == 8
    ensures InRefs(S, x) == multiset(S[0])[x] + multiset(S[1])[x] + multiset(S[2])[x] + multiset(S[3])[x]
                            + multiset(S[4])[x] + multiset(S[5])[x] + multiset(S[6])[x] + multiset(S[7])[x]
  {
    assert InRefsUpTo(S, 1, x) == multiset(S[0])[x];
    assert InRefsUpTo(S, 2, x) == InRefsUpTo(S, 1, x) + multiset(S[1])[x];
    assert InRefsUpTo(S, 3, x) == InRefsUpTo(S, 2, x) + multiset(S[2])[x];
    assert InRefsUpTo(S, 4, x) == InRefsUpTo(S, 3, x) + multiset(S[3])[x];
    assert InRefsUpTo(S, 5, x) == InRefsUpTo(S, 4, x) + multiset(S[4])[x];
    assert InRefsUpTo(S, 6, x) == InRefsUpTo(S, 5, x) + multiset(S[5])[x];
    assert InRefsUpTo(S, 7, x) == InRefsUpTo(S, 6, x) + multiset(S[6])[x];
  }

  lemma Count3(a: Vid, b: Vid, c: Vid, x: Vid)
    ensures multiset([a, b, c])[x] == (if x == a then 1 else 0) + (if x == b then 1 else 0) + (if x == c then 1 else 0)
  {
    assert multiset([a, b, c]) == multiset{a} + multiset{b} + multiset{c};
  }

  /** The structural edges of `G0`, and the in-degrees they give. */
  function S0(): seq<seq<Vid>> { [[], [], [], [], [2, 3, 3], [1, 4, 4], [5], [3]] }

  lemma StructureG0()
    ensures Structure(G0()) == S0()
  {
    var g := G0();
    assert Targets(g[4].args) == [2, 3, 3];
    assert Targets(g[5].args) == [1, 4, 4];
    forall x | 0 <= x < 8 ensures Structure(g)[x] == S0()[x] {
      assert x in {0, 1, 2, 3, 4, 5, 6, 7};
    }
  }

  lemma InRefsS0()
    ensures forall x | 0 <= x < 8 :: InRefs(S0(), x) == [0, 1, 1, 3, 2, 1, 0, 0][x]
  {
    var S := S0();
    forall x | 0 <= x < 8 ensures InRefs(S, x) == [0, 1, 1, 3, 2, 1, 0, 0][x] {
      InRefs8(S, x);
      Count3(2, 3, 3, x);
      Count3(1, 4, 4, x);
    }
  }

  /** `Counted` of a graph whose in-degrees are `D`. */
  lemma CountedLists(g: Graph, ext: seq<nat>, D: seq<nat>)
    requires |g| == |ext| == |D| && forall x | 0 <= x < |g| :: InRefs(Structure(g), x) == D[x]
    requires forall x | 0 <= x < |g| :: (g[x].live && g[x].refCount == ext[x] + D[x]) || (!g[x].live && ext[x] == 0)
    ensures Counted(g, ext)
  {
  }

  lemma CountedG0()
    ensures Counted(G0(), X0())
  {
    StructureG0();
    InRefsS0();
    var g, ext, D := G0(), X0(), [0, 1, 1, 3, 2, 1, 0, 0];
    forall x | 0 <= x < |g| ensures g[x].live && g[x].refCount == ext[x] + D[x] {
      assert x in {0, 1, 2, 3, 4, 5, 6, 7};
    }
    CountedLists(g, ext, D);
  }

  /** The start satisfies the invariant. */
  lemma InvG0()
    ensures Inv(G0(), L0(), X0())
  {
    ShapeG0();
    PlacementG0();
    EdgesG0();
    SortedG0();
    ObservedG0();
    MatchedG0();
    CountedG0();
  }

  // ---------------------------------------------------------------------------
  // 1. The handle on `z` is released.

  /** The activator the re-anchored `x` gets: `y`'s own (`b`) as written, the one `y`
      implies for it (`d`) corrected. */
  function Anchor(rule: Reanchoring): Vid {
    if rule == AsWritten then 1 else 2
  }

  function XA(): seq<nat> { X0()[7 := 0] }
  function GA0(): Graph { Recounted(G0(), 7, 0) }

  /** `z`'s data edge disabled. */
  function HA1(): Graph {
    G0()[3 := Held(4, [4], [], 0)][7 := Held(0, [], [Edge(3, false)], 0).(eager := true)]
  }

  /** `x` re-anchored and moved before `y`. */
  function HA2(rule: Reanchoring): Graph { HA1()[3 := Held(4, [4], [], Anchor(rule))] }
  function L1(): TopoList { TopoList([0, 7, 1, 2, 3, 4, 5, 6], {}) }

  lemma ReleaseZ()
    ensures Inv(GA0(), L0(), XA())
  {
    hide Inv;
    StructureG0();
    InRefsS0();
    assert InRefs(Structure(G0()), 7) == 0;
    InvG0();
    RecountKeeps(G0(), L0(), X0(), 7, 0);
  }

  lemma DisableZ()
    ensures DisableArgG(GA0(), 7, 0) == HA1()
  {
    assert RemoveOne([4, 7], 7) == [4];
    var r, h := DisableArgG(GA0(), 7, 0), HA1();
    assert |r| == |h|;
    forall x | 0 <= x < 8 ensures r[x] == h[x] {
      assert x in {0, 1, 2, 3, 4, 5, 6, 7};
    }
  }

  lemma EraseL0()
    ensures 3 in L0().items && L0().marked == {} && Erase(L0(), 3) == TopoList([0, 7, 1, 2, 4, 5, 6], {})
  {
    IndexL0();
  }

  lemma IndexE()
    ensures IndexOf([0, 7, 1, 2, 4, 5, 6], 4) == 4
  {
  }

  lemma InsertX()
    ensures var e := TopoList([0, 7, 1, 2, 4, 5, 6], {});
            4 in e.items && 3 !in e.items && Insert(e, 4, 3) == L1()
  {
    var e := TopoList([0, 7, 1, 2, 4, 5, 6], {});
    IndexE();
    hide IndexOf;
    assert e.items[..4] == [0, 7, 1, 2] && e.items[4..] == [4, 5, 6];
  }

  lemma MoveL0()
    requires Wf(L0())
    ensures MoveBefore(L0(), 3, 4) == L1()
  {
    EraseL0();
    InsertX();
    hide Erase, Insert, L0, L1;
  }

  /** `x` fails the test under both rules and takes `Anchor(rule)`. */
  lemma TestA(rule: Reanchoring)
    ensures HA1()[3].consumers == [4] && ConsumersActivated(HA1(), 3)
    ensures !KeepsAnchor(rule, HA1(), 3) && NewAnchor(rule, HA1(), L0(), 3) == Anchor(rule)
  {
    var g := HA1();
    assert g[4].activator == Some(1);
    assert ImpliedActivator(g, 4, 3) == 2;
    assert Earliest(L0(), [4]) == 4;
  }

  lemma PoppedA(rule: Reanchoring)
    ensures !HA1()[3].constant && HA1()[3].positioned && EnabledTargets(HA1()[3].args) == []
    ensures RebasedG(HA1(), 3, Anchor(rule)) == HA2(rule)
  {
  }

  /** The round that pops `x`: `x` is re-anchored and moved before `y`. */
  lemma WalkA(rule: Reanchoring)
    requires Shape(HA1(), L0()) && Placement(HA1(), L0()) && Matched(HA1()) && EdgesActive(HA1(), {})
    ensures DisableStep(HA1(), L0(), [3], rule) == DRun(HA2(rule), L1(), [])
  {
    TestA(rule);
    PoppedA(rule);
    assert Earliest(L0(), [4]) == 4;
    MoveL0();
    hide HA1, HA2, KeepsAnchor, NewAnchor, RebasedG, EnabledTargets, MoveBefore;
  }

  /** After the round, the invariant of the graph without `z`'s data edge. */
  lemma ReanchoredA(rule: Reanchoring)
    ensures InvExcept(HA2(rule), L1(), XA(), 7)
  {
    ReleaseZ();
    DisableStart(GA0(), L0(), 7, 0);
    DisableZ();
    WalkA(rule);
    DisableStepKeeps(GA0(), HA1(), L0(), [3], {7}, rule);
    DisableDone(GA0(), HA2(rule), L1(), 7, XA());
  }

  function L2(): TopoList { TopoList([0, 1, 2, 3, 4, 5, 6], {}) }

  /** `z`'s logical edge removed and its position erased: the graph the visit from `z`
      runs over. */
  lemma DetachedA(rule: Reanchoring)
    ensures Inv(Base(HA2(rule), 7), L2(), XA())
  {
    ReanchoredA(rule);
    ZDisabled(rule);
    EraseL1();
    hide InvExcept, Inv, HA2, Erase;
    DetachKeeps(HA2(rule), L1(), XA(), 7);
  }

  lemma ZDisabled(rule: Reanchoring)
    ensures |HA2(rule)| == 8 && HA2(rule)[7].live && HA2(rule)[7].eager && HA2(rule)[7].args == [Edge(3, false)]
    ensures forall j | 0 <= j < |HA2(rule)[7].args| :: !HA2(rule)[7].args[j].enabled
  {
  }

  lemma EraseL1()
    ensures 7 in L1().items && Erase(L1(), 7) == L2()
  {
    assert IndexOf(L1().items, 7) == 1;
  }

  /** After the visit from `z`: `z` is deleted and `x` has lost the reference of `z`'s edge. */
  function H2(rule: Reanchoring): Graph { HA2(rule)[3 := Held(3, [4], [], Anchor(rule))][7 := Dead] }

  lemma SweptA(rule: Reanchoring)
    ensures Swept(Base(HA2(rule), 7), H2(rule), {7}) && Cut(Base(HA2(rule), 7), {7})
    ensures var B := Base(HA2(rule), 7); B[7].live && !IsActive(B[7]) && B[7].consumers == []
  {
    var B, g := Base(HA2(rule), 7), H2(rule);
    forall x | 0 <= x < 8
      ensures if x in {7} then g[x] == Dead else g[x] == B[x].(refCount := g[x].refCount) && (!B[x].live ==> g[x] == B[x])
    {
      assert x in {0, 1, 2, 3, 4, 5, 6, 7};
    }
    forall x, j | 0 <= x < 8 && x !in {7} && 0 <= j < |B[x].args| ensures B[x].args[j].target !in {7} {
      assert x in {0, 1, 2, 3, 4, 5, 6};
    }
  }

  /** The structural edges of `H2`, and the in-degrees they give. */
  function S2(): seq<seq<Vid>> { [[], [], [], [], [2, 3, 3], [1, 4, 4], [5], []] }

  lemma StructureH2(rule: Reanchoring)
    ensures Structure(H2(rule)) == S2()
  {
    var g := H2(rule);
    assert Targets(g[4].args) == [2, 3, 3];
    assert Targets(g[5].args) == [1, 4, 4];
    forall x | 0 <= x < 8 ensures Structure(g)[x] == S2()[x] {
      assert x in {0, 1, 2, 3, 4, 5, 6, 7};
    }
  }

  lemma InRefsS2()
    ensures forall x | 0 <= x < 8 :: InRefs(S2(), x) == [0, 1, 1, 2, 2, 1, 0, 0][x]
  {
    var S := S2();
    forall x | 0 <= x < 8 ensures InRefs(S, x) == [0, 1, 1, 2, 2, 1, 0, 0][x] {
      InRefs8(S, x);
      Count3(2, 3, 3, x);
      Count3(1, 4, 4, x);
    }
  }

  lemma CountedH2(rule: Reanchoring)
    ensures Counted(H2(rule), XA())
  {
    StructureH2(rule);
    InRefsS2();
    var g, ext, D := H2(rule), XA(), [0, 1, 1, 2, 2, 1, 0, 0];
    forall x | 0 <= x < |g| ensures (g[x].live && g[x].refCount == ext[x] + D[x]) || (!g[x].live && ext[x] == 0) {
      assert x in {0, 1, 2, 3, 4, 5, 6, 7};
    }
    CountedLists(g, ext, D);
  }

  /** A visit that deletes only `v`, which nothing holds, ends in a state satisfying the
      invariant once the counts are right. */
  lemma SweptOne(B: Graph, l: TopoList, ext: seq<nat>, g: Graph, v: Vid)
    requires Inv(B, l, ext) && Swept(B, g, {v}) && Cut(B, {v}) && Counted(g, ext)
    requires 0 < v < |B| && B[v].live && !IsActive(B[v]) && B[v].consumers == []
    ensures Inv(g, l, ext)
  {
    DoneShape(B, l, g, {v});
    DoneEdges(B, l, g, {v});
    DoneMatched(B, g, {v});
  }

  /** Once `release` returns, the invariant holds. */
  lemma InvH2(rule: Reanchoring)
    ensures Inv(H2(rule), L2(), XA())
  {
    DetachedA(rule);
    SweptA(rule);
    CountedH2(rule);
    assert |Base(HA2(rule), 7)| == 8;
    hide Inv, Swept, Cut, Counted, Base, HA2, H2;
    SweptOne(Base(HA2(rule), 7), L2(), XA(), H2(rule), 7);
  }

  // ---------------------------------------------------------------------------
  // 2. `add_active_node(y)` adds the eager `E2` (vertex 8).

  function X3(): seq<nat> { XA() + [0] }
  function L3(): TopoList { TopoList([0, 1, 2, 3, 4, 5, 6, 8], {}) }

  /** `E2` added, active and holding `y`, its data edge still disabled. */
  function H3(rule: Reanchoring): Graph { EagerG(AddArgG(H2(rule) + [Fresh([])], 8, 4), 8, 0) }

  /** `E2`'s data edge enabled. */
  function HE(rule: Reanchoring): Graph { EnableArgG(H3(rule), 8, 0) }

  /** `y` rebased to the root. */
  function HB1(rule: Reanchoring): Graph { RebasedG(HE(rule), 4, 0) }

  /** `d` rebased to the root; `x` keeps its activator. */
  function HB2(rule: Reanchoring): Graph { RebasedG(HB1(rule), 2, 0) }

  lemma AddedE2(rule: Reanchoring)
    ensures InvExcept(H3(rule), L3(), X3(), 8) && IsActive(H3(rule)[8]) && H3(rule)[8].args == [Edge(4, false)]
  {
    InvH2(rule);
    H2Facts(rule);
    hide Inv, InvExcept, H2, H3;
    AddEagerKeeps(H2(rule), L2(), XA(), 4);
  }

  lemma H2Facts(rule: Reanchoring)
    ensures |H2(rule)| == 8 && H2(rule)[4].live && !H2(rule)[4].eager
    ensures InsertBack(L2(), 8) == L3()
    ensures H3(rule) == EagerG(AddArgG(H2(rule) + [Fresh([])], |H2(rule)|, 4), |H2(rule)|, 0)
  {
  }

  lemma StartB(rule: Reanchoring)
    ensures Activating(H3(rule), HE(rule), L3(), [Entry(8, 4, true, false, false)], {}, {})
    ensures Counted(H3(rule), X3()) && Descending(Structure(H3(rule)))
  {
    AddedE2(rule);
    EnableStart(H3(rule), L3(), X3(), 8, 0);
    ShapeDescending(H3(rule), L3());
  }

  lemma IndexL3()
    ensures var s := L3().items;
            IndexOf(s, 0) == 0 && IndexOf(s, 1) == 1 && IndexOf(s, 2) == 2 && IndexOf(s, 4) == 4 && IndexOf(s, 8) == 7
  {
  }

  lemma PrecedesL3()
    ensures var l := L3(); Precedes(l, 0, 1) && !Precedes(l, 8, 4) && !Precedes(l, 2, 1) && !Precedes(l, 2, 2)
  {
    hide IndexOf;
    IndexL3();
  }

  lemma HEFacts(rule: Reanchoring)
    ensures |HE(rule)| == 9 && IsActive(HE(rule)[4]) && HE(rule)[4].activator == Some(1)
    ensures HE(rule)[8].activator == Some(0) && !HE(rule)[8].conditional && !HE(rule)[0].constant && !HE(rule)[1].constant
    ensures HB1(rule)[4].args == YArgs() && HB1(rule)[4].conditional && HB1(rule)[4].activator == Some(0)
    ensures IsActive(HB1(rule)[3]) && HB1(rule)[3].activator == Some(Anchor(rule)) && !HB1(rule)[3].constant
    ensures IsActive(HB1(rule)[2]) && HB1(rule)[2].activator == Some(1) && !HB1(rule)[2].constant
    ensures HB2(rule)[2].args == []
    ensures ImpliedActivator(HE(rule), 8, 4) == 0 && Pos(HE(rule), 0) == 0 && Pos(HE(rule), 1) == 1
    ensures ImpliedActivator(HB1(rule), 4, 3) == 2 && Pos(HB1(rule), 2) == 2 && Pos(HB1(rule), Anchor(rule)) == Anchor(rule)
    ensures ImpliedActivator(HB1(rule), 4, 2) == 0 && Pos(HB1(rule), 0) == 0 && Pos(HB1(rule), 1) == 1
  {
  }

  lemma PushedB(rule: Reanchoring)
    requires HB1(rule)[4].args == YArgs()
    ensures PushedEntries(HB1(rule), 4, 3, true, false) == [Entry(4, 2, false, true, false), Entry(4, 3, false, true, false)]
  {
    var g := HB1(rule);
    assert PushedEntries(g, 4, 1, true, false) == [Entry(4, 2, false, true, false)];
  }

  /** The entry of `E2`'s edge: `y` is rebased to the root, and passes that on. */
  lemma Step1(rule: Reanchoring)
    requires Shape(HE(rule), L3()) && Placement(HE(rule), L3()) && Matched(HE(rule))
    requires StackOk(HE(rule), [Entry(8, 4, true, false, false)])
    ensures Step(HE(rule), L3(), [Entry(8, 4, true, false, false)])
            == Run(HB1(rule), L3(), [Entry(4, 2, false, true, false), Entry(4, 3, false, true, false)])
  {
    HEFacts(rule);
    PrecedesL3();
    PushedB(rule);
    hide HE, HB1, HB2, H3, Precedes, PushedEntries, IndexOf, ImpliedActivator, Pos;
  }

  /** The entry into `x`: `y` implies `d` for it, which does not precede `x`'s activator. */
  lemma Step2(rule: Reanchoring)
    requires Shape(HB1(rule), L3()) && Placement(HB1(rule), L3()) && Matched(HB1(rule))
    requires StackOk(HB1(rule), [Entry(4, 2, false, true, false), Entry(4, 3, false, true, false)])
    ensures Step(HB1(rule), L3(), [Entry(4, 2, false, true, false), Entry(4, 3, false, true, false)])
            == Run(HB1(rule), L3(), [Entry(4, 2, false, true, false)])
  {
    HEFacts(rule);
    PrecedesL3();
    hide HE, HB1, HB2, H3, Precedes, PushedEntries, IndexOf, ImpliedActivator, Pos;
  }

  /** The entry into `d`: `d` takes `y`'s new activator. */
  lemma Step3(rule: Reanchoring)
    requires Shape(HB1(rule), L3()) && Placement(HB1(rule), L3()) && Matched(HB1(rule))
    requires StackOk(HB1(rule), [Entry(4, 2, false, true, false)])
    ensures Step(HB1(rule), L3(), [Entry(4, 2, false, true, false)]) == Run(HB2(rule), L3(), [])
  {
    HEFacts(rule);
    PrecedesL3();
    hide HE, HB1, H3, Precedes, IndexOf, ImpliedActivator, Pos;
  }

  /** Once `add_active_node` has enabled `E2`'s edge, the invariant holds. */
  lemma InvHB2(rule: Reanchoring)
    ensures Inv(HB2(rule), L3(), X3())
  {
    var e1, e2, e3 := Entry(8, 4, true, false, false), Entry(4, 2, false, true, false), Entry(4, 3, false, true, false);
    StartB(rule);
    Step1(rule);
    StepKeeps(H3(rule), HE(rule), L3(), [e1]);
    Step2(rule);
    StepKeeps(H3(rule), HB1(rule), L3(), [e2, e3]);
    Step3(rule);
    StepKeeps(H3(rule), HB1(rule), L3(), [e2]);
    DoneActivating(H3(rule), HB2(rule), L3(), X3());
  }

  /** The state after `add_active_node(y)`, written out. */
  function KB(rule: Reanchoring): Graph {
    [Root,
     Held(2, [5], [], 0),
     Held(2, [4], [], 0),
     Held(3, [4], [], Anchor(rule)),
     Held(4, [8, 5], YArgs(), 0).(conditional := true),
     Held(2, [6], CArgs(), 0).(conditional := true),
     Held(1, [], [Edge(5, true)], 0).(eager := true),
     Dead,
     Held(0, [], [Edge(4, true)], 0).(eager := true, initialized := false)]
  }

  /** The state after `E2` is added, written out. */
  function K3(rule: Reanchoring): Graph {
    [Root,
     Held(2, [5], [], 0),
     Held(2, [4], [], 1),
     Held(3, [4], [], Anchor(rule)),
     Held(4, [5], YArgs(), 1).(conditional := true),
     Held(2, [6], CArgs(), 0).(conditional := true),
     Held(1, [], [Edge(5, true)], 0).(eager := true),
     Dead,
     Held(0, [], [Edge(4, false)], 0).(eager := true, initialized := false)]
  }

  lemma H3Lit(rule: Reanchoring)
    ensures H3(rule) == K3(rule)
  {
    var g, k := H3(rule), K3(rule);
    forall x | 0 <= x < 9 ensures g[x] == k[x] {
      assert x in {0, 1, 2, 3, 4, 5, 6, 7, 8};
    }
  }

  lemma HB2Lit(rule: Reanchoring)
    ensures HB2(rule) == KB(rule)
  {
    H3Lit(rule);
    var g, k := RebasedG(RebasedG(EnableArgG(K3(rule), 8, 0), 4, 0), 2, 0), KB(rule);
    forall x | 0 <= x < 9 ensures g[x] == k[x] {
      assert x in {0, 1, 2, 3, 4, 5, 6, 7, 8};
    }
    hide K3, KB, H3;
  }

  // ---------------------------------------------------------------------------
  // 3. The handle on `E1` is released.

  function XC(): seq<nat> { X3()[6 := 0] }
  function HC0(rule: Reanchoring): Graph { KB(rule)[6 := Held(0, [], [Edge(5, true)], 0).(eager := true)] }

  /** `E1`'s data edge disabled: `c` has no consumer left. */
  function HC1(rule: Reanchoring): Graph {
    KB(rule)[5 := KB(rule)[5].(consumers := [])][6 := Held(0, [], [Edge(5, false)], 0).(eager := true)]
  }

  /** `c` deactivated and its edges into `b` and `y` disabled. */
  function HC2(rule: Reanchoring): Graph { DisableArgsG(DeactivatedG(HC1(rule), 5), 5, 3) }

  /** `b` deactivated. */
  function HC3(rule: Reanchoring): Graph { DeactivatedG(HC2(rule), 1) }

  function L4(): TopoList { TopoList([0, 1, 2, 3, 4, 6, 8], {}) }
  function L5(): TopoList { TopoList([0, 2, 3, 4, 6, 8], {}) }
  function L6(): TopoList { TopoList([0, 2, 3, 4, 8], {}) }

  lemma KBFacts(rule: Reanchoring)
    ensures |KB(rule)| == 9 && KB(rule)[6].live && KB(rule)[6].refCount == 1
    ensures Recounted(KB(rule), 6, 0) == HC0(rule)
  {
  }

  lemma X3Facts()
    ensures |X3()| == 9 && X3()[6] == 1 && X3()[6 := 0] == XC()
  {
  }

  lemma ReleaseE1(rule: Reanchoring)
    ensures Inv(HC0(rule), L3(), XC())
  {
    InvHB2(rule);
    HB2Lit(rule);
    KBFacts(rule);
    X3Facts();
    hide Inv, HB2, KB, HC0, Recounted, X3, XC;
    RecountKeeps(KB(rule), L3(), X3(), 6, 0);
  }

  lemma DisableE1(rule: Reanchoring)
    ensures HC0(rule)[6].args == [Edge(5, true)] && DisableArgG(HC0(rule), 6, 0) == HC1(rule)
  {
    assert RemoveOne([6], 6) == [];
    var r, h := DisableArgG(HC0(rule), 6, 0), HC1(rule);
    forall x | 0 <= x < 9 ensures r[x] == h[x] {
      assert x in {0, 1, 2, 3, 4, 5, 6, 7, 8};
    }
  }

  /** Disabling the edges of a vertex 5 with `c`'s edges removes it from the consumers of
      1 and 4 and changes nothing else. */
  lemma DisableCArgs(g: Graph)
    requires |g| == 9 && g[5].args == CArgs() && g[1].consumers == [5] && g[4].consumers == [8, 5]
    ensures var r := DisableArgsG(g, 5, 3);
            |r| == 9 && r[1] == g[1].(consumers := []) && r[4] == g[4].(consumers := [8])
            && r[0] == g[0] && r[2] == g[2] && r[3] == g[3] && r[6] == g[6] && r[8] == g[8]
            && r[7] == g[7] && r[5] == g[5].(args := [Edge(1, false), Edge(4, false), Edge(4, false)])
  {
    var g1 := DisableArgG(g, 5, 0);
    DisableC0(g);
    DisableC1(g1);
    assert DisableArgsG(g, 5, 1) == g1;
    assert DisableArgsG(g, 5, 2) == DisableArgG(g1, 5, 1);
  }

  lemma DisableC0(g: Graph)
    requires |g| == 9 && g[5].args == CArgs() && g[1].consumers == [5]
    ensures var r := DisableArgG(g, 5, 0);
            |r| == 9 && r[1] == g[1].(consumers := []) && r[5] == g[5].(args := [Edge(1, false), Edge(4, true), Edge(4, false)])
            && forall x | 0 <= x < 9 && x != 1 && x != 5 :: r[x] == g[x]
  {
    assert RemoveOne([5], 5) == [];
  }

  lemma DisableC1(g: Graph)
    requires |g| == 9 && g[5].args == [Edge(1, false), Edge(4, true), Edge(4, false)] && g[4].consumers == [8, 5]
    ensures var r := DisableArgG(g, 5, 1);
            |r| == 9 && r[4] == g[4].(consumers := [8]) && r[5] == g[5].(args := [Edge(1, false), Edge(4, false), Edge(4, false)])
            && forall x | 0 <= x < 9 && x != 4 && x != 5 :: r[x] == g[x]
  {
    assert RemoveOne([8, 5], 5) == [8];
  }

  lemma DeactivatedC(rule: Reanchoring)
    ensures var g := DeactivatedG(HC1(rule), 5);
            |g| == 9 && g[5].args == CArgs() && g[1].consumers == [5] && g[4].consumers == [8, 5]
            && g[1] == KB(rule)[1] && g[4] == KB(rule)[4] && g[0] == Root && g[2] == KB(rule)[2]
            && g[3] == KB(rule)[3] && g[8] == KB(rule)[8] && g[6] == HC1(rule)[6]
            && g[7] == Dead && g[5] == KB(rule)[5].(consumers := [], positioned := false, activator := None, initialized := false)
  {
  }

  /** What the round that pops `c` leaves. */
  lemma HC2Facts(rule: Reanchoring)
    ensures var g, k := HC2(rule), KB(rule);
            |g| == 9 && g[1] == k[1].(consumers := []) && g[4] == k[4].(consumers := [8])
            && g[0] == Root && g[2] == k[2] && g[3] == k[3] && g[8] == k[8] && g[6] == HC1(rule)[6]
            && g[7] == Dead && g[5] == DeadC()
  {
    DeactivatedC(rule);
    DisableCArgs(DeactivatedG(HC1(rule), 5));
  }

  lemma L3Index()
    ensures IndexOf(L3().items, 5) == 5 && IndexOf(L4().items, 1) == 1 && IndexOf(L5().items, 6) == 4
  {
  }

  lemma EraseL3()
    ensures 5 in L3().items && Erase(L3(), 5) == L4()
  {
    L3Index();
  }

  lemma EraseL4()
    ensures 1 in L4().items && Erase(L4(), 1) == L5()
  {
    L3Index();
  }

  lemma EraseL5()
    ensures 6 in L5().items && Erase(L5(), 6) == L6()
  {
    L3Index();
  }

  lemma EnabledCArgs()
    ensures EnabledTargets(CArgs()) == [1, 4]
  {
    EnabledTargets3(Edge(1, true), Edge(4, true), Edge(4, false));
  }

  lemma PoppedC(rule: Reanchoring)
    ensures |HC1(rule)| == 9 && |CArgs()| == 3 && !HC1(rule)[5].constant && HC1(rule)[5].positioned && HC1(rule)[5].consumers == [] && HC1(rule)[5].args == CArgs()
  {
  }

  /** The round that pops `c`: `c` has no consumer and is deactivated. */
  lemma WalkC1(rule: Reanchoring)
    requires Shape(HC1(rule), L3()) && Placement(HC1(rule), L3()) && Matched(HC1(rule)) && EdgesActive(HC1(rule), {})
    ensures DisableStep(HC1(rule), L3(), [5], rule) == DRun(HC2(rule), L4(), [1, 4])
  {
    PoppedC(rule);
    EraseL3();
    EnabledCArgs();
    hide HC1, Erase, EnabledTargets, DisableArgsG, CArgs;
    assert [5][..0] + [1, 4] == [1, 4];
  }

  /** The round that pops `y`: `E2` keeps it, under both rules. */
  lemma WalkC2(rule: Reanchoring)
    requires Shape(HC2(rule), L4()) && Placement(HC2(rule), L4()) && Matched(HC2(rule)) && EdgesActive(HC2(rule), {})
    ensures DisableStep(HC2(rule), L4(), [1, 4], rule) == DRun(HC2(rule), L4(), [1])
  {
    KeptY(rule);
    hide HC2;
  }

  lemma KeptY(rule: Reanchoring)
    ensures |HC2(rule)| == 9 && !HC2(rule)[4].constant && HC2(rule)[4].positioned && HC2(rule)[4].consumers != []
    ensures KeepsAnchor(rule, HC2(rule), 4)
  {
    HC2Facts(rule);
    var g := HC2(rule);
    assert g[4].consumers[0] == 8 && g[8].activator == Some(0) && g[4].activator == Some(0);
    hide HC2, KB;
    assert ImpliedActivator(g, 8, 4) == 0;
  }

  /** The round that pops `b`: `b` has no consumer left and is deactivated. */
  lemma WalkC3(rule: Reanchoring)
    requires Shape(HC2(rule), L4()) && Placement(HC2(rule), L4()) && Matched(HC2(rule)) && EdgesActive(HC2(rule), {})
    ensures DisableStep(HC2(rule), L4(), [1], rule) == DRun(HC3(rule), L5(), [])
  {
    PoppedB(rule);
    EraseL4();
    hide HC2, HC3, Erase, EnabledTargets;
  }

  lemma PoppedB(rule: Reanchoring)
    ensures |HC2(rule)| == 9 && !HC2(rule)[1].constant && HC2(rule)[1].positioned && HC2(rule)[1].consumers == []
    ensures HC2(rule)[1].args == [] && EnabledTargets(HC2(rule)[1].args) == []
    ensures DisableArgsG(DeactivatedG(HC2(rule), 1), 1, 0) == HC3(rule)
  {
    HC2Facts(rule);
  }

  /** When `disable_edge` returns, the invariant holds apart from `E1`'s data edge. */
  lemma DisabledC(rule: Reanchoring)
    ensures InvExcept(HC3(rule), L5(), XC(), 6)
  {
    ReleaseE1(rule);
    DisableE1(rule);
    DisableStart(HC0(rule), L3(), 6, 0);
    WalkC1(rule);
    DisableStepKeeps(HC0(rule), HC1(rule), L3(), [5], {6}, rule);
    WalkC2(rule);
    DisableStepKeeps(HC0(rule), HC2(rule), L4(), [1, 4], {6}, rule);
    WalkC3(rule);
    DisableStepKeeps(HC0(rule), HC2(rule), L4(), [1], {6}, rule);
    DisableDone(HC0(rule), HC3(rule), L5(), 6, XC());
  }

  /** `c` after its deactivation, and `b` after its own. */
  function DeadC(): Vertex {
    Vertex(2, false, [], [Edge(1, false), Edge(4, false), Edge(4, false)], None, false, true, false, false, false, true)
  }
  function DeadB(): Vertex { Vertex(2, false, [], [], None, false, false, false, false, false, true) }

  /** The state `disable_edge` leaves, written out. */
  function KC(rule: Reanchoring): Graph {
    [Root,
     DeadB(),
     Held(2, [4], [], 0),
     Held(3, [4], [], Anchor(rule)),
     Held(4, [8], YArgs(), 0).(conditional := true),
     DeadC(),
     Held(0, [], [Edge(5, false)], 0).(eager := true),
     Dead,
     Held(0, [], [Edge(4, true)], 0).(eager := true, initialized := false)]
  }

  lemma HC3Lit(rule: Reanchoring)
    ensures HC3(rule) == KC(rule)
  {
    HC2Facts(rule);
    var g, k := HC3(rule), KC(rule);
    hide HC2;
    forall x | 0 <= x < 9 ensures g[x] == k[x] {
      assert x in {0, 1, 2, 3, 4, 5, 6, 7, 8};
    }
  }

  lemma KCFacts(rule: Reanchoring)
    ensures |KC(rule)| == 9 && KC(rule)[6].live && KC(rule)[6].eager && KC(rule)[6].args == [Edge(5, false)]
    ensures forall j | 0 <= j < |KC(rule)[6].args| :: !KC(rule)[6].args[j].enabled
  {
  }

  /** Inside `remove_subgraph_(E1)`, once `E1` is detached: the graph the visit from `E1`
      runs over. */
  lemma DetachedC(rule: Reanchoring)
    ensures Inv(Base(KC(rule), 6), L6(), XC())
  {
    DisabledC(rule);
    HC3Lit(rule);
    KCFacts(rule);
    EraseL5();
    hide InvExcept, Inv, HC3, KC, Erase;
    DetachKeeps(KC(rule), L5(), XC(), 6);
  }

  /** After the visit from `E1`: `E1` is deleted and `c` has lost the reference of its edge. */
  function H4(rule: Reanchoring): Graph { KC(rule)[5 := DeadC().(refCount := 1)][6 := Dead] }

  lemma SweptC(rule: Reanchoring)
    ensures Swept(Base(KC(rule), 6), H4(rule), {6}) && Cut(Base(KC(rule), 6), {6})
    ensures var B := Base(KC(rule), 6); |B| == 9 && B[6].live && !IsActive(B[6]) && B[6].consumers == []
  {
    var B, g := Base(KC(rule), 6), H4(rule);
    forall x | 0 <= x < 9
      ensures if x in {6} then g[x] == Dead else g[x] == B[x].(refCount := g[x].refCount) && (!B[x].live ==> g[x] == B[x])
    {
      assert x in {0, 1, 2, 3, 4, 5, 6, 7, 8};
    }
    forall x, j | 0 <= x < 9 && x !in {6} && 0 <= j < |B[x].args| ensures B[x].args[j].target !in {6} {
      assert x in {0, 1, 2, 3, 4, 5, 7, 8};
    }
  }

  /** The structural in-degree of `x` in a nine-vertex graph, summed out. */
  lemma InRefs9(S: seq<seq<Vid>>, x: Vid)
    requires |S| == 9
    ensures InRefs(S, x) == multiset(S[0])[x] + multiset(S[1])[x] + multiset(S[2])[x] + multiset(S[3])[x]
                            + multiset(S[4])[x] + multiset(S[5])[x] + multiset(S[6])[x] + multiset(S[7])[x]
                            + multiset(S[8])[x]
  {
    assert InRefsUpTo(S, 1, x) == multiset(S[0])[x];
    assert InRefsUpTo(S, 2, x) == InRefsUpTo(S, 1, x) + multiset(S[1])[x];
    assert InRefsUpTo(S, 3, x) == InRefsUpTo(S, 2, x) + multiset(S[2])[x];
    assert InRefsUpTo(S, 4, x) == InRefsUpTo(S, 3, x) + multiset(S[3])[x];
    assert InRefsUpTo(S, 5, x) == InRefsUpTo(S, 4, x) + multiset(S[4])[x];
    assert InRefsUpTo(S, 6, x) == InRefsUpTo(S, 5, x) + multiset(S[5])[x];
    assert InRefsUpTo(S, 7, x) == InRefsUpTo(S, 6, x) + multiset(S[6])[x];
    assert InRefsUpTo(S, 8, x) == InRefsUpTo(S, 7, x) + multiset(S[7])[x];
  }

  /** The structural edges of `H4`, and the in-degrees they give. */
  function S4(): seq<seq<Vid>> { [[], [], [], [], [2, 3, 3], [1, 4, 4], [], [], [4]] }

  lemma StructureH4(rule: Reanchoring)
    ensures Structure(H4(rule)) == S4()
  {
    var g := H4(rule);
    assert Targets(g[4].args) == [2, 3, 3];
    assert Targets(g[5].args) == [1, 4, 4];
    assert Targets(g[8].args) == [4];
    forall x | 0 <= x < 9 ensures Structure(g)[x] == S4()[x] {
      assert x in {0, 1, 2, 3, 4, 5, 6, 7, 8};
    }
  }

  lemma InRefsS4()
    ensures forall x | 0 <= x < 9 :: InRefs(S4(), x) == [0, 1, 1, 2, 3, 0, 0, 0, 0][x]
  {
    var S := S4();
    forall x | 0 <= x < 9 ensures InRefs(S, x) == [0, 1, 1, 2, 3, 0, 0, 0, 0][x] {
      InRefs9(S, x);
      Count3(2, 3, 3, x);
      Count3(1, 4, 4, x);
    }
  }

  lemma CountedH4(rule: Reanchoring)
    ensures Counted(H4(rule), XC())
  {
    StructureH4(rule);
    InRefsS4();
    X3Facts();
    var g, ext, D := H4(rule), XC(), [0, 1, 1, 2, 3, 0, 0, 0, 0];
    assert ext == [0, 1, 1, 1, 1, 1, 0, 0, 0];
    forall x | 0 <= x < |g| ensures (g[x].live && g[x].refCount == ext[x] + D[x]) || (!g[x].live && ext[x] == 0) {
      assert x in {0, 1, 2, 3, 4, 5, 6, 7, 8};
    }
    CountedLists(g, ext, D);
  }

  /** Once `release(E1)` returns, the invariant holds. */
  lemma InvH4(rule: Reanchoring)
    ensures Inv(H4(rule), L6(), XC())
  {
    DetachedC(rule);
    SweptC(rule);
    CountedH4(rule);
    hide Inv, Swept, Cut, Counted, Base, KC, H4;
    SweptOne(Base(KC(rule), 6), L6(), XC(), H4(rule), 6);
  }

  // ---------------------------------------------------------------------------
  // The outcome.

  /** As written, the run ends in a state that satisfies the invariant, in which `x` is
      active and its activator `b` is not in the order. */
  lemma AsWrittenStrays()
    ensures var g := H4(AsWritten);
            Inv(g, L6(), XC()) && IsActive(g[3]) && g[3].activator == Some(1) && g[1].live && !g[1].positioned
  {
    hide Inv;
    InvH4(AsWritten);
  }

  /** Corrected, the same run ends with `x`'s activator `d`, which is active. */
  lemma CorrectedKeepsActivator()
    ensures var g := H4(Corrected);
            Inv(g, L6(), XC()) && IsActive(g[3]) && g[3].activator == Some(2) && IsActive(g[2])
  {
    hide Inv;
    InvH4(Corrected);
  }
}
