/**
 * The elementary state changes of the engine, stated on values, and the parts of
 * the invariant each of them keeps.  The engine's methods perform these changes
 * on their fields and call the lemmas here.
 */
module GraphSteps {
  import opened Wrappers
  import opened TopologicalList
  import opened DependencyGraph

  /** The state `start` creates: the root alone, at the only position. */
  lemma InitialInv()
    ensures Inv([Root], TopoList([0], {}), [0])
  {
    var g := [Root];
    var l := TopoList([0], {});
    var S := Structure(g);
    assert S == [[]];
    assert InRefsUpTo(S, 0, 0) == 0;
    assert InRefsUpTo(S, 1, 0) == 0;
    assert Precedes(l, 0, 0) == false;
  }

  /** `add_vertex`: a new inert vertex without edges. */
  function AddVertexG(g: Graph, n: Vertex): Graph {
    g + [n]
  }

  lemma StructureAppend(g: Graph, n: Vertex)
    ensures Structure(g + [n]) == Structure(g) + [Targets(n.args)]
  {
  }

  lemma AddVertexKeeps(g: Graph, l: TopoList, ext: seq<nat>, n: Vertex)
    requires Inv(g, l, ext)
    requires n == Fresh([]) || n == Fresh([]).(constant := true, positioned := true)
    ensures Inv(g + [n], l, ext + [0])
  {
    AddVertexCounted(g, l, ext, n);
    AddVertexMatched(g, l, n);
    AddVertexShape(g, l, n);
    AddVertexEdges(g, l, n);
  }

  lemma AddVertexShape(g: Graph, l: TopoList, n: Vertex)
    requires Shape(g, l) && Placement(g, l)
    requires n == Fresh([]) || n == Fresh([]).(constant := true, positioned := true)
    ensures Shape(g + [n], l) && Placement(g + [n], l)
  {
    var g' := g + [n];
    forall x | 0 <= x < |g'|
      ensures VertexOk(g', x)
    {
      if x < |g| {
        assert VertexOk(g, x);
        assert g'[x] == g[x];
        forall j | 0 <= j < |g[x].args|
          ensures ArgOk(g', x, g'[x].args[j].target)
        {
          assert ArgOk(g, x, g[x].args[j].target);
        }
      }
    }
  }

  lemma AddVertexEdges(g: Graph, l: TopoList, n: Vertex)
    requires Closed(g, {}) && EdgesActive(g, {}) && EdgesPlaced(g, {}) && Sorted(g, l, {}, {})
    requires Observed(g, {}) && EagerOk(g, {})
    requires n == Fresh([]) || n == Fresh([]).(constant := true, positioned := true)
    ensures Closed(g + [n], {}) && EdgesActive(g + [n], {}) && EdgesPlaced(g + [n], {})
    ensures Sorted(g + [n], l, {}, {}) && Observed(g + [n], {}) && EagerOk(g + [n], {})
  {
  }

  lemma AddVertexCounted(g: Graph, l: TopoList, ext: seq<nat>, n: Vertex)
    requires Shape(g, l) && Counted(g, ext)
    requires n.args == [] && n.live && n.refCount == 0
    ensures Counted(g + [n], ext + [0])
  {
    var g' := g + [n];
    var S := Structure(g);
    StructureAppend(g, n);
    assert Structure(g') == S + [[]];
    forall x | 0 <= x < |g'|
      ensures g'[x].live ==> g'[x].refCount == (ext + [0])[x] + InRefs(Structure(g'), x)
      ensures !g'[x].live ==> (ext + [0])[x] == 0
    {
      InRefsAppend(S, [], x);
      if x == |g| {
        NothingAbove(g, l, x);
        InRefsUpToNone(S, |S|, x);
      }
    }
  }

  lemma AddVertexMatched(g: Graph, l: TopoList, n: Vertex)
    requires Shape(g, l) && Matched(g)
    requires n.args == [] && n.consumers == []
    ensures Matched(g + [n])
  {
    var g' := g + [n];
    forall x: Vid, w | 0 <= w < |g'|
      ensures multiset(g'[w].consumers)[x] == if x < |g'| then multiset(EnabledTargets(g'[x].args))[w] else 0
    {
      AddVertexMatchedAt(g, l, n, x, w);
    }
  }

  lemma AddVertexMatchedAt(g: Graph, l: TopoList, n: Vertex, x: Vid, w: Vid)
    requires Shape(g, l) && Matched(g) && w <= |g|
    requires n.args == [] && n.consumers == []
    ensures var g' := g + [n];
            multiset(g'[w].consumers)[x] == if x < |g'| then multiset(EnabledTargets(g'[x].args))[w] else 0
  {
    var g' := g + [n];
    if w < |g| {
      assert g'[w] == g[w];
      if x < |g| { assert g'[x] == g[x]; } else if x == |g| {
        NoConsumerBeyond(g, w, x);
      }
    } else {
      if x < |g| {
        assert g'[x] == g[x];
        NoTargetBeyond(g, l, x);
      } else if x == |g| {
        assert g'[x].args == [];
      }
    }
  }

  /** No enabled edge of an existing vertex reaches past the end of the arena. */
  lemma NoTargetBeyond(g: Graph, l: TopoList, x: Vid)
    requires Shape(g, l) && x < |g|
    ensures multiset(EnabledTargets(g[x].args))[|g|] == 0
  {
    assert VertexOk(g, x);
    assert forall j | 0 <= j < |g[x].args| :: ArgOk(g, x, g[x].args[j].target);
    EnabledTargetsBounded(g[x].args, x);
    assert |g| !in EnabledTargets(g[x].args);
  }

  /** Nobody consumes a vertex that does not exist. */
  lemma NoConsumerBeyond(g: Graph, w: Vid, x: Vid)
    requires Matched(g) && w < |g| && x >= |g|
    ensures multiset(g[w].consumers)[x] == 0
  {
  }

  /** Structural edges point to older vertices, so nothing points to `x >= |g|`. */
  lemma NothingAbove(g: Graph, l: TopoList, x: Vid)
    requires Shape(g, l) && x >= |g|
    ensures forall u | 0 <= u < |g| :: x !in Structure(g)[u]
  {
    forall u | 0 <= u < |g|
      ensures x !in Structure(g)[u]
    {
      assert VertexOk(g, u);
      assert forall j | 0 <= j < |Structure(g)[u]| :: Structure(g)[u][j] < u;
    }
  }

  /** `add_edge(v, w)` followed by `graph_[w].add_ref()`, for the newest vertex `v`. */
  function AddArgG(g: Graph, v: Vid, w: Vid): Graph
    requires v < |g| && w < |g|
  {
    var g1 := g[v := g[v].(args := g[v].args + [Edge(w, false)])];
    g1[w := g1[w].(refCount := g1[w].refCount + 1)]
  }

  /** The newest vertex, still inert, with only disabled edges. */
  ghost predicate Newest(g: Graph, v: Vid) {
    v + 1 == |g| && g[v].live && !g[v].positioned && !g[v].constant && !g[v].eager
    && !g[v].conditional && g[v].activator.None? && g[v].consumers == []
    && forall j | 0 <= j < |g[v].args| :: !g[v].args[j].enabled
  }

  lemma AddArgKeeps(g: Graph, l: TopoList, ext: seq<nat>, v: Vid, w: Vid)
    requires Inv(g, l, ext) && Newest(g, v)
    requires 0 < w < v && g[w].live && !g[w].eager
    ensures Inv(AddArgG(g, v, w), l, ext) && Newest(AddArgG(g, v, w), v)
    ensures forall x | 0 <= x < |g| && x != v && x != w :: AddArgG(g, v, w)[x] == g[x]
  {
    AddArgCounted(g, l, ext, v, w);
    AddArgMatched(g, l, v, w);
    AddArgShape(g, l, v, w);
    AddArgEdges(g, l, v, w);
  }

  lemma AddArgShape(g: Graph, l: TopoList, v: Vid, w: Vid)
    requires Shape(g, l) && Placement(g, l) && Newest(g, v) && 0 < w < v && !g[w].eager && g[w].live
    ensures Shape(AddArgG(g, v, w), l) && Placement(AddArgG(g, v, w), l)
  {
    var g' := AddArgG(g, v, w);
    forall x | 0 <= x < |g'|
      ensures VertexOk(g', x)
    {
      assert VertexOk(g, x);
      if x != v {
        forall j | 0 <= j < |g[x].args|
          ensures ArgOk(g', x, g'[x].args[j].target)
        {
          assert ArgOk(g, x, g[x].args[j].target);
        }
      } else {
        forall j | 0 <= j < |g'[x].args|
          ensures ArgOk(g', x, g'[x].args[j].target)
        {
          if j < |g[x].args| {
            assert ArgOk(g, x, g[x].args[j].target);
          }
        }
      }
    }
  }

  lemma AddArgEdges(g: Graph, l: TopoList, v: Vid, w: Vid)
    requires Closed(g, {}) && EdgesActive(g, {}) && EdgesPlaced(g, {}) && Sorted(g, l, {}, {})
    requires Observed(g, {}) && EagerOk(g, {})
    requires Newest(g, v) && 0 < w < v && g[w].live
    ensures Closed(AddArgG(g, v, w), {})
    ensures EdgesActive(AddArgG(g, v, w), {})
    ensures EdgesPlaced(AddArgG(g, v, w), {})
    ensures Sorted(AddArgG(g, v, w), l, {}, {})
    ensures Observed(AddArgG(g, v, w), {})
    ensures EagerOk(AddArgG(g, v, w), {})
  {
    AddArgEdgesLeft(g, l, v, w);
    AddArgEdgesRight(g, l, v, w);
  }

  lemma AddArgEdgesLeft(g: Graph, l: TopoList, v: Vid, w: Vid)
    requires Closed(g, {}) && EdgesActive(g, {}) && EdgesPlaced(g, {})
    requires Newest(g, v) && 0 < w < v && g[w].live
    ensures Closed(AddArgG(g, v, w), {})
    ensures EdgesActive(AddArgG(g, v, w), {})
    ensures EdgesPlaced(AddArgG(g, v, w), {})
  {
  }

  lemma AddArgEdgesRight(g: Graph, l: TopoList, v: Vid, w: Vid)
    requires Sorted(g, l, {}, {}) && Observed(g, {}) && EagerOk(g, {})
    requires Newest(g, v) && 0 < w < v && g[w].live
    ensures Sorted(AddArgG(g, v, w), l, {}, {})
    ensures Observed(AddArgG(g, v, w), {})
    ensures EagerOk(AddArgG(g, v, w), {})
  {
    AddArgSorted(g, l, v, w);
    AddArgObserved(g, v, w);
    AddArgEager(g, v, w);
  }

  /** A new disabled edge asks nothing of the order. */
  lemma AddArgSorted(g: Graph, l: TopoList, v: Vid, w: Vid)
    requires Sorted(g, l, {}, {}) && Newest(g, v) && 0 < w < v
    ensures Sorted(AddArgG(g, v, w), l, {}, {})
  {
    var g' := AddArgG(g, v, w);
    forall x, j | 0 <= x < |g'| && 0 <= j < |g'[x].args| && g'[x].args[j].enabled
      ensures g'[x].args[j].target < |g'| && Precedes(l, Pos(g', g'[x].args[j].target), x)
    {
      assert x != v && g'[x] == g[x].(refCount := g'[x].refCount);
      assert Pos(g', g[x].args[j].target) == Pos(g, g[x].args[j].target);
    }
  }

  /** A new edge leaves activity and consumers alone. */
  lemma AddArgObserved(g: Graph, v: Vid, w: Vid)
    requires Observed(g, {}) && Newest(g, v) && 0 < w < v
    ensures Observed(AddArgG(g, v, w), {})
  {
    var g' := AddArgG(g, v, w);
    forall x | 0 < x < |g'| && IsActive(g'[x]) && !g'[x].eager
      ensures g'[x].consumers != []
    {
      assert x != v && g'[x] == g[x].(refCount := g'[x].refCount);
    }
  }

  /** A new edge of the newest vertex, which is not eager, leaves the eager ones alone. */
  lemma AddArgEager(g: Graph, v: Vid, w: Vid)
    requires EagerOk(g, {}) && Newest(g, v) && 0 < w < v
    ensures EagerOk(AddArgG(g, v, w), {})
  {
    var g' := AddArgG(g, v, w);
    forall x | 0 <= x < |g'| && g'[x].live && g'[x].eager
      ensures IsActive(g'[x]) && g'[x].activator == Some(0) && g'[x].args != [] && g'[x].args[0].enabled
    {
      assert x != v && g'[x] == g[x].(refCount := g'[x].refCount);
    }
  }

  lemma AddArgCounted(g: Graph, l: TopoList, ext: seq<nat>, v: Vid, w: Vid)
    requires Shape(g, l) && Counted(g, ext) && v + 1 == |g| && 0 < w < v
    ensures Counted(AddArgG(g, v, w), ext)
  {
    var g' := AddArgG(g, v, w);
    var S := Structure(g);
    var ts := Targets(g[v].args + [Edge(w, false)]);
    assert ts == S[v] + [w];
    assert Structure(g') == S[v := ts];
    forall x: Vid | x < |g'|
      ensures g'[x].live ==> g'[x].refCount == ext[x] + InRefs(Structure(g'), x)
      ensures !g'[x].live ==> ext[x] == 0
    {
      InRefsUpdate(S, v, ts, x);
      assert multiset(ts) == multiset(S[v]) + multiset{w};
    }
  }

  lemma AddArgMatched(g: Graph, l: TopoList, v: Vid, w: Vid)
    requires Shape(g, l) && Matched(g) && Newest(g, v) && 0 < w < v
    ensures Matched(AddArgG(g, v, w))
  {
    var g' := AddArgG(g, v, w);
    EnabledTargetsEmpty(g[v].args);
    EnabledTargetsEmpty(g'[v].args);
    forall x: Vid, u | 0 <= u < |g'|
      ensures multiset(g'[u].consumers)[x] == if x < |g'| then multiset(EnabledTargets(g'[x].args))[u] else 0
    {
      assert g'[u].consumers == g[u].consumers;
      if x < |g'| && x != v { assert g'[x].args == g[x].args; }
    }
  }

  /** The argument loop of `add_node`: one `AddArgG` per argument, in order. */
  function AddArgsG(g: Graph, v: Vid, ts: seq<Vid>): (r: Graph)
    requires v < |g| && forall k | 0 <= k < |ts| :: ts[k] < |g|
    ensures |r| == |g|
  {
    if ts == [] then g else AddArgG(AddArgsG(g, v, ts[..|ts| - 1]), v, ts[|ts| - 1])
  }

  /** One `AddArgG` step, vertex by vertex. */
  lemma AddArgStep(g: Graph, v: Vid, w: Vid)
    requires w < v < |g|
    ensures AddArgG(g, v, w)[v] == g[v].(args := g[v].args + [Edge(w, false)])
    ensures forall x | 0 <= x < |g| && x != v ::
      AddArgG(g, v, w)[x] == g[x].(refCount := g[x].refCount + if x == w then 1 else 0)
  {
  }

  /** Adding the arguments gives `v` one disabled edge per argument and raises each older
      vertex's reference count by the number of times it is an argument; nothing else changes. */
  lemma {:induction false} AddArgsEffect(g: Graph, v: Vid, ts: seq<Vid>)
    requires v < |g| && forall k | 0 <= k < |ts| :: ts[k] < v
    ensures AddArgsG(g, v, ts)[v] == g[v].(args := g[v].args + Inert(ts))
    ensures forall x | 0 <= x < |g| && x != v ::
      AddArgsG(g, v, ts)[x] == g[x].(refCount := g[x].refCount + multiset(ts)[x])
  {
    if ts == [] {
      assert g[v].args + Inert(ts) == g[v].args;
    } else {
      var ts' := ts[..|ts| - 1];
      var w := ts[|ts| - 1];
      assert ts == ts' + [w];
      AddArgsEffect(g, v, ts');
      var g1 := AddArgsG(g, v, ts');
      AddArgStep(g1, v, w);
      assert Inert(ts) == Inert(ts') + [Edge(w, false)];
      assert g[v].args + Inert(ts) == g[v].args + Inert(ts') + [Edge(w, false)];
      forall x | 0 <= x < |g| && x != v
        ensures AddArgsG(g, v, ts)[x] == g[x].(refCount := g[x].refCount + multiset(ts)[x])
      {
        assert multiset(ts) == multiset(ts') + multiset{w};
      }
    }
  }

  /** Adding the arguments of the newest vertex keeps the invariant. */
  lemma {:induction false} AddArgsKeeps(g: Graph, l: TopoList, ext: seq<nat>, v: Vid, ts: seq<Vid>)
    requires Inv(g, l, ext) && Newest(g, v)
    requires forall k | 0 <= k < |ts| :: 0 < ts[k] < v && g[ts[k]].live && !g[ts[k]].eager
    ensures Inv(AddArgsG(g, v, ts), l, ext) && Newest(AddArgsG(g, v, ts), v)
  {
    if ts != [] {
      var ts' := ts[..|ts| - 1];
      var w := ts[|ts| - 1];
      AddArgsKeeps(g, l, ext, v, ts');
      var g1 := AddArgsG(g, v, ts');
      AddArgsEffect(g, v, ts');
      assert g1[w].live && !g1[w].eager;
      AddArgKeeps(g1, l, ext, v, w);
    }
  }

  /** A vertex just appended by `add_node` is the newest, inert one. */
  lemma AddVertexNewest(g: Graph, v: Vid)
    requires v == |g|
    ensures Newest(g + [Fresh([])], v)
  {
  }

  /** `add_active_node`'s set-up of the newest vertex `v`: `eager` is set, `v` gets a new
      last position, and its logical edge goes to the vertex `a` at the order's front. */
  function EagerG(g: Graph, v: Vid, a: Vid): (r: Graph)
    requires v < |g|
    ensures |r| == |g|
  {
    g[v := g[v].(eager := true, positioned := true, activator := Some(a))]
  }

  /** The whole set-up of `add_active_node` before `enable_edge`, from a state satisfying
      the invariant: the invariant holds for the new eager vertex `v` except for its data
      edge, which is still disabled. */
  lemma AddEagerKeeps(g: Graph, l: TopoList, ext: seq<nat>, w: Vid)
    requires Inv(g, l, ext) && 0 < w < |g| && g[w].live && !g[w].eager
    ensures l.items != [] && l.items[0] == 0 && |g| !in l.items
    ensures var v := |g|;
            var r, l' := EagerG(AddArgG(g + [Fresh([])], v, w), v, 0), InsertBack(l, v);
            InvExcept(r, l', ext + [0], v) && IsActive(r[v]) && r[v].live && r[v].eager && r[v].args == [Edge(w, false)]
            && r[w].refCount == g[w].refCount + 1
  {
    var v := |g|;
    AddDataEdgeKeeps(g, l, ext, w);
    var g2 := AddArgG(g + [Fresh([])], v, w);
    hide Inv;
    EagerStartKeeps(g2, l, ext + [0], v);
  }

  /** `add_vertex` followed by the data edge to `w` and its reference. */
  lemma AddDataEdgeKeeps(g: Graph, l: TopoList, ext: seq<nat>, w: Vid)
    requires Inv(g, l, ext) && 0 < w < |g| && g[w].live && !g[w].eager
    ensures var v := |g|;
            var r := AddArgG(g + [Fresh([])], v, w);
            Inv(r, l, ext + [0]) && Newest(r, v) && r[v].args == [Edge(w, false)]
            && r[w].refCount == g[w].refCount + 1
  {
    var v := |g|;
    AddVertexKeeps(g, l, ext, Fresh([]));
    AddVertexNewest(g, v);
    var g1 := g + [Fresh([])];
    AddArgKeeps(g1, l, ext + [0], v, w);
    var g2 := AddArgG(g1, v, w);
    assert g2[v].args == [Edge(w, false)];
  }

  /** Setting up the newest vertex, whose only edge is still disabled, as an eager one
      gives the invariant that `enable_edge` expects: everything holds except that the
      new eager vertex's data edge is not enabled yet. */
  lemma EagerStartKeeps(g: Graph, l: TopoList, ext: seq<nat>, v: Vid)
    requires Inv(g, l, ext) && Newest(g, v) && |g[v].args| == 1
    ensures v !in l.items && l.items != [] && l.items[0] == 0
    ensures var r, l' := EagerG(g, v, 0), InsertBack(l, v);
            InvExcept(r, l', ext, v) && IsActive(r[v]) && !r[v].args[0].enabled
  {
    var r := EagerG(g, v, 0);
    assert v !in l.items;
    EagerShape(g, l, v);
    EagerEdges(g, l, v);
    assert SameEdges(g, r);
    SameEdgesMatched(g, r);
    SameEdgesCounted(g, r, ext);
  }

  lemma EagerShape(g: Graph, l: TopoList, v: Vid)
    requires Shape(g, l) && Placement(g, l) && Closed(g, {}) && Newest(g, v) && |g[v].args| == 1
    requires v !in l.items
    ensures Shape(EagerG(g, v, 0), InsertBack(l, v)) && Placement(EagerG(g, v, 0), InsertBack(l, v))
    ensures Closed(EagerG(g, v, 0), {})
  {
    var r, l' := EagerG(g, v, 0), InsertBack(l, v);
    InsertBackFacts(l, v);
    assert l'.items[0] == l.items[0];
    assert VertexOk(g, 0);
    forall x | 0 <= x < |r|
      ensures VertexOk(r, x)
    {
      assert VertexOk(g, x);
      forall j | 0 <= j < |r[x].args|
        ensures ArgOk(r, x, r[x].args[j].target)
      {
        assert ArgOk(g, x, g[x].args[j].target);
      }
    }
  }

  lemma EagerEdges(g: Graph, l: TopoList, v: Vid)
    requires Shape(g, l) && Placement(g, l) && EdgesActive(g, {}) && EdgesPlaced(g, {})
    requires Sorted(g, l, {}, {}) && Observed(g, {}) && EagerOk(g, {}) && Newest(g, v)
    requires v !in l.items
    ensures var r, l' := EagerG(g, v, 0), InsertBack(l, v);
            EdgesActive(r, {}) && EdgesPlaced(r, {}) && Sorted(r, l', {}, {}) && Observed(r, {})
            && EagerOk(r, {v})
  {
    var r, l' := EagerG(g, v, 0), InsertBack(l, v);
    InsertBackFacts(l, v);
    forall x, j | 0 <= x < |r| && 0 <= j < |r[x].args| && r[x].args[j].enabled
      ensures var t := r[x].args[j].target;
              t < |r| && r[t].positioned && Precedes(l', Pos(r, t), x)
    {
      assert x != v;
      assert VertexOk(g, x);
      assert ArgOk(g, x, g[x].args[j].target);
    }
  }

  /** `graph_[v].conditional = true`. */
  function ConditionalG(g: Graph, v: Vid): (r: Graph)
    requires v < |g|
    ensures |r| == |g|
  {
    g[v := g[v].(conditional := true)]
  }

  /** Making the newest vertex conditional keeps the invariant when it has an argument to
      select the branch with. */
  lemma ConditionalKeeps(g: Graph, l: TopoList, ext: seq<nat>, v: Vid)
    requires Inv(g, l, ext) && Newest(g, v) && |g[v].args| >= 1
    ensures Inv(ConditionalG(g, v), l, ext)
    ensures ConditionalG(g, v)[v].conditional && !IsActive(ConditionalG(g, v)[v])
  {
    var r := ConditionalG(g, v);
    assert SameEdges(g, r);
    SameEdgesMatched(g, r);
    SameEdgesCounted(g, r, ext);
    ConditionalShape(g, l, v);
    ConditionalEdges(g, l, v);
  }

  lemma ConditionalShape(g: Graph, l: TopoList, v: Vid)
    requires Shape(g, l) && Placement(g, l) && Closed(g, {}) && Newest(g, v) && |g[v].args| >= 1
    ensures Shape(ConditionalG(g, v), l) && Placement(ConditionalG(g, v), l) && Closed(ConditionalG(g, v), {})
  {
    var r := ConditionalG(g, v);
    forall x | 0 <= x < |r|
      ensures VertexOk(r, x)
    {
      assert VertexOk(g, x);
      forall j | 0 <= j < |r[x].args|
        ensures ArgOk(r, x, r[x].args[j].target)
      {
        assert ArgOk(g, x, g[x].args[j].target);
      }
    }
  }

  lemma ConditionalEdges(g: Graph, l: TopoList, v: Vid)
    requires EdgesActive(g, {}) && EdgesPlaced(g, {}) && Sorted(g, l, {}, {}) && Observed(g, {})
    requires EagerOk(g, {}) && v < |g|
    ensures var r := ConditionalG(g, v);
            EdgesActive(r, {}) && EdgesPlaced(r, {}) && Sorted(r, l, {}, {}) && Observed(r, {})
            && EagerOk(r, {})
  {
  }
}
