/**
 * Reference counts as handles see them (`add_ref` / `release`): a vertex's count is
 * the number of handles held on it plus the number of structural edges into it, so
 * a handle added or dropped moves the count by one and changes nothing else the
 * engine invariant looks at.
 */
module Handles {
  import opened TopologicalList
  import opened DependencyGraph

  /** `graph_[v]` with reference count `c`, every other field and vertex untouched. */
  function Recounted(g: Graph, v: Vid, c: nat): (r: Graph)
    requires v < |g|
    ensures |r| == |g| && r[v].refCount == c
    ensures forall x | 0 <= x < |g| :: r[x] == g[x].(refCount := r[x].refCount)
    ensures forall x | 0 <= x < |g| && x != v :: r[x] == g[x]
  {
    g[v := g[v].(refCount := c)]
  }

  /** Under the invariant every vertex with a handle on it is live, and its count is at
      least its number of handles. */
  lemma {:induction false} HeldLive(g: Graph, l: TopoList, ext: seq<nat>)
    requires Inv(g, l, ext)
    ensures |ext| == |g|
    ensures forall x | 0 <= x < |g| && ext[x] > 0 :: g[x].live && g[x].refCount >= ext[x]
  {
    forall x | 0 <= x < |g| && ext[x] > 0
      ensures g[x].live && g[x].refCount >= ext[x]
    {
      assert g[x].live ==> g[x].refCount == ext[x] + InRefs(Structure(g), x);
    }
  }

  /** Holding `e` handles on the live `v` instead of `ext[v]`: the count becomes `e` plus
      the structural in-degree, and the invariant holds with the new handle counts. */
  lemma {:induction false} RecountKeeps(g: Graph, l: TopoList, ext: seq<nat>, v: Vid, e: nat)
    requires Inv(g, l, ext) && v < |g| && g[v].live
    ensures |ext| == |g| && g[v].refCount == ext[v] + InRefs(Structure(g), v)
    ensures Inv(Recounted(g, v, InRefs(Structure(g), v) + e), l, ext[v := e])
  {
    var r := Recounted(g, v, InRefs(Structure(g), v) + e);
    hide Recounted;
    RecountShape(g, r, l);
    RecountEdges(g, r, l);
    RecountMatched(g, r);
    RecountCounted(g, r, ext, v, e);
  }

  lemma {:induction false} RecountShape(g: Graph, r: Graph, l: TopoList)
    requires Shape(g, l) && Placement(g, l) && Closed(g, {})
    requires |r| == |g| && forall x | 0 <= x < |g| :: r[x] == g[x].(refCount := r[x].refCount)
    requires forall x | 0 <= x < |g| && !g[x].live :: r[x] == g[x]
    ensures Shape(r, l) && Placement(r, l) && Closed(r, {})
  {
    forall x | 0 <= x < |r|
      ensures VertexOk(r, x)
    {
      assert VertexOk(g, x);
      forall j | 0 <= j < |r[x].args|
        ensures ArgOk(r, x, r[x].args[j].target)
      {
        assert ArgOk(g, x, g[x].args[j].target);
        assert r[g[x].args[j].target] == g[g[x].args[j].target].(refCount := r[g[x].args[j].target].refCount);
      }
    }
  }

  lemma {:induction false} RecountEdges(g: Graph, r: Graph, l: TopoList)
    requires EdgesActive(g, {}) && EdgesPlaced(g, {}) && Sorted(g, l, {}, {}) && Observed(g, {})
    requires EagerOk(g, {})
    requires |r| == |g| && forall x | 0 <= x < |g| :: r[x] == g[x].(refCount := r[x].refCount)
    ensures EdgesActive(r, {}) && EdgesPlaced(r, {}) && Sorted(r, l, {}, {}) && Observed(r, {})
    ensures EagerOk(r, {})
  {
  }

  lemma {:induction false} RecountMatched(g: Graph, r: Graph)
    requires Matched(g)
    requires |r| == |g| && forall x | 0 <= x < |g| :: r[x] == g[x].(refCount := r[x].refCount)
    ensures Matched(r)
  {
    forall x: Vid, u | 0 <= u < |r|
      ensures multiset(r[u].consumers)[x] == if x < |r| then multiset(EnabledTargets(r[x].args))[u] else 0
    {
      assert r[u] == g[u].(refCount := r[u].refCount);
      if x < |r| {
        assert r[x] == g[x].(refCount := r[x].refCount);
      }
    }
  }

  lemma {:induction false} RecountCounted(g: Graph, r: Graph, ext: seq<nat>, v: Vid, e: nat)
    requires Counted(g, ext) && v < |g| && g[v].live
    requires |r| == |g| && forall x | 0 <= x < |g| :: r[x] == g[x].(refCount := r[x].refCount)
    requires forall x | 0 <= x < |g| && x != v :: r[x] == g[x]
    requires r[v].refCount == InRefs(Structure(g), v) + e
    ensures g[v].refCount == ext[v] + InRefs(Structure(g), v)
    ensures Counted(r, ext[v := e])
  {
    assert Structure(r) == Structure(g) by {
      forall x | 0 <= x < |g|
        ensures Structure(r)[x] == Structure(g)[x]
      {
        assert r[x].args == g[x].args;
      }
    }
  }
}
