/**
 * The pump (`pump_`) as steps on the graph and the order: a round takes the
 * earliest marked position, unmarks it, and unless `update` fails marks the
 * consumers of a changed vertex and sets its `initialized` flag.  The lemmas say
 * that a round keeps the engine invariant, changes nothing but marks and that
 * flag, and moves the earliest mark strictly forward, so the pump ends.
 */
module Pumping {
  import opened Wrappers
  import opened TopologicalList
  import opened DependencyGraph

  /** `graph_[v].initialized = true`. */
  function InitializedG(g: Graph, v: Vid): (r: Graph)
    requires v < |g|
    ensures |r| == |g| && r[v].initialized
  {
    g[v := g[v].(initialized := true)]
  }

  /** The marks after visiting `v`: `v` is unmarked and, when its update reported a
      change, the positions of its consumers `cs` are marked. */
  function Visited(l: TopoList, v: Vid, cs: seq<Vid>, changed: bool): (r: TopoList)
    ensures r.items == l.items
    ensures forall m :: m in r.marked <==> (m in l.marked && m != v) || (changed && m in cs)
  {
    TopoList(l.items, l.marked - {v} + (if changed then set c | c in cs else {}))
  }

  /** `g` differs from `g0` at most in `initialized` flags, and only by setting them. */
  ghost predicate Initializes(g0: Graph, g: Graph) {
    |g0| == |g|
    && forall x | 0 <= x < |g| ::
         g[x] == g0[x].(initialized := g[x].initialized) && (g0[x].initialized ==> g[x].initialized)
  }

  lemma InitializesRefl(g: Graph)
    ensures Initializes(g, g)
  {
  }

  lemma InitializesTrans(g0: Graph, g1: Graph, g2: Graph)
    requires Initializes(g0, g1) && Initializes(g1, g2)
    ensures Initializes(g0, g2)
  {
    forall x | 0 <= x < |g2|
      ensures g2[x] == g0[x].(initialized := g2[x].initialized)
    {
      assert g1[x] == g0[x].(initialized := g1[x].initialized);
    }
  }

  /** Setting the flag of a positioned vertex keeps the invariant: it changes neither an
      edge nor a reference count. */
  lemma InitializeKeeps(g: Graph, l: TopoList, ext: seq<nat>, v: Vid)
    requires Inv(g, l, ext) && v < |g| && g[v].positioned
    ensures Inv(InitializedG(g, v), l, ext) && Initializes(g, InitializedG(g, v))
  {
    var r := InitializedG(g, v);
    assert Initializes(g, r);
    assert forall x | 0 <= x < |r| && r[x].initialized :: r[x].positioned by {
      assert Shape(g, l);
      forall x | 0 <= x < |r| && r[x].initialized
        ensures r[x].positioned
      {
        assert VertexOk(g, x);
      }
    }
    hide InitializedG;
    InitShape(g, r, l);
    InitEdges(g, r, l);
    assert SameEdges(g, r) by {
      forall x | 0 <= x < |g|
        ensures r[x] == g[x].(initialized := r[x].initialized)
      {
      }
    }
    SameEdgesMatched(g, r);
    SameEdgesCounted(g, r, ext);
  }

  lemma InitShape(g: Graph, r: Graph, l: TopoList)
    requires Shape(g, l) && Placement(g, l) && Closed(g, {}) && Initializes(g, r)
    requires forall x | 0 <= x < |r| && r[x].initialized :: r[x].positioned
    ensures Shape(r, l) && Placement(r, l) && Closed(r, {})
  {
    forall x | 0 <= x < |r|
      ensures VertexOk(r, x)
    {
      assert VertexOk(g, x);
      assert r[x] == g[x].(initialized := r[x].initialized);
      forall j | 0 <= j < |r[x].args|
        ensures ArgOk(r, x, r[x].args[j].target)
      {
        assert ArgOk(g, x, g[x].args[j].target);
        assert r[g[x].args[j].target] == g[g[x].args[j].target].(initialized := r[g[x].args[j].target].initialized);
      }
    }
  }

  lemma InitEdges(g: Graph, r: Graph, l: TopoList)
    requires EdgesActive(g, {}) && EdgesPlaced(g, {}) && Sorted(g, l, {}, {}) && Observed(g, {})
    requires EagerOk(g, {}) && Initializes(g, r)
    ensures EdgesActive(r, {}) && EdgesPlaced(r, {}) && Sorted(r, l, {}, {}) && Observed(r, {})
    ensures EagerOk(r, {})
  {
    assert forall x | 0 <= x < |r| :: r[x] == g[x].(initialized := r[x].initialized);
  }

  /** Changing only the marks, to marks of present positions, keeps the invariant. */
  lemma RemarkKeeps(g: Graph, l: TopoList, r: TopoList, ext: seq<nat>)
    requires Inv(g, l, ext) && r.items == l.items && forall m | m in r.marked :: m in l.items
    ensures Inv(g, r, ext)
  {
    assert forall a, b :: Precedes(r, a, b) == Precedes(l, a, b);
  }

  /** The consumers of an active vertex come after it in the order. */
  lemma ConsumersFollow(g: Graph, l: TopoList, v: Vid)
    requires Shape(g, l) && Placement(g, l) && Matched(g) && EdgesActive(g, {})
    requires Sorted(g, l, {}, {}) && v < |g| && IsActive(g[v])
    ensures forall c | c in g[v].consumers :: c < |g| && c in l.items && Precedes(l, v, c)
  {
    ConsumerFacts(g, l, v);
    forall c | c in g[v].consumers
      ensures c < |g| && c in l.items && Precedes(l, v, c)
    {
      var j := ConsumerEdge(g, v, c);
      assert Pos(g, v) == v;
    }
  }

  /** A round of the pump that does not fail keeps the invariant, only sets the visited
      vertex's flag, and moves the earliest mark forward. */
  lemma PumpRoundKeeps(g: Graph, l: TopoList, ext: seq<nat>, v: Vid, changed: bool)
    requires Inv(g, l, ext) && BeginMarked(l) == Some(v)
    ensures v < |g| && v in l.items && v in l.marked
    ensures Inv(InitializedG(g, v), Visited(l, v, g[v].consumers, changed), ext)
    ensures Initializes(g, InitializedG(g, v))
    ensures Pending(Visited(l, v, g[v].consumers, changed)) < Pending(l)
  {
    BeginMarkedIsEarliest(l);
    var r := Visited(l, v, g[v].consumers, changed);
    assert IsActive(g[v]);
    ConsumersFollow(g, l, v);
    forall m | m in r.marked
      ensures Precedes(l, v, m)
    {
    }
    PendingAfter(l, v, r);
    RemarkKeeps(g, l, r, ext);
    InitializeKeeps(g, r, ext, v);
  }

  /** A round whose update fails has only unmarked `v`, which keeps the invariant. */
  lemma PumpRoundFails(g: Graph, l: TopoList, ext: seq<nat>, v: Vid)
    requires Inv(g, l, ext) && BeginMarked(l) == Some(v)
    ensures v < |g| && Inv(g, Unmark(l, v), ext)
  {
    BeginMarkedIsEarliest(l);
    RemarkKeeps(g, l, Unmark(l, v), ext);
  }

  // ---------------------------------------------------------------------------
  // What a pump has seen.

  /** Every position in `seen` is still marked or its vertex has been updated, and every
      mark is in `seen`. */
  ghost predicate Updated(g: Graph, l: TopoList, seen: set<Vid>) {
    l.marked <= seen && forall x | x in seen :: x in l.marked || (x < |g| && g[x].initialized)
  }

  /** Every vertex in `changed` was seen, and so were its consumers. */
  ghost predicate Spread(g: Graph, seen: set<Vid>, changed: set<Vid>) {
    forall x | x in changed :: x < |g| && x in seen && forall c | c in g[x].consumers :: c in seen
  }

  /** A round at the marked `v` that does not fail keeps both: `v` is updated, and when its
      value changed its consumers, now marked, join `seen` and `v` joins `changed`. */
  lemma SeenRound(g: Graph, l: TopoList, v: Vid, changed: bool, seen: set<Vid>, ch: set<Vid>,
                  seen': set<Vid>, ch': set<Vid>)
    requires Updated(g, l, seen) && Spread(g, seen, ch) && v in l.marked && v < |g|
    requires seen' == if changed then seen + (set c | c in g[v].consumers) else seen
    requires ch' == if changed then ch + {v} else ch
    ensures Updated(InitializedG(g, v), Visited(l, v, g[v].consumers, changed), seen')
    ensures Spread(InitializedG(g, v), seen', ch')
  {
    var r := InitializedG(g, v);
    assert forall x | 0 <= x < |g| :: r[x].consumers == g[x].consumers;
  }
}
