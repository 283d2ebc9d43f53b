/**
 * The engine's dependency graph as a value: the vertex records, their out-edges
 * and consumer lists, and the invariants that tie them to the topological order.
 *
 * Vertices live in an arena `g: Graph` indexed by their descriptor; the arena only
 * grows, and a deleted vertex is left behind as a `Dead` record.  A vertex's
 * out-edges are its structural (argument) edges `args`, in creation order, followed
 * by at most one logical edge to its activator (`activator`).  Structural edges
 * always point from a newer vertex to an older one, so the graph of structural
 * edges has no cycle and every vertex has a finite `Weight`.
 */
module DependencyGraph {
  import opened Wrappers
  import opened TopologicalList

  /** A structural out-edge: its target, and whether it is an enabled data dependency
      (the edge's consumer ticket is set in the source). */
  datatype Edge = Edge(target: Vid, enabled: bool)

  datatype Vertex = Vertex(
    refCount: nat,           // `ref_count()`
    positioned: bool,        // `position != topological_position()`
    consumers: seq<Vid>,     // sources of the enabled edges into this vertex
    args: seq<Edge>,         // structural out-edges, in argument order
    activator: Option<Vid>,  // target of the logical (last) out-edge, if there is one
    eager: bool,
    conditional: bool,
    constant: bool,
    hidden: bool,
    initialized: bool,
    live: bool)              // false once `delete_node` has run

  type Graph = seq<Vertex>

  /** The record a deleted vertex leaves behind. */
  const Dead := Vertex(0, false, [], [], None, false, false, false, false, false, false)

  /** A freshly added vertex: inert, uninitialized, with the given structural edges. */
  function Fresh(args: seq<Edge>): Vertex {
    Vertex(0, false, [], args, None, false, false, false, false, false, true)
  }

  /** One disabled edge per argument, in argument order. */
  function Inert(ts: seq<Vid>): (r: seq<Edge>)
    ensures |r| == |ts|
  {
    if ts == [] then [] else Inert(ts[..|ts| - 1]) + [Edge(ts[|ts| - 1], false)]
  }

  /** The hidden main activator created by `start`. */
  const Root := Vertex(0, true, [], [], None, false, false, false, true, false, true)

  /** `is_active_node`: the vertex has a position of its own in the order.  A constant's
      position is the order's first slot, which belongs to the root. */
  predicate IsActive(n: Vertex) {
    n.positioned && !n.constant
  }

  /** The vertex whose slot is `g[t].position`. */
  function Pos(g: Graph, t: Vid): Vid
    requires t < |g|
  {
    if g[t].constant then 0 else t
  }

  function Targets(args: seq<Edge>): (ts: seq<Vid>)
    ensures |ts| == |args|
    ensures forall j | 0 <= j < |args| :: ts[j] == args[j].target
  {
    seq(|args|, j requires 0 <= j < |args| => args[j].target)
  }

  /** The targets of the enabled edges, in out-edge order: what `pump_` passes to `update`. */
  function EnabledTargets(args: seq<Edge>): seq<Vid> {
    if args == [] then []
    else EnabledTargets(args[..|args| - 1])
         + (if args[|args| - 1].enabled then [args[|args| - 1].target] else [])
  }

  /** The structural edges of every vertex, as target lists. */
  function Structure(g: Graph): (S: seq<seq<Vid>>)
    ensures |S| == |g|
    ensures forall x | 0 <= x < |g| :: S[x] == Targets(g[x].args)
  {
    seq(|g|, x requires 0 <= x < |g| => Targets(g[x].args))
  }

  /** `implied_activator_(u, v)`: for a conditional `u` reached through an edge to
      something other than its first (selecting) argument, that argument; otherwise
      `u`'s own activator. */
  function ImpliedActivator(g: Graph, u: Vid, v: Vid): (b: Vid)
    requires u < |g| && g[u].activator.Some?
    ensures g[u].conditional && g[u].args != [] && v != g[u].args[0].target ==> b == g[u].args[0].target
    ensures !(g[u].conditional && g[u].args != [] && v != g[u].args[0].target) ==> b == g[u].activator.value
  {
    if g[u].conditional && g[u].args != [] && v != g[u].args[0].target then g[u].args[0].target
    else g[u].activator.value
  }

  // ---------------------------------------------------------------------------
  // Termination weights and in-degrees of the structural graph.

  /** Every structural edge points to an older vertex. */
  predicate Descending(S: seq<seq<Vid>>) {
    forall x, j | 0 <= x < |S| && 0 <= j < |S[x]| :: S[x][j] < x
  }

  /** The number of paths leaving `v` (counting the empty one): an upper bound on how
      often a worklist can meet `v` and its dependencies. */
  function Weight(S: seq<seq<Vid>>, v: Vid): (w: nat)
    requires Descending(S) && v < |S|
    ensures w >= 1
    decreases v, 1
  {
    1 + SumWeights(S, S[v], v)
  }

  function SumWeights(S: seq<seq<Vid>>, ts: seq<Vid>, bound: Vid): nat
    requires Descending(S) && bound <= |S|
    requires forall k | 0 <= k < |ts| :: ts[k] < bound
    decreases bound, 0, |ts|
  {
    if ts == [] then 0 else SumWeights(S, ts[..|ts| - 1], bound) + Weight(S, ts[|ts| - 1])
  }

  /** The weights of a prefix of `ts` and of the element after it. */
  lemma SumWeightsPrefix(S: seq<seq<Vid>>, ts: seq<Vid>, bound: Vid, j: nat)
    requires Descending(S) && bound <= |S| && j < |ts|
    requires forall k | 0 <= k < |ts| :: ts[k] < bound
    ensures SumWeights(S, ts[..j + 1], bound) == SumWeights(S, ts[..j], bound) + Weight(S, ts[j])
  {
    assert ts[..j + 1][..j] == ts[..j];
  }

  /** The number of structural edges from `S[..n]` into `x`. */
  function InRefsUpTo(S: seq<seq<Vid>>, n: nat, x: Vid): nat
    requires n <= |S|
  {
    if n == 0 then 0 else InRefsUpTo(S, n - 1, x) + multiset(S[n - 1])[x]
  }

  function InRefs(S: seq<seq<Vid>>, x: Vid): nat {
    InRefsUpTo(S, |S|, x)
  }

  /** The structural edges into `x` whose sources are not in `R` (have not been released). */
  function InRefsExceptUpTo(S: seq<seq<Vid>>, R: set<Vid>, n: nat, x: Vid): nat
    requires n <= |S|
  {
    if n == 0 then 0
    else InRefsExceptUpTo(S, R, n - 1, x) + (if n - 1 in R then 0 else multiset(S[n - 1])[x])
  }

  function InRefsExcept(S: seq<seq<Vid>>, R: set<Vid>, x: Vid): nat {
    InRefsExceptUpTo(S, R, |S|, x)
  }

  // ---------------------------------------------------------------------------
  // The invariant, piece by piece.  Each piece that a worklist breaks on the way
  // takes the set of pairs or vertices it is allowed to be broken for.

  /** The root is vertex 0: live, active, without edges, consumed by nobody, and it
      holds the order's first position. */
  ghost predicate RootOk(g: Graph, l: TopoList) {
    |g| > 0 && g[0].live && g[0].positioned && !g[0].constant && !g[0].eager
    && !g[0].conditional && g[0].hidden && g[0].args == [] && g[0].activator.None?
    && g[0].consumers == [] && l.items != [] && l.items[0] == 0
  }

  /** The edge `(x, t)` is well formed: it points to an older, non-root, non-eager vertex. */
  ghost predicate ArgOk(g: Graph, x: Vid, t: Vid)
    requires x < |g|
  {
    0 < t < x && !g[t].eager
  }

  /** The per-vertex shape facts, which the engine's operations keep at every step. */
  ghost predicate VertexOk(g: Graph, x: Vid)
    requires x < |g|
  {
    var n := g[x];
    (!n.live ==> n == Dead)
    && (n.constant ==> n.args == [] && n.positioned && n.activator.None? && !n.eager && !n.conditional)
    && (x != 0 ==> (n.activator.Some? <==> IsActive(n)))
    && (n.activator.Some? ==> n.activator.value < |g|)
    && (!n.positioned ==> !n.initialized)
    && (n.conditional ==> |n.args| >= 1)
    && (n.eager ==> |n.args| == 1)
    && (forall j | 0 <= j < |n.args| :: ArgOk(g, x, n.args[j].target))
  }

  ghost predicate Shape(g: Graph, l: TopoList) {
    RootOk(g, l) && Wf(l) && forall x | 0 <= x < |g| :: VertexOk(g, x)
  }

  /** The order holds exactly the active vertices. */
  ghost predicate Placement(g: Graph, l: TopoList) {
    (forall y | y in l.items :: y < |g|)
    && (forall x | 0 <= x < |g| :: x in l.items <==> IsActive(g[x]))
  }

  /** Live vertices point only to live vertices (except those in `R`, which are being torn down). */
  ghost predicate Closed(g: Graph, R: set<Vid>) {
    forall x, j | 0 <= x < |g| && 0 <= j < |g[x].args| && g[x].live && x !in R ::
      g[x].args[j].target < |g| && g[g[x].args[j].target].live
  }

  /** Each consumer list holds the sources of the enabled edges into its vertex, with
      multiplicity. */
  ghost predicate Matched(g: Graph) {
    forall x: Vid, w {:trigger multiset(g[w].consumers)[x]} | 0 <= w < |g| ::
      multiset(g[w].consumers)[x] == if x < |g| then multiset(EnabledTargets(g[x].args))[w] else 0
  }

  /** Enabled edges leave active vertices (those in `T` are being deactivated). */
  ghost predicate EdgesActive(g: Graph, T: set<Vid>) {
    forall x, j | 0 <= x < |g| && 0 <= j < |g[x].args| && g[x].args[j].enabled && x !in T ::
      IsActive(g[x])
  }

  /** Enabled edges reach positioned vertices (the pairs in `U` are waiting for activation). */
  ghost predicate EdgesPlaced(g: Graph, U: set<(Vid, Vid)>) {
    forall x, j | 0 <= x < |g| && 0 <= j < |g[x].args| && g[x].args[j].enabled ::
      var t := g[x].args[j].target;
      t < |g| && (g[t].positioned || (x, t) in U)
  }

  /** The order is topological: the slot of a dependency precedes every consumer
      (the pairs in `P` are waiting to be repaired, the sources in `T` are being
      deactivated). */
  ghost predicate Sorted(g: Graph, l: TopoList, P: set<(Vid, Vid)>, T: set<Vid>) {
    forall x, j | 0 <= x < |g| && 0 <= j < |g[x].args| && g[x].args[j].enabled && x !in T ::
      var t := g[x].args[j].target;
      t < |g| && ((x, t) in P || Precedes(l, Pos(g, t), x))
  }

  /** Every active vertex other than the root and the eager ones has a consumer (those
      in `O` are waiting for the deactivation worklist). */
  ghost predicate Observed(g: Graph, O: set<Vid>) {
    forall x | 0 < x < |g| && IsActive(g[x]) && !g[x].eager && x !in O :: g[x].consumers != []
  }

  /** A live eager vertex is active, activated by the root, and its data edge is enabled
      (for those in `E` the data edge may still be disabled). */
  ghost predicate EagerOk(g: Graph, E: set<Vid>) {
    forall x | 0 <= x < |g| && g[x].live && g[x].eager ::
      IsActive(g[x]) && g[x].activator == Some(0) && (x !in E ==> g[x].args != [] && g[x].args[0].enabled)
  }

  /** Reference counts: a live vertex is held by `ext[x]` handles and by each structural
      edge into it; a dead one by nothing. */
  ghost predicate Counted(g: Graph, ext: seq<nat>) {
    |ext| == |g|
    && forall x | 0 <= x < |g| ::
         (g[x].live ==> g[x].refCount == ext[x] + InRefs(Structure(g), x))
         && (!g[x].live ==> ext[x] == 0)
  }

  /** The engine's invariant between public operations. */
  ghost predicate Inv(g: Graph, l: TopoList, ext: seq<nat>) {
    Shape(g, l) && Placement(g, l) && Closed(g, {}) && Matched(g) && EdgesActive(g, {})
    && EdgesPlaced(g, {}) && Sorted(g, l, {}, {}) && Observed(g, {}) && EagerOk(g, {})
    && Counted(g, ext)
  }

  /** The invariant, except that the eager `u` may have its data edge disabled: what
      `add_active_node` hands to `enable_edge`, and what `disable_edge` leaves behind
      when `remove_subgraph_` calls it for an eager vertex.  Proof note: the body is a
      single comparison, so a use of the predicate does not bring in each conjunct. */
  ghost predicate InvExcept(g: Graph, l: TopoList, ext: seq<nat>, u: Vid) {
    (Shape(g, l) && Placement(g, l) && Closed(g, {}) && Matched(g) && EdgesActive(g, {})
     && EdgesPlaced(g, {}) && Sorted(g, l, {}, {}) && Observed(g, {}) && EagerOk(g, {u})
     && Counted(g, ext)) == true
  }

  // ---------------------------------------------------------------------------
  // The static part of a vertex, which activation, deactivation and the pump
  // never change.

  function Disabled(args: seq<Edge>): (r: seq<Edge>)
    ensures |r| == |args|
    ensures forall j | 0 <= j < |args| :: r[j] == Edge(args[j].target, false)
  {
    seq(|args|, j requires 0 <= j < |args| => Edge(args[j].target, false))
  }

  /** A vertex with its dynamic state (position, consumers, enabled flags, activator,
      initialized flag) cleared. */
  function Skel(n: Vertex): Vertex {
    n.(positioned := false, consumers := [], args := Disabled(n.args), activator := None, initialized := false)
  }

  /** Same vertices with the same reference counts, flags and structural edges. */
  ghost predicate SameSkeleton(g0: Graph, g: Graph) {
    |g0| == |g| && forall x | 0 <= x < |g| :: Skel(g0[x]) == Skel(g[x])
  }

  lemma TargetsOfSkel(a: seq<Edge>, b: seq<Edge>)
    requires Disabled(a) == Disabled(b)
    ensures Targets(a) == Targets(b)
  {
    assert |a| == |Disabled(a)|;
    forall j | 0 <= j < |a|
      ensures Targets(a)[j] == Targets(b)[j]
    {
      assert Disabled(a)[j] == Disabled(b)[j];
    }
  }

  lemma SkeletonStructure(g0: Graph, g: Graph)
    requires SameSkeleton(g0, g)
    ensures Structure(g0) == Structure(g)
  {
    forall x | 0 <= x < |g|
      ensures Structure(g0)[x] == Structure(g)[x]
    {
      assert Skel(g0[x]) == Skel(g[x]);
      TargetsOfSkel(g0[x].args, g[x].args);
    }
  }

  /** Reference counts depend on the static part only. */
  lemma SkeletonCounted(g0: Graph, g: Graph, ext: seq<nat>)
    requires SameSkeleton(g0, g) && Counted(g0, ext)
    ensures Counted(g, ext)
  {
    SkeletonStructure(g0, g);
    forall x | 0 <= x < |g|
      ensures g[x].live == g0[x].live && g[x].refCount == g0[x].refCount
    {
      assert Skel(g0[x]) == Skel(g[x]);
    }
  }

  lemma SameSkeletonTrans(g0: Graph, g1: Graph, g2: Graph)
    requires SameSkeleton(g0, g1) && SameSkeleton(g1, g2)
    ensures SameSkeleton(g0, g2)
  {
    forall x | 0 <= x < |g2|
      ensures Skel(g0[x]) == Skel(g2[x])
    {
      assert Skel(g0[x]) == Skel(g1[x]);
    }
  }

  /** Turning an edge on or off leaves the static part of the edge list alone. */
  lemma DisabledFlip(args: seq<Edge>, j: nat, b: bool)
    requires j < |args|
    ensures Disabled(args[j := Edge(args[j].target, b)]) == Disabled(args)
  {
  }

  /** Liveness and the structural edges depend on the static part only. */
  lemma SkeletonClosed(g0: Graph, g: Graph)
    requires SameSkeleton(g0, g) && Closed(g0, {})
    ensures Closed(g, {})
  {
    forall x, j | 0 <= x < |g| && 0 <= j < |g[x].args| && g[x].live
      ensures g[x].args[j].target < |g| && g[g[x].args[j].target].live
    {
      assert Skel(g0[x]) == Skel(g[x]);
      assert Disabled(g0[x].args)[j] == Disabled(g[x].args)[j];
      var t := g[x].args[j].target;
      assert Skel(g0[t]) == Skel(g[t]);
    }
  }

  /** The structural edges of a well-shaped graph descend. */
  lemma ShapeDescending(g: Graph, l: TopoList)
    requires Shape(g, l)
    ensures Descending(Structure(g))
  {
    forall x, j | 0 <= x < |g| && 0 <= j < |Structure(g)[x]|
      ensures Structure(g)[x][j] < x
    {
      assert VertexOk(g, x);
      assert ArgOk(g, x, g[x].args[j].target);
    }
  }

  // ---------------------------------------------------------------------------
  // Enabled targets and consumer lists.

  lemma EnabledTargetsPrefix(args: seq<Edge>, j: nat)
    requires j < |args|
    ensures EnabledTargets(args[..j + 1])
            == EnabledTargets(args[..j]) + (if args[j].enabled then [args[j].target] else [])
  {
    assert args[..j + 1][..j] == args[..j];
  }

  lemma EnabledTargetsEmpty(args: seq<Edge>)
    requires forall j | 0 <= j < |args| :: !args[j].enabled
    ensures EnabledTargets(args) == []
  {
    if args != [] {
      EnabledTargetsEmpty(args[..|args| - 1]);
    }
  }

  /** A target of an enabled edge is among the enabled targets. */
  lemma {:induction false} EnabledTargetsHas(args: seq<Edge>, j: nat)
    requires j < |args| && args[j].enabled
    ensures args[j].target in EnabledTargets(args)
  {
    var p := args[..|args| - 1];
    if j < |args| - 1 {
      assert p[j] == args[j];
      EnabledTargetsHas(p, j);
    }
  }

  /** Every enabled target is the target of some enabled edge. */
  lemma {:induction false} EnabledTargetsSource(args: seq<Edge>, t: Vid) returns (j: nat)
    requires t in EnabledTargets(args)
    ensures j < |args| && args[j].enabled && args[j].target == t
  {
    var p := args[..|args| - 1];
    if t in EnabledTargets(p) {
      j := EnabledTargetsSource(p, t);
      assert p[j] == args[j];
    } else {
      j := |args| - 1;
    }
  }

  /** Enabling edge `i` adds exactly its target. */
  lemma {:induction false} EnabledTargetsEnable(args: seq<Edge>, i: nat)
    requires i < |args| && !args[i].enabled
    ensures multiset(EnabledTargets(args[i := Edge(args[i].target, true)]))
            == multiset(EnabledTargets(args)) + multiset{args[i].target}
  {
    var t := args[i].target;
    var a := args[i := Edge(t, true)];
    var n := |args| - 1;
    var p, pa := args[..n], a[..n];
    if i < n {
      assert pa == p[i := Edge(p[i].target, true)];
      EnabledTargetsEnable(p, i);
      assert a[n] == args[n];
      assert EnabledTargets(args) == EnabledTargets(p) + (if args[n].enabled then [args[n].target] else []);
      assert EnabledTargets(a) == EnabledTargets(pa) + (if args[n].enabled then [args[n].target] else []);
    } else {
      assert pa == p;
      assert EnabledTargets(args) == EnabledTargets(p);
      assert EnabledTargets(a) == EnabledTargets(p) + [t];
    }
  }

  /** Disabling edge `i` removes exactly its target. */
  lemma EnabledTargetsDisable(args: seq<Edge>, i: nat)
    requires i < |args| && args[i].enabled
    ensures multiset(EnabledTargets(args[i := Edge(args[i].target, false)]))
            == multiset(EnabledTargets(args)) - multiset{args[i].target}
  {
    var a := args[i := Edge(args[i].target, false)];
    assert a[i := Edge(a[i].target, true)] == args;
    EnabledTargetsEnable(a, i);
  }

  /** Enabled targets are among the targets. */
  lemma {:induction false} EnabledTargetsBounded(args: seq<Edge>, b: nat)
    requires forall j | 0 <= j < |args| :: args[j].target < b
    ensures forall t | t in EnabledTargets(args) :: t < b
  {
    if args != [] {
      EnabledTargetsBounded(args[..|args| - 1], b);
    }
  }

  /** `consumers.erase(ticket)`: one occurrence of `x` disappears. */
  function RemoveOne(s: seq<Vid>, x: Vid): (r: seq<Vid>)
    ensures x in s ==> multiset(r) == multiset(s) - multiset{x}
    ensures x !in s ==> r == s
  {
    if s == [] then []
    else if s[0] == x then (assert s == [s[0]] + s[1..]; s[1..])
    else (assert s == [s[0]] + s[1..]; [s[0]] + RemoveOne(s[1..], x))
  }

  /** A consumer of `w` has an enabled edge into `w`. */
  lemma ConsumerEdge(g: Graph, w: Vid, c: Vid) returns (j: nat)
    requires Matched(g) && w < |g| && c in g[w].consumers
    ensures c < |g| && j < |g[c].args| && g[c].args[j].enabled && g[c].args[j].target == w
  {
    assert multiset(g[w].consumers)[c] > 0;
    j := EnabledTargetsSource(g[c].args, w);
  }

  /** What the consumers of a vertex are: active vertices after it, with an activator. */
  lemma ConsumerFacts(g: Graph, l: TopoList, w: Vid)
    requires Shape(g, l) && Placement(g, l) && Matched(g) && EdgesActive(g, {}) && w < |g|
    ensures forall k | 0 <= k < |g[w].consumers| ::
              var c := g[w].consumers[k];
              w < c < |g| && c in l.items && IsActive(g[c]) && g[c].activator.Some?
              && g[c].activator.value < |g|
  {
    forall k | 0 <= k < |g[w].consumers|
      ensures var c := g[w].consumers[k];
              w < c < |g| && c in l.items && IsActive(g[c]) && g[c].activator.Some?
              && g[c].activator.value < |g|
    {
      var c := g[w].consumers[k];
      var j := ConsumerEdge(g, w, c);
      assert VertexOk(g, c);
      assert ArgOk(g, c, w);
    }
  }

  /** The source of an enabled edge into `w` is a consumer of `w`. */
  lemma EdgeConsumer(g: Graph, c: Vid, j: nat)
    requires Matched(g) && c < |g| && j < |g[c].args| && g[c].args[j].enabled && g[c].args[j].target < |g|
    ensures c in g[g[c].args[j].target].consumers
  {
    var w := g[c].args[j].target;
    EnabledTargetsHas(g[c].args, j);
    assert multiset(EnabledTargets(g[c].args))[w] > 0;
    assert multiset(g[w].consumers)[c] > 0;
  }

  /** A vertex without consumers has no enabled edge into it. */
  lemma NoConsumers(g: Graph, w: Vid)
    requires Matched(g) && w < |g| && g[w].consumers == []
    ensures forall c, j | 0 <= c < |g| && 0 <= j < |g[c].args| && g[c].args[j].enabled ::
              g[c].args[j].target != w
  {
    forall c, j | 0 <= c < |g| && 0 <= j < |g[c].args| && g[c].args[j].enabled && g[c].args[j].target == w
      ensures false
    {
      EdgeConsumer(g, c, j);
    }
  }

  // ---------------------------------------------------------------------------
  // In-degrees.

  lemma {:induction false} InRefsUpToPrefix(S: seq<seq<Vid>>, T: seq<seq<Vid>>, n: nat, x: Vid)
    requires n <= |S| && n <= |T| && S[..n] == T[..n]
    ensures InRefsUpTo(S, n, x) == InRefsUpTo(T, n, x)
  {
    if n > 0 {
      assert S[n - 1] == S[..n][n - 1] == T[..n][n - 1] == T[n - 1];
      assert S[..n - 1] == S[..n][..n - 1];
      assert T[..n - 1] == T[..n][..n - 1];
      InRefsUpToPrefix(S, T, n - 1, x);
    }
  }

  /** A new vertex adds its own edges to every in-degree. */
  lemma InRefsAppend(S: seq<seq<Vid>>, ts: seq<Vid>, x: Vid)
    ensures InRefs(S + [ts], x) == InRefs(S, x) + multiset(ts)[x]
  {
    assert (S + [ts])[..|S|] == S[..|S|];
    InRefsUpToPrefix(S + [ts], S, |S|, x);
  }

  /** Replacing the edges of one vertex changes each in-degree by the difference. */
  lemma {:induction false} InRefsUpToUpdate(S: seq<seq<Vid>>, y: nat, ts: seq<Vid>, n: nat, x: Vid)
    requires y < |S| && n <= |S|
    ensures InRefsUpTo(S[y := ts], n, x) + (if y < n then multiset(S[y])[x] else 0)
            == InRefsUpTo(S, n, x) + (if y < n then multiset(ts)[x] else 0)
  {
    if n > 0 {
      InRefsUpToUpdate(S, y, ts, n - 1, x);
    }
  }

  lemma InRefsUpdate(S: seq<seq<Vid>>, y: nat, ts: seq<Vid>, x: Vid)
    requires y < |S|
    ensures InRefs(S[y := ts], x) + multiset(S[y])[x] == InRefs(S, x) + multiset(ts)[x]
  {
    InRefsUpToUpdate(S, y, ts, |S|, x);
  }

  /** Every edge into `x` counts. */
  lemma {:induction false} InRefsUpToAtLeast(S: seq<seq<Vid>>, u: nat, n: nat, x: Vid)
    requires u < n <= |S|
    ensures InRefsUpTo(S, n, x) >= multiset(S[u])[x]
  {
    if u < n - 1 {
      InRefsUpToAtLeast(S, u, n - 1, x);
    }
  }

  lemma InRefsAtLeast(S: seq<seq<Vid>>, u: nat, x: Vid)
    requires u < |S|
    ensures InRefs(S, x) >= multiset(S[u])[x]
  {
    InRefsUpToAtLeast(S, u, |S|, x);
  }

  /** No edge into `x`, no reference from the graph. */
  lemma {:induction false} InRefsUpToNone(S: seq<seq<Vid>>, n: nat, x: Vid)
    requires n <= |S| && forall u | 0 <= u < n :: x !in S[u]
    ensures InRefsUpTo(S, n, x) == 0
  {
    if n > 0 {
      assert x !in S[n - 1];
      InRefsUpToNone(S, n - 1, x);
    }
  }

  /** `r` has the same vertices, edges, consumers and counts as `g`; only positions and
      flags may differ. */
  ghost predicate SameEdges(g: Graph, r: Graph) {
    |g| == |r|
    && forall x | 0 <= x < |g| ::
         r[x].args == g[x].args && r[x].consumers == g[x].consumers
         && r[x].refCount == g[x].refCount && r[x].live == g[x].live
  }

  lemma SameEdgesMatched(g: Graph, r: Graph)
    requires Matched(g) && SameEdges(g, r)
    ensures Matched(r)
  {
    forall x: Vid, w | 0 <= w < |r|
      ensures multiset(r[w].consumers)[x] == if x < |r| then multiset(EnabledTargets(r[x].args))[w] else 0
    {
      assert multiset(g[w].consumers)[x] == if x < |g| then multiset(EnabledTargets(g[x].args))[w] else 0;
    }
  }

  lemma SameEdgesCounted(g: Graph, r: Graph, ext: seq<nat>)
    requires Counted(g, ext) && SameEdges(g, r)
    ensures Counted(r, ext)
  {
    assert Structure(r) == Structure(g) by {
      forall x | 0 <= x < |g|
        ensures Structure(r)[x] == Structure(g)[x]
      {
        assert r[x].args == g[x].args;
      }
    }
  }

  /** A live eager vertex is active, has exactly its data edge, enabled, and is activated
      by the vertex at the order's front. */
  lemma EagerActive(g: Graph, l: TopoList, ext: seq<nat>, v: Vid)
    requires Inv(g, l, ext) && v < |g| && g[v].live && g[v].eager
    ensures IsActive(g[v]) && g[v].activator == Some(l.items[0])
    ensures |g[v].args| == 1 && g[v].args[0].enabled
  {
    assert VertexOk(g, v);
  }
}
