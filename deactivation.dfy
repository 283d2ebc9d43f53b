/**
 * The steps of `disable_edge` (engine.cpp): disabling a data edge, deactivating a
 * vertex whose last consumer went away, and moving a vertex that is still consumed
 * but lost the consumer its activator came from to just before its earliest
 * remaining consumer.
 *
 * The worklist is a stack of vertices.  While it runs, a vertex on the stack may be
 * active without having a consumer, and the vertex being deactivated may still have
 * enabled edges; `Deactivating` is the invariant with these exemptions.
 */
module Deactivation {
  import opened Wrappers
  import opened TopologicalList
  import opened DependencyGraph
  import opened Activation
  import Enabling

  /** The state `disable_edge`'s worklist works on: the graph, the order and the stack. */
  datatype DRun = DRun(g: Graph, l: TopoList, st: seq<Vid>)

  ghost function Members(st: seq<Vid>): set<Vid> {
    set k | 0 <= k < |st| :: st[k]
  }

  /** The stack holds targets of edges only: neither the root nor an eager vertex. */
  ghost predicate Listed(g: Graph, st: seq<Vid>) {
    forall k | 0 <= k < |st| :: 0 < st[k] < |g| && !g[st[k]].eager
  }

  /** The invariant while `disable_edge` runs, started from `g0`, with stack `st`, the
      vertices `T` being deactivated and the eager vertices `E` whose data edge may be
      disabled.  Proof note: as for `Activating`, the body is a single comparison. */
  ghost predicate Deactivating(g0: Graph, g: Graph, l: TopoList, st: seq<Vid>, T: set<Vid>, E: set<Vid>) {
    (SameSkeleton(g0, g) && Shape(g, l) && Placement(g, l) && Closed(g, {}) && Matched(g)
     && EdgesActive(g, T) && EdgesPlaced(g, {}) && Sorted(g, l, {}, T) && Observed(g, Members(st))
     && EagerOk(g, E) && Listed(g, st)) == true
  }

  /** Nothing `disable_edge` does activates a vertex or enables an edge. */
  ghost predicate Shrinks(g1: Graph, g2: Graph) {
    |g1| == |g2|
    && forall x | 0 <= x < |g1| ::
         (IsActive(g2[x]) ==> IsActive(g1[x])) && |g1[x].args| == |g2[x].args|
         && forall i | 0 <= i < |g1[x].args| :: g2[x].args[i].enabled ==> g1[x].args[i].enabled
  }

  // ---------------------------------------------------------------------------
  // The steps, as functions of the state.

  /** `disable_edge_` for the `j`-th edge of `x`: the edge is disabled and one occurrence
      of `x` leaves its target's consumers. */
  function DisableArgG(g: Graph, x: Vid, j: nat): (r: Graph)
    requires x < |g| && j < |g[x].args| && g[x].args[j].target < |g|
    ensures |r| == |g|
  {
    var t := g[x].args[j].target;
    var g1 := g[x := g[x].(args := g[x].args[j := Edge(t, false)])];
    g1[t := g1[t].(consumers := RemoveOne(g1[t].consumers, x))]
  }

  /** `deactivate_vertex_(w)`, the vertex part: no position, no logical edge, and not
      initialized any more. */
  function DeactivatedG(g: Graph, w: Vid): Graph
    requires w < |g|
  {
    g[w := g[w].(positioned := false, activator := None, initialized := false)]
  }

  /** `disable_edge_` for each enabled one of the first `n` edges of `w`, in order (an edge
      whose target is not a vertex, which the shape invariant excludes, is skipped). */
  function DisableArgsG(g: Graph, w: Vid, n: nat): (r: Graph)
    requires w < |g| && n <= |g[w].args|
    ensures |r| == |g| && |r[w].args| == |g[w].args|
  {
    if n == 0 then g
    else
      var g1 := DisableArgsG(g, w, n - 1);
      if g1[w].args[n - 1].enabled && g1[w].args[n - 1].target < |g1| then DisableArgG(g1, w, n - 1) else g1
  }

  /** The negation of the `std::none_of` test as the source writes it: some consumer of
      `w` has the activator `w` has. */
  predicate SharesActivator(g: Graph, w: Vid)
    requires w < |g|
  {
    exists k | 0 <= k < |g[w].consumers| ::
      g[w].consumers[k] < |g| && g[g[w].consumers[k]].activator == g[w].activator
  }

  /** Some consumer of `w` implies the activator `w` has: the negation of the `std::none_of`
      test with each consumer's implied activator for `w` in place of its own activator. */
  predicate Anchored(g: Graph, w: Vid)
    requires w < |g|
  {
    exists k | 0 <= k < |g[w].consumers| ::
      g[w].consumers[k] < |g| && g[g[w].consumers[k]].activator.Some?
      && g[w].activator == Some(ImpliedActivator(g, g[w].consumers[k], w))
  }

  /** Every consumer of `w` is a vertex with an activator. */
  predicate ConsumersActivated(g: Graph, w: Vid)
    requires w < |g|
  {
    forall k | 0 <= k < |g[w].consumers| ::
      g[w].consumers[k] < |g| && g[g[w].consumers[k]].activator.Some?
  }

  /** The activator `reset_activator_` gives a re-anchored `w` as the source writes it: the
      earliest consumer's own activator. */
  function TakenActivator(g: Graph, l: TopoList, w: Vid): Vid
    requires w < |g| && g[w].consumers != [] && ConsumersActivated(g, w)
  {
    g[Earliest(l, g[w].consumers)].activator.value
  }

  /** The activator the earliest consumer implies for `w`: what the model gives a
      re-anchored `w`. */
  function ImpliedByEarliest(g: Graph, l: TopoList, w: Vid): Vid
    requires w < |g| && g[w].consumers != [] && ConsumersActivated(g, w)
  {
    ImpliedActivator(g, Earliest(l, g[w].consumers), w)
  }

  /** Which re-anchoring rule a round of `disable_edge` follows: the test and the reset as
      the source writes them, with each consumer's own activator, or corrected, with the
      activator each consumer implies for the vertex. */
  datatype Reanchoring = AsWritten | Corrected

  /** The test under which an active `w` with consumers keeps its activator and place. */
  predicate KeepsAnchor(rule: Reanchoring, g: Graph, w: Vid)
    requires w < |g|
  {
    if rule == AsWritten then SharesActivator(g, w) else Anchored(g, w)
  }

  /** The activator a re-anchored `w` takes. */
  function NewAnchor(rule: Reanchoring, g: Graph, l: TopoList, w: Vid): Vid
    requires w < |g| && g[w].consumers != [] && ConsumersActivated(g, w)
  {
    if rule == AsWritten then TakenActivator(g, l, w) else ImpliedByEarliest(g, l, w)
  }

  /** `std::min_element` of the consumers by their order: the first one that no later one
      precedes. */
  function Earliest(l: TopoList, cs: seq<Vid>): (c: Vid)
    requires cs != []
    ensures c in cs
  {
    if |cs| == 1 then cs[0]
    else
      var m := Earliest(l, cs[..|cs| - 1]);
      if Precedes(l, cs[|cs| - 1], m) then cs[|cs| - 1] else m
  }

  /** The earliest consumer comes before every other one. */
  lemma {:induction false} EarliestIsFirst(l: TopoList, cs: seq<Vid>)
    requires Wf(l) && cs != [] && forall k | 0 <= k < |cs| :: cs[k] in l.items
    ensures forall k | 0 <= k < |cs| :: cs[k] == Earliest(l, cs) || Precedes(l, Earliest(l, cs), cs[k])
  {
    if |cs| > 1 {
      var p := cs[..|cs| - 1];
      var m := Earliest(l, p);
      var z := cs[|cs| - 1];
      EarliestIsFirst(l, p);
      assert forall k | 0 <= k < |p| :: p[k] == cs[k];
      if Precedes(l, z, m) {
        forall k | 0 <= k < |cs|
          ensures cs[k] == z || Precedes(l, z, cs[k])
        {
          if k < |p| && cs[k] != m {
            PrecedesTrans(l, z, m, cs[k]);
          }
        }
      } else if z != m {
        PrecedesTotal(l, z, m);
      }
    }
  }

  /** Pop the top vertex `w`.  A constant or inert `w` is dropped.  An active `w` without
      consumers is deactivated and its enabled edges are disabled and their targets
      pushed.  An active `w` that fails the `rule`'s test moves before its earliest
      consumer, takes the activator the `rule` gives it and pushes the targets of its
      enabled edges.  Otherwise `w` is dropped. */
  ghost function DisableStep(g: Graph, l: TopoList, st: seq<Vid>, rule: Reanchoring): DRun
    requires st != [] && Shape(g, l) && Placement(g, l) && Matched(g) && EdgesActive(g, {})
    requires st[|st| - 1] < |g|
  {
    var w := st[|st| - 1];
    var rest := st[..|st| - 1];
    if g[w].constant || !g[w].positioned then DRun(g, l, rest)
    else if g[w].consumers == [] then
      DRun(DisableArgsG(DeactivatedG(g, w), w, |g[w].args|), Erase(l, w), rest + EnabledTargets(g[w].args))
    else if KeepsAnchor(rule, g, w) then DRun(g, l, rest)
    else
      ConsumerFacts(g, l, w);
      var c := Earliest(l, g[w].consumers);
      DRun(RebasedG(g, w, NewAnchor(rule, g, l, w)), MoveBefore(l, w, c), rest + EnabledTargets(g[w].args))
  }

  /** After a round under the corrected rule, the popped vertex, if it was active with
      consumers, has an activator one of its consumers implies for it. */
  lemma DisableStepAnchors(g: Graph, l: TopoList, st: seq<Vid>)
    requires st != [] && Shape(g, l) && Placement(g, l) && Matched(g) && EdgesActive(g, {})
    requires st[|st| - 1] < |g|
    ensures var w, r := st[|st| - 1], DisableStep(g, l, st, Corrected).g;
            IsActive(g[w]) && g[w].consumers != [] ==> w < |r| && Anchored(r, w)
  {
    var w := st[|st| - 1];
    if IsActive(g[w]) && g[w].consumers != [] && !Anchored(g, w) {
      ConsumerFacts(g, l, w);
      var cs := g[w].consumers;
      var c := Earliest(l, cs);
      var k :| 0 <= k < |cs| && cs[k] == c;
      var r := RebasedG(g, w, ImpliedByEarliest(g, l, w));
      assert r[c] == g[c] && r[w].consumers == cs;
      assert ImpliedActivator(r, c, w) == ImpliedActivator(g, c, w);
    }
  }

  // ---------------------------------------------------------------------------
  // The stack.

  lemma MembersPush(st: seq<Vid>, x: Vid)
    ensures Members(st + [x]) == Members(st) + {x}
  {
    var s := st + [x];
    assert s[|st|] == x;
    forall y | y in Members(st)
      ensures y in Members(s)
    {
      var k :| 0 <= k < |st| && st[k] == y;
      assert s[k] == y;
    }
  }

  lemma MembersAppend(a: seq<Vid>, b: seq<Vid>)
    ensures Members(a + b) == Members(a) + Members(b)
  {
    var s := a + b;
    forall y | y in Members(a)
      ensures y in Members(s)
    {
      var k :| 0 <= k < |a| && a[k] == y;
      assert s[k] == y;
    }
    forall y | y in Members(b)
      ensures y in Members(s)
    {
      var k :| 0 <= k < |b| && b[k] == y;
      assert s[|a| + k] == y;
    }
  }

  // ---------------------------------------------------------------------------
  // Disabling an edge.

  /** `disable_edge_` keeps the invariant of a running `disable_edge` once the target is
      pushed (for an eager source, with its data edge exempted). */
  lemma DisableArgKeeps(g0: Graph, g: Graph, l: TopoList, st: seq<Vid>, T: set<Vid>, E: set<Vid>, x: Vid, j: nat)
    requires Deactivating(g0, g, l, st, T, E)
    requires x < |g| && j < |g[x].args| && g[x].args[j].enabled && (x in E || !g[x].eager)
    ensures 0 < g[x].args[j].target < x
    ensures Deactivating(g0, DisableArgG(g, x, j), l, st + [g[x].args[j].target], T, E)
  {
    assert VertexOk(g, x);
    assert ArgOk(g, x, g[x].args[j].target);
    var t := g[x].args[j].target;
    var g' := DisableArgG(g, x, j);
    DisableArgSkeleton(g, x, j);
    SameSkeletonTrans(g0, g, g');
    SkeletonClosed(g, g');
    DisableArgShape(g, l, x, j);
    DisableArgMatched(g, x, j);
    DisableArgEdges(g, l, T, E, x, j);
    DisableArgStack(g, st, x, j);
  }

  lemma DisableArgSkeleton(g: Graph, x: Vid, j: nat)
    requires x < |g| && j < |g[x].args| && 0 < g[x].args[j].target < x
    ensures SameSkeleton(g, DisableArgG(g, x, j))
  {
    DisabledFlip(g[x].args, j, false);
  }

  lemma DisableArgShape(g: Graph, l: TopoList, x: Vid, j: nat)
    requires Shape(g, l) && Placement(g, l) && x < |g| && j < |g[x].args| && 0 < g[x].args[j].target < x
    ensures Shape(DisableArgG(g, x, j), l) && Placement(DisableArgG(g, x, j), l)
  {
    var g' := DisableArgG(g, x, j);
    forall y | 0 <= y < |g'|
      ensures VertexOk(g', y)
    {
      assert VertexOk(g, y);
      forall i | 0 <= i < |g'[y].args|
        ensures ArgOk(g', y, g'[y].args[i].target)
      {
        assert g'[y].args[i].target == g[y].args[i].target;
        assert ArgOk(g, y, g[y].args[i].target);
      }
    }
  }

  lemma DisableArgMatched(g: Graph, x: Vid, j: nat)
    requires Matched(g) && x < |g| && j < |g[x].args| && g[x].args[j].enabled && 0 < g[x].args[j].target < x
    ensures Matched(DisableArgG(g, x, j))
  {
    var g' := DisableArgG(g, x, j);
    forall y: Vid, w | 0 <= w < |g'|
      ensures multiset(g'[w].consumers)[y] == if y < |g'| then multiset(EnabledTargets(g'[y].args))[w] else 0
    {
      DisableArgMatchedAt(g, x, j, y, w);
    }
  }

  lemma DisableArgMatchedAt(g: Graph, x: Vid, j: nat, y: Vid, w: Vid)
    requires Matched(g) && x < |g| && j < |g[x].args| && g[x].args[j].enabled && 0 < g[x].args[j].target < x
    requires w < |g|
    ensures var g' := DisableArgG(g, x, j);
            multiset(g'[w].consumers)[y] == if y < |g'| then multiset(EnabledTargets(g'[y].args))[w] else 0
  {
    EnabledTargetsDisable(g[x].args, j);
    EdgeConsumer(g, x, j);
    EnabledTargetsHas(g[x].args, j);
    assert multiset(g[w].consumers)[y] == if y < |g| then multiset(EnabledTargets(g[y].args))[w] else 0;
    hide RemoveOne, EnabledTargets;
    DisableArgConsumers(g, x, j, w, y);
    if y < |g| {
      DisableArgTargets(g, x, j, y, w);
    }
  }

  /** One occurrence of the source leaves the target's consumers; nothing else changes. */
  lemma DisableArgConsumers(g: Graph, x: Vid, j: nat, w: Vid, y: Vid)
    requires x < |g| && j < |g[x].args| && g[x].args[j].target < x && w < |g|
    requires x in g[g[x].args[j].target].consumers
    ensures multiset(DisableArgG(g, x, j)[w].consumers)[y]
            == multiset(g[w].consumers)[y] - if w == g[x].args[j].target && y == x then 1 else 0
  {
    hide RemoveOne;
    var g' := DisableArgG(g, x, j);
    if w == g[x].args[j].target {
      assert g'[w].consumers == RemoveOne(g[w].consumers, x);
      assert multiset(g'[w].consumers) == multiset(g[w].consumers) - multiset{x};
    } else {
      assert g'[w].consumers == g[w].consumers;
    }
  }

  /** One occurrence of the target leaves the source's enabled targets; nothing else changes. */
  lemma DisableArgTargets(g: Graph, x: Vid, j: nat, y: Vid, w: Vid)
    requires x < |g| && j < |g[x].args| && g[x].args[j].target < x && y < |g|
    requires multiset(EnabledTargets(g[x].args[j := Edge(g[x].args[j].target, false)]))
             == multiset(EnabledTargets(g[x].args)) - multiset{g[x].args[j].target}
    requires w == g[x].args[j].target && y == x ==> multiset(EnabledTargets(g[x].args))[w] > 0
    ensures multiset(EnabledTargets(DisableArgG(g, x, j)[y].args))[w]
            == multiset(EnabledTargets(g[y].args))[w] - if y == x && w == g[x].args[j].target then 1 else 0
  {
    hide EnabledTargets;
    var g' := DisableArgG(g, x, j);
    if y == x {
      assert g'[y].args == g[x].args[j := Edge(g[x].args[j].target, false)];
    } else {
      assert g'[y].args == g[y].args;
    }
  }

  lemma DisableArgEdges(g: Graph, l: TopoList, T: set<Vid>, E: set<Vid>, x: Vid, j: nat)
    requires EdgesActive(g, T) && EdgesPlaced(g, {}) && Sorted(g, l, {}, T) && EagerOk(g, E)
    requires x < |g| && j < |g[x].args| && 0 < g[x].args[j].target < x && (x in E || !g[x].eager)
    ensures var g' := DisableArgG(g, x, j);
            EdgesActive(g', T) && EdgesPlaced(g', {}) && Sorted(g', l, {}, T) && EagerOk(g', E)
  {
    var g' := DisableArgG(g, x, j);
    forall y, i | 0 <= y < |g'| && 0 <= i < |g'[y].args| && g'[y].args[i].enabled
      ensures g'[y].args[i] == g[y].args[i] && g'[y].args[i].target < |g'|
      ensures g'[g'[y].args[i].target].positioned == g[g[y].args[i].target].positioned
      ensures Pos(g', g'[y].args[i].target) == Pos(g, g[y].args[i].target)
    {
    }
  }

  lemma DisableArgStack(g: Graph, st: seq<Vid>, x: Vid, j: nat)
    requires Observed(g, Members(st)) && Listed(g, st)
    requires x < |g| && j < |g[x].args| && 0 < g[x].args[j].target < x && !g[g[x].args[j].target].eager
    ensures Observed(DisableArgG(g, x, j), Members(st + [g[x].args[j].target]))
    ensures Listed(DisableArgG(g, x, j), st + [g[x].args[j].target])
  {
    MembersPush(st, g[x].args[j].target);
  }

  // ---------------------------------------------------------------------------
  // The edge loop after a deactivation.

  lemma ShrinksRefl(g: Graph)
    ensures Shrinks(g, g)
  {
  }

  lemma ShrinksTrans(g1: Graph, g2: Graph, g3: Graph)
    requires Shrinks(g1, g2) && Shrinks(g2, g3)
    ensures Shrinks(g1, g3)
  {
    forall x | 0 <= x < |g1|
      ensures (IsActive(g3[x]) ==> IsActive(g1[x])) && |g1[x].args| == |g3[x].args|
      ensures forall i | 0 <= i < |g1[x].args| :: g3[x].args[i].enabled ==> g1[x].args[i].enabled
    {
      forall i | 0 <= i < |g1[x].args| && g3[x].args[i].enabled
        ensures g1[x].args[i].enabled
      {
        assert g2[x].args[i].enabled;
      }
    }
  }

  /** Disabling the `j`-th edge of `x` disables that edge and changes no other edge and no
      vertex's activity. */
  lemma DisableArgShrinks(g: Graph, x: Vid, j: nat)
    requires x < |g| && j < |g[x].args| && g[x].args[j].target < |g|
    ensures Shrinks(g, DisableArgG(g, x, j))
    ensures var g' := DisableArgG(g, x, j);
            !g'[x].args[j].enabled && (forall i | 0 <= i < |g[x].args| && i != j :: g'[x].args[i] == g[x].args[i])
            && (forall y | 0 <= y < |g| && y != x :: g'[y].args == g[y].args)
            && forall y | 0 <= y < |g| :: IsActive(g'[y]) == IsActive(g[y])
  {
  }

  /** Disabling the first `m` edges of `w` leaves edge `j >= m` alone. */
  lemma {:induction false} DisableArgsAt(g: Graph, w: Vid, m: nat, j: nat)
    requires w < |g| && m <= j < |g[w].args|
    ensures DisableArgsG(g, w, m)[w].args[j] == g[w].args[j]
  {
    if m > 0 {
      DisableArgsAt(g, w, m - 1, j);
    }
  }

  /** The graph after `n` edges is the graph `g1` after `n - 1` with edge `n - 1` disabled
      if it is enabled. */
  lemma DisableArgsUnfold(g: Graph, w: Vid, n: nat, g1: Graph, r: Graph)
    requires w < |g| && 0 < n <= |g[w].args| && g[w].args[n - 1].target < |g|
    requires g1 == DisableArgsG(g, w, n - 1) && r == DisableArgsG(g, w, n)
    ensures g1[w].args[n - 1] == g[w].args[n - 1]
    ensures r == if g[w].args[n - 1].enabled then DisableArgG(g1, w, n - 1) else g1
  {
    DisableArgsAt(g, w, n - 1, n - 1);
  }

  /** Disabling the first `n` edges of `w` (giving `r`) disables exactly those, changes no
      other vertex's edges and no vertex's activity. */
  lemma {:induction false} DisableArgsEffect(g: Graph, w: Vid, n: nat, r: Graph)
    requires w < |g| && n <= |g[w].args| && forall k | 0 <= k < |g[w].args| :: g[w].args[k].target < |g|
    requires r == DisableArgsG(g, w, n)
    ensures Shrinks(g, r)
    ensures forall x | 0 <= x < |g| :: IsActive(r[x]) == IsActive(g[x])
    ensures forall x | 0 <= x < |g| && x != w :: r[x].args == g[x].args
    ensures forall k | 0 <= k < |g[w].args| :: r[w].args[k].enabled <==> n <= k && g[w].args[k].enabled
  {
    if n == 0 {
      ShrinksRefl(g);
    } else {
      hide Shrinks, DisableArgsG, DisableArgG;
      var g1 := DisableArgsG(g, w, n - 1);
      DisableArgsEffect(g, w, n - 1, g1);
      DisableArgsUnfold(g, w, n, g1, r);
      if g[w].args[n - 1].enabled {
        DisableArgShrinks(g1, w, n - 1);
        ShrinksTrans(g, g1, r);
        forall k | 0 <= k < |g[w].args|
          ensures r[w].args[k].enabled <==> n <= k && g[w].args[k].enabled
        {
          if k != n - 1 {
            assert r[w].args[k] == g1[w].args[k];
          }
        }
      }
    }
  }

  /** Disabling the enabled ones among the first `n` edges of `w` one by one and pushing
      their targets (giving `r` and `s`) keeps the invariant of a running `disable_edge`. */
  lemma {:induction false} DisableArgsKeeps(g0: Graph, g: Graph, l: TopoList, st: seq<Vid>, T: set<Vid>, E: set<Vid>,
                                            w: Vid, n: nat, r: Graph, s: seq<Vid>)
    requires w < |g| && n <= |g[w].args| && (w in E || !g[w].eager)
    requires forall k | 0 <= k < |g[w].args| :: g[w].args[k].target < w
    requires Deactivating(g0, g, l, st, T, E)
    requires r == DisableArgsG(g, w, n) && s == st + EnabledTargets(g[w].args[..n])
    ensures Deactivating(g0, r, l, s, T, E)
  {
    hide Deactivating;
    if n == 0 {
      assert g[w].args[..n] == [];
      assert s == st;
    } else {
      var g1 := DisableArgsG(g, w, n - 1);
      var s1 := st + EnabledTargets(g[w].args[..n - 1]);
      DisableArgsKeeps(g0, g, l, st, T, E, w, n - 1, g1, s1);
      DisableArgsNext(g0, g, l, st, T, E, w, n, g1, s1, r, s);
    }
  }

  /** The step of `DisableArgsKeeps` from `n - 1` edges (state `g1`, `s1`) to `n` (state
      `r`, `s`). */
  lemma DisableArgsNext(g0: Graph, g: Graph, l: TopoList, st: seq<Vid>, T: set<Vid>, E: set<Vid>,
                        w: Vid, n: nat, g1: Graph, s1: seq<Vid>, r: Graph, s: seq<Vid>)
    requires w < |g| && 0 < n <= |g[w].args| && g[w].args[n - 1].target < w && (w in E || !g[w].eager)
    requires g1 == DisableArgsG(g, w, n - 1) && s1 == st + EnabledTargets(g[w].args[..n - 1])
    requires r == DisableArgsG(g, w, n) && s == st + EnabledTargets(g[w].args[..n])
    requires Deactivating(g0, g1, l, s1, T, E)
    ensures Deactivating(g0, r, l, s, T, E)
  {
    hide Deactivating;
    DisableNextUnfold(g, st, w, n, g1, s1, r, s);
    if g[w].args[n - 1].enabled {
      DisableArgKeeps(g0, g1, l, s1, T, E, w, n - 1);
    }
  }

  /** One more edge: the graph after `n` edges is the graph after `n - 1` with edge `n - 1`
      disabled, and its target pushed, if it is enabled. */
  lemma DisableNextUnfold(g: Graph, st: seq<Vid>, w: Vid, n: nat, g1: Graph, s1: seq<Vid>, r: Graph, s: seq<Vid>)
    requires w < |g| && 0 < n <= |g[w].args| && g[w].args[n - 1].target < |g|
    requires g1 == DisableArgsG(g, w, n - 1) && s1 == st + EnabledTargets(g[w].args[..n - 1])
    requires r == DisableArgsG(g, w, n) && s == st + EnabledTargets(g[w].args[..n])
    ensures g1[w].args[n - 1] == g[w].args[n - 1] && g1[w].eager == g[w].eager
    ensures g[w].args[n - 1].enabled ==> r == DisableArgG(g1, w, n - 1) && s == s1 + [g[w].args[n - 1].target]
    ensures !g[w].args[n - 1].enabled ==> r == g1 && s == s1
  {
    DisableArgsUnfold(g, w, n, g1, r);
    DisableArgsEager(g, w, n - 1);
    EnabledTargetsPrefix(g[w].args, n - 1);
    if g[w].args[n - 1].enabled {
      assert s == s1 + [g[w].args[n - 1].target];
    } else {
      assert s == s1 + [];
    }
  }

  lemma {:induction false} DisableArgsEager(g: Graph, w: Vid, n: nat)
    requires w < |g| && n <= |g[w].args|
    ensures DisableArgsG(g, w, n)[w].eager == g[w].eager
  {
    if n > 0 {
      DisableArgsEager(g, w, n - 1);
    }
  }

  // ---------------------------------------------------------------------------
  // Deactivating a vertex without consumers.

  /** `deactivate_vertex_(w)` for an active `w` without consumers keeps the invariant of a
      running `disable_edge`, with `w`'s still enabled edges exempted. */
  lemma DeactivateKeeps(g0: Graph, g: Graph, l: TopoList, st: seq<Vid>, E: set<Vid>, w: Vid)
    requires Deactivating(g0, g, l, st + [w], {}, E) && w < |g| && IsActive(g[w]) && g[w].consumers == []
    ensures w in l.items && 0 < w && !g[w].eager
    ensures Deactivating(g0, DeactivatedG(g, w), Erase(l, w), st, {w}, E)
  {
    var s := st + [w];
    assert s[|st|] == w;
    var g' := DeactivatedG(g, w);
    assert Skel(g[w]) == Skel(g'[w]);
    SameSkeletonTrans(g0, g, g');
    SkeletonClosed(g, g');
    DeactivateShape(g, l, w);
    DeactivateMatched(g, w);
    NoConsumers(g, w);
    DeactivateEdges(g, l, E, w);
    MembersPush(st, w);
    DeactivateStack(g, st, w);
  }

  lemma DeactivateShape(g: Graph, l: TopoList, w: Vid)
    requires Shape(g, l) && Placement(g, l) && 0 < w < |g| && IsActive(g[w]) && !g[w].eager
    ensures Shape(DeactivatedG(g, w), Erase(l, w)) && Placement(DeactivatedG(g, w), Erase(l, w))
  {
    var g' := DeactivatedG(g, w);
    EraseFacts(l, w);
    EraseFront(l, w);
    forall x | 0 <= x < |g'|
      ensures VertexOk(g', x)
    {
      assert VertexOk(g, x);
      forall i | 0 <= i < |g'[x].args|
        ensures ArgOk(g', x, g'[x].args[i].target)
      {
        assert ArgOk(g, x, g[x].args[i].target);
      }
    }
  }

  lemma DeactivateMatched(g: Graph, w: Vid)
    requires Matched(g) && w < |g|
    ensures Matched(DeactivatedG(g, w))
  {
    var g' := DeactivatedG(g, w);
    forall x: Vid, y | 0 <= y < |g'|
      ensures multiset(g'[y].consumers)[x] == if x < |g'| then multiset(EnabledTargets(g'[x].args))[y] else 0
    {
      assert multiset(g[y].consumers)[x] == if x < |g| then multiset(EnabledTargets(g[x].args))[y] else 0;
      assert g'[y].consumers == g[y].consumers;
      if x < |g| { assert g'[x].args == g[x].args; }
    }
  }

  lemma DeactivateEdges(g: Graph, l: TopoList, E: set<Vid>, w: Vid)
    requires Wf(l) && EdgesActive(g, {}) && EdgesPlaced(g, {}) && Sorted(g, l, {}, {}) && EagerOk(g, E)
    requires 0 < w < |g| && w in l.items && !g[w].eager
    requires forall c, j | 0 <= c < |g| && 0 <= j < |g[c].args| && g[c].args[j].enabled :: g[c].args[j].target != w
    ensures var g', l' := DeactivatedG(g, w), Erase(l, w);
            EdgesActive(g', {w}) && EdgesPlaced(g', {}) && Sorted(g', l', {}, {w}) && EagerOk(g', E)
  {
    var g', l' := DeactivatedG(g, w), Erase(l, w);
    EraseFacts(l, w);
    forall x, i | 0 <= x < |g'| && 0 <= i < |g'[x].args| && g'[x].args[i].enabled && x != w
      ensures g'[x].args[i].target < |g'| && Precedes(l', Pos(g', g'[x].args[i].target), x)
    {
      var t := g[x].args[i].target;
      assert g'[x] == g[x] && t != w;
      assert Pos(g', t) == Pos(g, t);
    }
  }

  lemma DeactivateStack(g: Graph, st: seq<Vid>, w: Vid)
    requires Observed(g, Members(st) + {w}) && w < |g| && forall k | 0 <= k < |st + [w]| :: 0 < (st + [w])[k] < |g| && !g[(st + [w])[k]].eager
    ensures Observed(DeactivatedG(g, w), Members(st)) && Listed(DeactivatedG(g, w), st)
  {
    forall k | 0 <= k < |st|
      ensures 0 < st[k] < |g| && !g[st[k]].eager
    {
      assert (st + [w])[k] == st[k];
    }
  }

  /** Once the edges of the deactivated vertex are all disabled, it needs no exemption. */
  lemma DeactivateDone(g0: Graph, g: Graph, l: TopoList, st: seq<Vid>, E: set<Vid>, w: Vid)
    requires Deactivating(g0, g, l, st, {w}, E) && w < |g|
    requires forall k | 0 <= k < |g[w].args| :: !g[w].args[k].enabled
    ensures Deactivating(g0, g, l, st, {}, E)
  {
  }

  /** The whole deactivation step: `deactivate_vertex_`, then the edge loop. */
  lemma DeactivateRun(g0: Graph, g: Graph, l: TopoList, st: seq<Vid>, E: set<Vid>, w: Vid)
    requires Deactivating(g0, g, l, st + [w], {}, E) && w < |g| && IsActive(g[w]) && g[w].consumers == []
    ensures w in l.items
    ensures Deactivating(g0, DisableArgsG(DeactivatedG(g, w), w, |g[w].args|), Erase(l, w),
                         st + EnabledTargets(g[w].args), {}, E)
  {
    assert VertexOk(g, w);
    DeactivateKeeps(g0, g, l, st, E, w);
    var g1 := DeactivatedG(g, w);
    var n := |g[w].args|;
    var r := DisableArgsG(g1, w, n);
    assert g1[w].args == g[w].args && g1[w].args[..n] == g[w].args;
    forall k | 0 <= k < n
      ensures g1[w].args[k].target < w
    {
      assert ArgOk(g, w, g[w].args[k].target);
    }
    DisableArgsKeeps(g0, g1, Erase(l, w), st, {w}, E, w, n, r, st + EnabledTargets(g[w].args));
    DisableArgsEffect(g1, w, n, r);
    DeactivateDone(g0, r, Erase(l, w), st + EnabledTargets(g[w].args), E, w);
  }

  // ---------------------------------------------------------------------------
  // Moving a vertex that lost the consumer its activator came from.

  /** Pushing the enabled targets of `args`, whose targets are all non-eager vertices
      other than the root, keeps the stack listed. */
  lemma ListedAppend(g: Graph, st: seq<Vid>, args: seq<Edge>)
    requires Listed(g, st)
    requires forall j | 0 <= j < |args| :: 0 < args[j].target < |g| && !g[args[j].target].eager
    ensures Listed(g, st + EnabledTargets(args))
  {
    var ts := EnabledTargets(args);
    forall k | 0 <= k < |st + ts|
      ensures 0 < (st + ts)[k] < |g| && !g[(st + ts)[k]].eager
    {
      if k >= |st| {
        assert ts[k - |st|] in ts;
        var j := EnabledTargetsSource(args, ts[k - |st|]);
      }
    }
  }

  /** Moving `w` just before its earliest consumer and giving it the activator the `rule`
      gives it keeps the invariant of a running `disable_edge` once the targets of `w`'s
      enabled edges are pushed. */
  lemma ReanchorKeeps(g0: Graph, g: Graph, l: TopoList, st: seq<Vid>, E: set<Vid>, w: Vid, rule: Reanchoring)
    requires Deactivating(g0, g, l, st + [w], {}, E) && w < |g| && IsActive(g[w]) && g[w].consumers != []
    ensures var c := Earliest(l, g[w].consumers);
            w < c < |g| && w in l.items && c in l.items && ConsumersActivated(g, w)
    ensures var c := Earliest(l, g[w].consumers);
            Deactivating(g0, RebasedG(g, w, NewAnchor(rule, g, l, w)), MoveBefore(l, w, c),
                         st + EnabledTargets(g[w].args), {}, E)
  {
    var s := st + [w];
    assert s[|st|] == w;
    ConsumerFacts(g, l, w);
    var cs := g[w].consumers;
    var c := Earliest(l, cs);
    NewAnchorBelow(g, l, w, rule);
    var b := NewAnchor(rule, g, l, w);
    var g' := RebasedG(g, w, b);
    assert w in l.items && VertexOk(g, w);
    RebasedSkeleton(g, w, b);
    SameSkeletonTrans(g0, g, g');
    SkeletonClosed(g, g');
    RebaseShape(g, l, w, b);
    MoveShape(g', l, c, w);
    RebaseMatched(g, w, b);
    EarliestIsFirst(l, cs);
    ReanchorEdges(g, l, E, w, c, b);
    MembersPush(st, w);
    ReanchorStack(g, st, w, b);
  }

  /** The activator either rule gives a re-anchored vertex is a vertex of the graph. */
  lemma NewAnchorBelow(g: Graph, l: TopoList, w: Vid, rule: Reanchoring)
    requires Shape(g, l) && w < |g| && g[w].consumers != [] && ConsumersActivated(g, w)
    ensures NewAnchor(rule, g, l, w) < |g|
  {
    var c := Earliest(l, g[w].consumers);
    assert VertexOk(g, c);
    ImpliedBelow(g, l, c, w);
  }

  /** The activator a consumer implies is a vertex of the graph. */
  lemma ImpliedBelow(g: Graph, l: TopoList, u: Vid, v: Vid)
    requires Shape(g, l) && u < |g| && g[u].activator.Some?
    ensures ImpliedActivator(g, u, v) < |g|
  {
    assert VertexOk(g, u);
    if g[u].conditional && g[u].args != [] {
      assert ArgOk(g, u, g[u].args[0].target);
    }
  }

  lemma ReanchorEdges(g: Graph, l: TopoList, E: set<Vid>, w: Vid, c: Vid, b: Vid)
    requires Wf(l) && Shape(g, l) && Matched(g) && EdgesActive(g, {}) && EdgesPlaced(g, {}) && Sorted(g, l, {}, {}) && EagerOk(g, E)
    requires 0 < w < c < |g| && w in l.items && c in l.items && IsActive(g[w]) && !g[w].eager
    requires c in g[w].consumers
    requires forall k | 0 <= k < |g[w].consumers| :: g[w].consumers[k] == c || Precedes(l, c, g[w].consumers[k])
    ensures var g', l' := RebasedG(g, w, b), MoveBefore(l, w, c);
            EdgesActive(g', {}) && EdgesPlaced(g', {}) && Sorted(g', l', {}, {}) && EagerOk(g', E)
  {
    var g' := RebasedG(g, w, b);
    forall x, i | 0 <= x < |g'| && 0 <= i < |g'[x].args| && g'[x].args[i].enabled
      ensures g'[x].args[i].target < |g'| && Precedes(MoveBefore(l, w, c), Pos(g', g'[x].args[i].target), x)
    {
      assert VertexOk(g, w);
      ReanchorEdgeAt(g, l, w, c, b, x, i);
    }
  }

  /** After the move, the slot of the target of an enabled edge still precedes its source:
      `w`'s dependencies preceded `w` and so its earliest consumer, and every consumer of
      `w` is that consumer or comes after it. */
  lemma ReanchorEdgeAt(g: Graph, l: TopoList, w: Vid, c: Vid, b: Vid, x: Vid, i: nat)
    requires Wf(l) && Matched(g) && Sorted(g, l, {}, {})
    requires 0 < w < c < |g| && w in l.items && c in l.items && IsActive(g[w]) && VertexOk(g, w)
    requires c in g[w].consumers
    requires forall k | 0 <= k < |g[w].consumers| :: g[w].consumers[k] == c || Precedes(l, c, g[w].consumers[k])
    requires x < |g| && i < |g[x].args| && g[x].args[i].enabled
    ensures var g' := RebasedG(g, w, b);
            g'[x].args[i].target < |g'| && Precedes(MoveBefore(l, w, c), Pos(g', g'[x].args[i].target), x)
  {
    var g' := RebasedG(g, w, b);
    var t := g[x].args[i].target;
    MoveOrder(l, w, c);
    assert g'[x].args[i] == g[x].args[i];
    assert Pos(g', t) == Pos(g, t);
    assert Precedes(l, Pos(g, t), x);
    if x == w {
      var jc := ConsumerEdge(g, w, c);
      assert Precedes(l, w, c);
      assert ArgOk(g, w, t);
      PrecedesTrans(l, Pos(g, t), w, c);
    } else if t == w {
      EdgeConsumer(g, x, i);
      var k :| 0 <= k < |g[w].consumers| && g[w].consumers[k] == x;
    }
  }

  lemma ReanchorStack(g: Graph, st: seq<Vid>, w: Vid, b: Vid)
    requires Observed(g, Members(st) + {w}) && Listed(g, st + [w]) && w < |g| && g[w].consumers != []
    requires VertexOk(g, w)
    ensures Observed(RebasedG(g, w, b), Members(st + EnabledTargets(g[w].args)))
    ensures Listed(RebasedG(g, w, b), st + EnabledTargets(g[w].args))
  {
    var g' := RebasedG(g, w, b);
    MembersAppend(st, EnabledTargets(g[w].args));
    forall k | 0 <= k < |st|
      ensures 0 < st[k] < |g| && !g[st[k]].eager
    {
      assert (st + [w])[k] == st[k];
    }
    forall j | 0 <= j < |g[w].args|
      ensures 0 < g[w].args[j].target < |g'| && !g'[g[w].args[j].target].eager
    {
      assert ArgOk(g, w, g[w].args[j].target);
    }
    ListedAppend(g', st, g'[w].args);
  }

  /** A popped vertex that is inert, or still consumed, needs no exemption. */
  lemma DropKeeps(g0: Graph, g: Graph, l: TopoList, st: seq<Vid>, E: set<Vid>, w: Vid)
    requires Deactivating(g0, g, l, st + [w], {}, E) && w < |g| && (!IsActive(g[w]) || g[w].consumers != [])
    ensures Deactivating(g0, g, l, st, {}, E)
  {
    var s := st + [w];
    MembersPush(st, w);
    forall k | 0 <= k < |st|
      ensures 0 < st[k] < |g| && !g[st[k]].eager
    {
      assert s[k] == st[k];
    }
  }

  // ---------------------------------------------------------------------------
  // One round, and why the loop ends.

  lemma PopSplit(st: seq<Vid>)
    requires st != []
    ensures st == st[..|st| - 1] + [st[|st| - 1]]
  {
  }

  /** Every vertex on the stack weighs as much as the paths leaving it. */
  function PendingWeight(S: seq<seq<Vid>>, st: seq<Vid>): nat
    requires Descending(S)
  {
    if st == [] then 0
    else PendingWeight(S, st[..|st| - 1]) + (if st[|st| - 1] < |S| then Weight(S, st[|st| - 1]) else 0)
  }

  lemma PendingWeightPush(S: seq<seq<Vid>>, st: seq<Vid>, v: Vid)
    requires Descending(S) && v < |S|
    ensures PendingWeight(S, st + [v]) == PendingWeight(S, st) + Weight(S, v)
  {
    assert (st + [v])[..|st|] == st;
  }

  /** The enabled targets among the first `n` edges weigh at most what those edges weigh. */
  lemma {:induction false} TargetsWeight(S: seq<seq<Vid>>, st: seq<Vid>, args: seq<Edge>, w: Vid, n: nat)
    requires Descending(S) && w < |S| && n <= |args| == |S[w]|
    requires forall k | 0 <= k < |args| :: S[w][k] == args[k].target
    ensures PendingWeight(S, st + EnabledTargets(args[..n])) <= PendingWeight(S, st) + SumWeights(S, S[w][..n], w)
  {
    if n == 0 {
      assert args[..0] == [];
      assert st + [] == st;
    } else {
      TargetsWeight(S, st, args, w, n - 1);
      var p := args[..n];
      assert p[..n - 1] == args[..n - 1];
      var a := EnabledTargets(args[..n - 1]);
      var t := args[n - 1].target;
      var z: seq<Vid> := if args[n - 1].enabled then [t] else [];
      assert EnabledTargets(p) == a + z;
      assert st + (a + z) == (st + a) + z;
      SumWeightsPrefix(S, S[w], w, n - 1);
      if args[n - 1].enabled {
        PendingWeightPush(S, st + a, t);
      } else {
        assert (st + a) + z == st + a;
      }
    }
  }

  /** Replacing `w` on the stack by the targets of its enabled edges makes the stack
      lighter. */
  lemma PopPending(g0: Graph, g: Graph, rest: seq<Vid>, w: Vid)
    requires Descending(Structure(g0)) && SameSkeleton(g0, g) && w < |g|
    ensures PendingWeight(Structure(g0), rest + EnabledTargets(g[w].args)) < PendingWeight(Structure(g0), rest + [w])
  {
    var S := Structure(g0);
    Enabling.TargetsOf(g0, g, w);
    TargetsWeight(S, rest, g[w].args, w, |g[w].args|);
    assert g[w].args[..|g[w].args|] == g[w].args;
    assert S[w][..|S[w]|] == S[w];
    PendingWeightPush(S, rest, w);
  }

  /** What a round promises besides the invariant, for the weights `S` of the start:
      nothing is activated or enabled, no mark is added, and the stack gets lighter. */
  ghost predicate DisableProgress(S: seq<seq<Vid>>, g: Graph, l: TopoList, st: seq<Vid>, r: DRun)
    requires Descending(S)
  {
    Shrinks(g, r.g) && r.l.marked <= l.marked && PendingWeight(S, r.st) < PendingWeight(S, st)
  }

  lemma DeactivatedShrinks(g: Graph, w: Vid)
    requires w < |g|
    ensures Shrinks(g, DeactivatedG(g, w))
  {
  }

  lemma RebasedShrinks(g: Graph, w: Vid, b: Vid)
    requires w < |g|
    ensures Shrinks(g, RebasedG(g, w, b))
  {
  }

  /** A round keeps the invariant of a running `disable_edge`, under either rule. */
  lemma DisableStepKeeps(g0: Graph, g: Graph, l: TopoList, st: seq<Vid>, E: set<Vid>, rule: Reanchoring)
    requires st != [] && Deactivating(g0, g, l, st, {}, E)
    ensures var r := DisableStep(g, l, st, rule); Deactivating(g0, r.g, r.l, r.st, {}, E)
  {
    var w := st[|st| - 1];
    var rest := st[..|st| - 1];
    PopSplit(st);
    if g[w].constant || !g[w].positioned {
      DropKeeps(g0, g, l, rest, E, w);
    } else if g[w].consumers == [] {
      DeactivateRun(g0, g, l, rest, E, w);
    } else if KeepsAnchor(rule, g, w) {
      DropKeeps(g0, g, l, rest, E, w);
    } else {
      ReanchorKeeps(g0, g, l, rest, E, w, rule);
    }
  }

  /** A round makes progress, under either rule. */
  lemma DisableStepProgress(g0: Graph, g: Graph, l: TopoList, st: seq<Vid>, rule: Reanchoring)
    requires Descending(Structure(g0)) && st != [] && SameSkeleton(g0, g)
    requires Shape(g, l) && Placement(g, l) && Matched(g) && EdgesActive(g, {}) && Listed(g, st)
    ensures DisableProgress(Structure(g0), g, l, st, DisableStep(g, l, st, rule))
  {
    var w := st[|st| - 1];
    var rest := st[..|st| - 1];
    PopSplit(st);
    var r := DisableStep(g, l, st, rule);
    assert VertexOk(g, w);
    PopPending(g0, g, rest, w);
    if g[w].constant || !g[w].positioned || (g[w].consumers != [] && KeepsAnchor(rule, g, w)) {
      ShrinksRefl(g);
    } else if g[w].consumers == [] {
      var g1 := DeactivatedG(g, w);
      DeactivatedShrinks(g, w);
      forall k | 0 <= k < |g1[w].args|
        ensures g1[w].args[k].target < |g1|
      {
        assert ArgOk(g, w, g[w].args[k].target);
      }
      DisableArgsEffect(g1, w, |g1[w].args|, r.g);
      ShrinksTrans(g, g1, r.g);
    } else {
      ConsumerFacts(g, l, w);
      var c := Earliest(l, g[w].consumers);
      RebasedShrinks(g, w, NewAnchor(rule, g, l, w));
      MoveOrder(l, w, c);
    }
  }

  /** A round inside `disable_edge`'s loop keeps the loop's invariant: the invariant of a
      running `disable_edge`, shrinking since `g1` and no new marks since `m0`; and it
      makes the stack lighter. */
  lemma DisableRoundKeeps(g0: Graph, g1: Graph, g: Graph, l: TopoList, st: seq<Vid>, m0: set<Vid>, E: set<Vid>,
                          r: DRun, rule: Reanchoring)
    requires Descending(Structure(g0)) && st != [] && Deactivating(g0, g, l, st, {}, E)
    requires Shrinks(g1, g) && l.marked <= m0
    requires r == DisableStep(g, l, st, rule)
    ensures Deactivating(g0, r.g, r.l, r.st, {}, E)
    ensures Shrinks(g1, r.g) && r.l.marked <= m0
    ensures PendingWeight(Structure(g0), r.st) < PendingWeight(Structure(g0), st)
  {
    DisableStepKeeps(g0, g, l, st, E, rule);
    DisableStepProgress(g0, g, l, st, rule);
    hide Deactivating;
    ShrinksTrans(g1, g, r.g);
  }

  /** Disabling the first edge `(u, j)` and pushing its target starts a running
      `disable_edge`, with `u`'s data edge exempted should `u` be eager. */
  lemma DisableStart(g0: Graph, l: TopoList, u: Vid, j: nat)
    requires Shape(g0, l) && Placement(g0, l) && Closed(g0, {}) && Matched(g0) && EdgesActive(g0, {})
    requires EdgesPlaced(g0, {}) && Sorted(g0, l, {}, {}) && Observed(g0, {}) && EagerOk(g0, {})
    requires u < |g0| && j < |g0[u].args| && g0[u].args[j].enabled
    ensures 0 < g0[u].args[j].target < u
    ensures Deactivating(g0, DisableArgG(g0, u, j), l, [g0[u].args[j].target], {}, {u})
    ensures Shrinks(g0, DisableArgG(g0, u, j)) && !DisableArgG(g0, u, j)[u].args[j].enabled
  {
    assert Members([]) == {};
    assert SameSkeleton(g0, g0);
    DisableArgKeeps(g0, g0, l, [], {}, {u}, u, j);
    assert [] + [g0[u].args[j].target] == [g0[u].args[j].target];
    DisableArgShrinks(g0, u, j);
  }

  /** With the stack empty, the invariant holds again (for an eager `u`, except that its
      data edge may be disabled), over the same static graph. */
  lemma DisableDone(g0: Graph, g: Graph, l: TopoList, u: Vid, ext: seq<nat>)
    requires Deactivating(g0, g, l, [], {}, {u}) && Counted(g0, ext) && u < |g0|
    ensures InvExcept(g, l, ext, u) && SameSkeleton(g0, g)
    ensures !g0[u].eager ==> Inv(g, l, ext)
  {
    assert Members([]) == {};
    SkeletonCounted(g0, g, ext);
    assert Skel(g0[u]) == Skel(g[u]);
  }
}
