/**
 * One round of `enable_edge`'s worklist (engine.cpp) as a function of the state,
 * the two edge loops inside it, and the proof that a round keeps the invariant
 * of a running `enable_edge`, never undoes an activation or an enabled edge, marks
 * what it activates and makes the stack lighter.
 */
module Enabling {
  import opened Wrappers
  import opened TopologicalList
  import opened DependencyGraph
  import opened Activation

  /** The state the worklist works on: the graph, the order and the stack. */
  datatype Run = Run(g: Graph, l: TopoList, st: seq<Entry>)

  /** The edges of a vertex lead to older vertices; a conditional has its condition. */
  lemma ArgsBelow(g: Graph, l: TopoList, v: Vid)
    requires Shape(g, l) && v < |g|
    ensures forall k | 0 <= k < |g[v].args| :: 0 < g[v].args[k].target < v
    ensures g[v].conditional ==> |g[v].args| >= 1
  {
    assert VertexOk(g, v);
    forall k | 0 <= k < |g[v].args|
      ensures 0 < g[v].args[k].target < v
    {
      assert ArgOk(g, v, g[v].args[k].target);
    }
  }

  lemma AppendAssoc(a: seq<Entry>, b: seq<Entry>, c: seq<Entry>)
    ensures a + (b + c) == a + b + c
  {
  }

  lemma LastSplit(st: seq<Entry>)
    requires st != []
    ensures st == st[..|st| - 1] + [st[|st| - 1]]
  {
  }

  lemma AppendEmpty(a: seq<Entry>)
    ensures a + [] == a
  {
  }

  lemma NoneMinus(none: set<Vid>, v: Vid)
    requires none == {}
    ensures none - {v} == none
  {
  }

  // ---------------------------------------------------------------------------
  // The edge loops.

  /** `enable_edge_` for the first `n` edges of `v`, in order (an edge whose target is
      not a vertex, which the shape invariant excludes, is skipped). */
  function EnableArgsG(g: Graph, v: Vid, n: nat): (r: Graph)
    requires v < |g| && n <= |g[v].args|
    ensures |r| == |g| && |r[v].args| == |g[v].args|
  {
    if n == 0 then g
    else
      var g1 := EnableArgsG(g, v, n - 1);
      if g1[v].args[n - 1].target < |g1| then EnableArgG(g1, v, n - 1) else g1
  }

  /** The enabled entries pushed for the first `n` edges of `v`. */
  function EnabledEntries(g: Graph, v: Vid, n: nat): seq<Entry>
    requires v < |g| && n <= |g[v].args|
  {
    if n == 0 then [] else EnabledEntries(g, v, n - 1) + [Entry(v, g[v].args[n - 1].target, true, false, false)]
  }

  /** The entries pushed for the enabled ones among the first `n` edges of `v`, with the
      flags `rb` (rebased) and `rp` (repositioned). */
  function PushedEntries(g: Graph, v: Vid, n: nat, rb: bool, rp: bool): seq<Entry>
    requires v < |g| && n <= |g[v].args|
  {
    if n == 0 then []
    else PushedEntries(g, v, n - 1, rb, rp)
         + (if g[v].args[n - 1].enabled then [Entry(v, g[v].args[n - 1].target, false, rb, rp)] else [])
  }

  /** Enabling the first `n` edges of `v` (giving `r`) enables exactly those and changes no
      vertex's activity. */
  lemma {:induction false} EnableArgsEffect(g: Graph, v: Vid, n: nat, r: Graph)
    requires v < |g| && n <= |g[v].args| && forall k | 0 <= k < |g[v].args| :: g[v].args[k].target < |g|
    requires r == EnableArgsG(g, v, n)
    ensures Grows(g, r) && |r[v].args| == |g[v].args| && r[v].conditional == g[v].conditional
    ensures forall x | 0 <= x < |g| :: IsActive(r[x]) == IsActive(g[x])
    ensures forall k | 0 <= k < |g[v].args| :: r[v].args[k].enabled <==> k < n || g[v].args[k].enabled
  {
    if n == 0 {
      GrowsRefl(g);
    } else {
      var g1 := EnableArgsG(g, v, n - 1);
      EnableArgsEffect(g, v, n - 1, g1);
      EnableArgsUnfold(g, v, n, g1, r);
      EnableArgGrows(g1, v, n - 1);
      GrowsTrans(g, g1, r);
    }
  }

  /** The graph after `n` edges is edge `n - 1` enabled in the graph `g1` after `n - 1`. */
  lemma EnableArgsUnfold(g: Graph, v: Vid, n: nat, g1: Graph, r: Graph)
    requires v < |g| && 0 < n <= |g[v].args| && g[v].args[n - 1].target < |g|
    requires g1 == EnableArgsG(g, v, n - 1) && r == EnableArgsG(g, v, n)
    ensures g1[v].args[n - 1] == g[v].args[n - 1] && IsActive(g1[v]) == IsActive(g[v])
    ensures r == EnableArgG(g1, v, n - 1)
  {
    EnableArgsAt(g, v, n - 1, n - 1);
  }

  /** Enabling the first `m` edges of `v` leaves edge `j >= m` and the activity of `v` alone. */
  lemma {:induction false} EnableArgsAt(g: Graph, v: Vid, m: nat, j: nat)
    requires v < |g| && m <= j < |g[v].args|
    ensures EnableArgsG(g, v, m)[v].args[j] == g[v].args[j]
    ensures IsActive(EnableArgsG(g, v, m)[v]) == IsActive(g[v])
  {
    if m > 0 {
      EnableArgsAt(g, v, m - 1, j);
    }
  }

  /** Enabling the edges of a freshly activated vertex one by one and pushing each keeps
      the invariant of a running `enable_edge`. */
  lemma {:induction false} EnableArgsKeeps(g0: Graph, g: Graph, l: TopoList, st: seq<Entry>, v: Vid, n: nat,
                                           r: Graph, s: seq<Entry>)
    requires 0 < v < |g| && IsActive(g[v]) && n <= |g[v].args|
    requires forall k | 0 <= k < |g[v].args| :: g[v].args[k].target < v && !g[v].args[k].enabled
    requires Activating(g0, g, l, st, {}, {})
    requires r == EnableArgsG(g, v, n) && s == st + EnabledEntries(g, v, n)
    ensures Activating(g0, r, l, s, {}, {})
  {
    hide Activating;
    if n == 0 {
      AppendEmpty(st);
    } else {
      var r1, s1 := EnableArgsG(g, v, n - 1), st + EnabledEntries(g, v, n - 1);
      EnableArgsKeeps(g0, g, l, st, v, n - 1, r1, s1);
      EnableArgsNext(g0, g, l, st, v, n, r1, s1, r, s);
    }
  }

  /** The step of `EnableArgsKeeps` from `n - 1` edges (state `g1`, `s1`) to `n` (state
      `r`, `s`). */
  lemma EnableArgsNext(g0: Graph, g: Graph, l: TopoList, st: seq<Entry>, v: Vid, n: nat,
                       g1: Graph, s1: seq<Entry>, r: Graph, s: seq<Entry>)
    requires 0 < v < |g| && IsActive(g[v]) && 0 < n <= |g[v].args|
    requires g[v].args[n - 1].target < v && !g[v].args[n - 1].enabled
    requires g1 == EnableArgsG(g, v, n - 1) && s1 == st + EnabledEntries(g, v, n - 1)
    requires r == EnableArgsG(g, v, n) && s == st + EnabledEntries(g, v, n)
    requires Activating(g0, g1, l, s1, {}, {})
    ensures Activating(g0, r, l, s, {}, {})
  {
    hide Activating;
    EnableNextUnfold(g, st, v, n, g1, s1, r, s);
    EnableNextKeeps(g0, g1, l, s1, v, n - 1, r, s);
  }

  /** The step of `EnableArgsKeeps`: enabling edge `j` of an active `v`, for a consumer that
      is not eager, gives the state `r`, `s`. */
  lemma EnableNextKeeps(g0: Graph, g: Graph, l: TopoList, st: seq<Entry>, v: Vid, j: nat, r: Graph, s: seq<Entry>)
    requires v < |g| && IsActive(g[v]) && j < |g[v].args| && !g[v].args[j].enabled
    requires Activating(g0, g, l, st, {}, {})
    requires g[v].args[j].target < |g| && r == EnableArgG(g, v, j)
    requires s == st + [Entry(v, g[v].args[j].target, true, false, false)]
    ensures Activating(g0, r, l, s, {}, {})
  {
    hide Activating;
    var none: set<Vid> := {};
    EnableArgKeeps(g0, g, l, st, {}, none, v, j);
    NoneMinus(none, v);
  }

  /** One more enabled edge: the graph after `n` edges is edge `n - 1` enabled in the graph
      after `n - 1`, and one more entry is pushed. */
  lemma EnableNextUnfold(g: Graph, st: seq<Entry>, v: Vid, n: nat, g1: Graph, s1: seq<Entry>, r: Graph, s: seq<Entry>)
    requires v < |g| && 0 < n <= |g[v].args| && g[v].args[n - 1].target < |g|
    requires g1 == EnableArgsG(g, v, n - 1) && s1 == st + EnabledEntries(g, v, n - 1)
    requires r == EnableArgsG(g, v, n) && s == st + EnabledEntries(g, v, n)
    ensures g1[v].args[n - 1] == g[v].args[n - 1] && IsActive(g1[v]) == IsActive(g[v])
    ensures r == EnableArgG(g1, v, n - 1)
    ensures s == s1 + [Entry(v, g[v].args[n - 1].target, true, false, false)]
  {
    EnableArgsUnfold(g, v, n, g1, r);
    AppendAssoc(st, EnabledEntries(g, v, n - 1), [Entry(v, g[v].args[n - 1].target, true, false, false)]);
  }

  /** The step of the edge loop of `enable_edge`: from edge `i` done (state `g1`, `s1`) to
      edge `i + 1` done (state `r`, `s`). */
  lemma EnableLoopStep(g: Graph, st: seq<Entry>, v: Vid, i: nat, g1: Graph, s1: seq<Entry>, r: Graph, s: seq<Entry>)
    requires v < |g| && i < |g[v].args| && g[v].args[i].target < |g|
    requires g1 == EnableArgsG(g, v, i) && s1 == st + EnabledEntries(g, v, i)
    requires r == EnableArgsG(g, v, i + 1) && s == st + EnabledEntries(g, v, i + 1)
    ensures v < |g1| && i < |g1[v].args| && g1[v].args[i].target < |g1|
    ensures r == EnableArgG(g1, v, i) && s == s1 + [Entry(v, g1[v].args[i].target, true, false, false)]
  {
    EnableNextUnfold(g, st, v, i + 1, g1, s1, r, s);
  }

  /** The entries pushed for `v`'s edges are not enabled, and the repositioned ones stand
      for exactly the pending pairs of the edges pushed so far. */
  lemma {:induction false} PushedSets(g: Graph, st: seq<Entry>, v: Vid, n: nat, rb: bool, rp: bool)
    requires v < |g| && n <= |g[v].args|
    ensures Unplaced(st + PushedEntries(g, v, n, rb, rp)) == Unplaced(st)
    ensures Unsorted(st + PushedEntries(g, v, n, rb, rp)) + (if rp then Outgoing(g, v, n) else {})
            == Unsorted(st) + (if rp then Outgoing(g, v, 0) else {})
  {
    if n == 0 {
      AppendEmpty(st);
    } else {
      PushedSets(g, st, v, n - 1, rb, rp);
      PushedStep(g, st, v, n, rb, rp);
      OutgoingStep(g, v, n - 1);
      if g[v].args[n - 1].enabled {
        PendingPush(st + PushedEntries(g, v, n - 1, rb, rp), Entry(v, g[v].args[n - 1].target, false, rb, rp));
      }
    }
  }

  /** The entries pushed for an active `v` are enabled edges leaving it. */
  lemma {:induction false} PushedStack(g: Graph, st: seq<Entry>, v: Vid, n: nat, rb: bool, rp: bool)
    requires StackOk(g, st) && v < |g| && IsActive(g[v]) && n <= |g[v].args|
    ensures StackOk(g, st + PushedEntries(g, v, n, rb, rp))
  {
    hide StackOk;
    if n == 0 {
      AppendEmpty(st);
      assert st + PushedEntries(g, v, 0, rb, rp) == st;
    } else {
      hide PushedEntries;
      var s1 := st + PushedEntries(g, v, n - 1, rb, rp);
      PushedStack(g, st, v, n - 1, rb, rp);
      PushedStep(g, st, v, n, rb, rp);
      if g[v].args[n - 1].enabled {
        PushStack(g, s1, v, n - 1, rb, rp);
      }
    }
  }

  /** Pushing the enabled edges of `v` keeps the invariant; the repositioned entries take
      over the pending pairs of the edges they stand for. */
  lemma PushedKeeps(g0: Graph, g: Graph, l: TopoList, st: seq<Entry>, s: seq<Entry>, v: Vid, rb: bool, rp: bool)
    requires v < |g| && IsActive(g[v]) && s == st + PushedEntries(g, v, |g[v].args|, rb, rp)
    requires Activating(g0, g, l, st, if rp then Outgoing(g, v, 0) else {}, {})
    ensures Activating(g0, g, l, s, {}, {})
  {
    PushedSets(g, st, v, |g[v].args|, rb, rp);
    PushedStack(g, st, v, |g[v].args|, rb, rp);
    OutgoingEnd(g, v);
    PlacedMono(g, Unplaced(st), Unplaced(s));
    SortedMono(g, l, Unsorted(st) + (if rp then Outgoing(g, v, 0) else {}), Unsorted(s) + {}, {});
  }

  lemma PushedStep(g: Graph, st: seq<Entry>, v: Vid, n: nat, rb: bool, rp: bool)
    requires v < |g| && 0 < n <= |g[v].args|
    ensures st + PushedEntries(g, v, n, rb, rp)
            == if g[v].args[n - 1].enabled
               then st + PushedEntries(g, v, n - 1, rb, rp) + [Entry(v, g[v].args[n - 1].target, false, rb, rp)]
               else st + PushedEntries(g, v, n - 1, rb, rp)
  {
    AppendAssoc(st, PushedEntries(g, v, n - 1, rb, rp), [Entry(v, g[v].args[n - 1].target, false, rb, rp)]);
    AppendEmpty(PushedEntries(g, v, n - 1, rb, rp));
  }

  /** The enabled entries for the first `n` edges weigh what those edges weigh. */
  lemma {:induction false} EnabledWeight(S: seq<seq<Vid>>, g: Graph, st: seq<Entry>, v: Vid, n: nat)
    requires Descending(S) && v < |S| && v < |g| && n <= |g[v].args| == |S[v]|
    requires forall k | 0 <= k < |g[v].args| :: S[v][k] == g[v].args[k].target
    ensures StackWeight(S, st + EnabledEntries(g, v, n)) == StackWeight(S, st) + SumWeights(S, S[v][..n], v)
  {
    if n == 0 {
      AppendEmpty(st);
    } else {
      EnabledWeight(S, g, st, v, n - 1);
      var e := Entry(v, g[v].args[n - 1].target, true, false, false);
      AppendAssoc(st, EnabledEntries(g, v, n - 1), [e]);
      StackWeightPush(S, st + EnabledEntries(g, v, n - 1), e);
      SumWeightsPrefix(S, S[v], v, n - 1);
    }
  }

  /** The pushed entries for the first `n` edges weigh at most what those edges weigh. */
  lemma {:induction false} PushedWeight(S: seq<seq<Vid>>, g: Graph, st: seq<Entry>, v: Vid, n: nat, rb: bool, rp: bool)
    requires Descending(S) && v < |S| && v < |g| && n <= |g[v].args| == |S[v]|
    requires forall k | 0 <= k < |g[v].args| :: S[v][k] == g[v].args[k].target
    ensures StackWeight(S, st + PushedEntries(g, v, n, rb, rp)) <= StackWeight(S, st) + SumWeights(S, S[v][..n], v)
  {
    if n == 0 {
      AppendEmpty(st);
    } else {
      PushedWeight(S, g, st, v, n - 1, rb, rp);
      var s := st + PushedEntries(g, v, n - 1, rb, rp);
      var e := Entry(v, g[v].args[n - 1].target, false, rb, rp);
      PushWeight(S, s, StackWeight(S, st), v, n - 1, e, g[v].args[n - 1].enabled);
      AppendAssoc(st, PushedEntries(g, v, n - 1, rb, rp), if g[v].args[n - 1].enabled then [e] else []);
      AppendEmpty(s);
    }
  }

  /** The structure `enable_edge` started from lists the targets of `v`'s edges. */
  lemma TargetsOf(g0: Graph, g: Graph, v: Vid)
    requires SameSkeleton(g0, g) && v < |g|
    ensures |Structure(g0)[v]| == |g[v].args|
    ensures forall k | 0 <= k < |g[v].args| :: Structure(g0)[v][k] == g[v].args[k].target
  {
    SkeletonArity(g0, g, v);
    forall k | 0 <= k < |g[v].args|
      ensures Structure(g0)[v][k] == g[v].args[k].target
    {
      SkeletonTarget(g0, g, v, k);
    }
  }

  // ---------------------------------------------------------------------------
  // One round.

  /** Pop the top entry `(u, v)`.  An enabled edge into an inert `v` activates `v`
      (`ActivateStep`), an active `v` is revisited (`RevisitStep`), and any other entry is
      dropped. */
  ghost function Step(g: Graph, l: TopoList, st: seq<Entry>): Run
    requires st != [] && Shape(g, l) && Placement(g, l) && Matched(g) && StackOk(g, st)
  {
    var e := st[|st| - 1];
    EntryFacts(g, l, st, |st| - 1);
    if e.enabled && !g[e.dst].positioned then ActivateStep(g, l, st)
    else if IsActive(g[e.dst]) then RevisitStep(g, l, st)
    else Run(g, l, st[..|st| - 1])
  }

  /** An enabled edge `(u, v)` into an inert `v`: `v` is activated right before `u` and
      marked, and its edges (only the condition of a conditional) are enabled. */
  ghost function ActivateStep(g: Graph, l: TopoList, st: seq<Entry>): Run
    requires st != [] && Shape(g, l) && Placement(g, l) && Matched(g) && StackOk(g, st)
    requires st[|st| - 1].dst < |g| && st[|st| - 1].enabled && !g[st[|st| - 1].dst].positioned
  {
    var e := st[|st| - 1];
    var rest := st[..|st| - 1];
    EntryFacts(g, l, st, |st| - 1);
    var u, v := e.src, e.dst;
    ArgsBelow(g, l, v);
    var g1 := ActivatedG(g, u, v);
    var n := if g[v].conditional then 1 else |g[v].args|;
    Run(EnableArgsG(g1, v, n), ActivatedL(l, u, v), rest + EnabledEntries(g1, v, n))
  }

  /** An entry `(u, v)` into an active `v`: `v` may take a new activator (`rebased`) and
      move before `u` (`repositioned`), and then passes both flags on to its enabled edges. */
  ghost function RevisitStep(g: Graph, l: TopoList, st: seq<Entry>): Run
    requires st != [] && Shape(g, l) && Placement(g, l) && Matched(g) && StackOk(g, st)
    requires st[|st| - 1].dst < |g| && IsActive(g[st[|st| - 1].dst])
  {
    var e := st[|st| - 1];
    var rest := st[..|st| - 1];
    EntryFacts(g, l, st, |st| - 1);
    var u, v := e.src, e.dst;
    var b := ImpliedActivator(g, u, v);
    var rebased := (e.enabled || e.rebased) && Precedes(l, Pos(g, b), Pos(g, g[v].activator.value));
    var g1 := if rebased then RebasedG(g, v, if e.enabled then b else g[u].activator.value) else g;
    var repositioned := (e.enabled || e.repositioned) && Precedes(l, u, v);
    var l1 := if repositioned then MoveBefore(l, v, u) else l;
    Run(g1, l1, rest + if repositioned || rebased then PushedEntries(g1, v, |g1[v].args|, rebased, repositioned) else [])
  }

  /** What a round promises besides the invariant, for the weights `S` of the start. */
  ghost predicate Progress(S: seq<seq<Vid>>, g: Graph, l: TopoList, st: seq<Entry>, r: Run)
    requires Descending(S)
  {
    Grows(g, r.g) && l.marked <= r.l.marked
    && (forall x | 0 <= x < |g| && !IsActive(g[x]) && IsActive(r.g[x]) :: x in r.l.marked)
    && StackWeight(S, r.st) < StackWeight(S, st)
  }

  /** A round keeps the invariant of a running `enable_edge` and makes progress. */
  lemma StepKeeps(g0: Graph, g: Graph, l: TopoList, st: seq<Entry>)
    requires Descending(Structure(g0)) && st != [] && Activating(g0, g, l, st, {}, {})
    ensures Activating(g0, Step(g, l, st).g, Step(g, l, st).l, Step(g, l, st).st, {}, {})
    ensures Progress(Structure(g0), g, l, st, Step(g, l, st))
  {
    var e := st[|st| - 1];
    LastSplit(st);
    EntryFacts(g, l, st, |st| - 1);
    if e.enabled && !g[e.dst].positioned {
      ActivateRun(g0, g, l, st, Step(g, l, st));
      ActivateProgress(g0, g, l, st, Step(g, l, st));
    } else if IsActive(g[e.dst]) {
      RevisitRun(g0, g, l, st, Step(g, l, st));
      RevisitProgress(g0, g, l, st, Step(g, l, st));
    } else {
      SkipKeeps(g0, g, l, st[..|st| - 1], e);
      SkipProgress(g0, g, l, st);
    }
  }

  /** Enabling the first edge `(u, j)` and pushing it starts a running `enable_edge`. */
  lemma EnableStart(g0: Graph, l: TopoList, ext: seq<nat>, u: Vid, j: nat)
    requires InvExcept(g0, l, ext, u)
    requires u < |g0| && IsActive(g0[u]) && j < |g0[u].args| && !g0[u].args[j].enabled
    ensures g0[u].args[j].target < |g0|
    ensures Activating(g0, EnableArgG(g0, u, j), l, [Entry(u, g0[u].args[j].target, true, false, false)], {}, {})
    ensures Grows(g0, EnableArgG(g0, u, j)) && EnableArgG(g0, u, j)[u].args[j].enabled
    ensures Counted(g0, ext)
  {
    StartActivating(g0, l, u);
    EnableArgKeeps(g0, g0, l, [], {}, {u}, u, j);
    EnableArgGrows(g0, u, j);
    assert [] + [Entry(u, g0[u].args[j].target, true, false, false)] == [Entry(u, g0[u].args[j].target, true, false, false)];
    assert {u} - {u} == {};
  }

  /** A round inside `enable_edge`'s loop keeps the loop's invariant: the invariant of a
      running `enable_edge`, growth since `g1`, marks since `m0`, and marks on everything
      activated since `g0`; and it makes the stack lighter. */
  lemma RoundKeeps(g0: Graph, g1: Graph, g: Graph, l: TopoList, st: seq<Entry>, m0: set<Vid>, r: Run)
    requires Descending(Structure(g0)) && |g| == |g0| && st != [] && Activating(g0, g, l, st, {}, {})
    requires Grows(g1, g) && m0 <= l.marked
    requires forall x | 0 <= x < |g| && !IsActive(g0[x]) && IsActive(g[x]) :: x in l.marked
    requires r == Step(g, l, st)
    ensures |r.g| == |g0| && Activating(g0, r.g, r.l, r.st, {}, {})
    ensures Grows(g1, r.g) && m0 <= r.l.marked
    ensures forall x | 0 <= x < |r.g| && !IsActive(g0[x]) && IsActive(r.g[x]) :: x in r.l.marked
    ensures StackWeight(Structure(g0), r.st) < StackWeight(Structure(g0), st)
  {
    StepKeeps(g0, g, l, st);
    hide Activating;
    GrowsTrans(g1, g, r.g);
    forall x | 0 <= x < |r.g| && !IsActive(g0[x]) && IsActive(r.g[x])
      ensures x in r.l.marked
    {
      if IsActive(g[x]) {
        assert x in l.marked;
      }
    }
  }

  lemma ActivateRun(g0: Graph, g: Graph, l: TopoList, st: seq<Entry>, r: Run)
    requires st != [] && Activating(g0, g, l, st, {}, {})
    requires st[|st| - 1].enabled && st[|st| - 1].dst < |g| && !g[st[|st| - 1].dst].positioned
    requires r == ActivateStep(g, l, st)
    ensures Activating(g0, r.g, r.l, r.st, {}, {})
  {
    var e := st[|st| - 1];
    var rest := st[..|st| - 1];
    LastSplit(st);
    var u, v := e.src, e.dst;
    EntryFacts(g, l, st, |st| - 1);
    hide Activating;
    ActivateKeeps(g0, g, l, rest, {}, e);
    var g1 := ActivatedG(g, u, v);
    var l1 := ActivatedL(l, u, v);
    ArgsBelow(g, l, v);
    var n := if g[v].conditional then 1 else |g[v].args|;
    assert forall k | 0 <= k < |g1[v].args| :: g1[v].args[k].target < v && !g1[v].args[k].enabled;
    EnableArgsKeeps(g0, g1, l1, rest, v, n, EnableArgsG(g1, v, n), rest + EnabledEntries(g1, v, n));
  }

  lemma ActivateProgress(g0: Graph, g: Graph, l: TopoList, st: seq<Entry>, r: Run)
    requires Descending(Structure(g0)) && st != []
    requires SameSkeleton(g0, g) && Shape(g, l) && Placement(g, l) && Matched(g) && StackOk(g, st)
    requires st[|st| - 1].enabled && st[|st| - 1].dst < |g| && !g[st[|st| - 1].dst].positioned
    requires r == ActivateStep(g, l, st)
    ensures Progress(Structure(g0), g, l, st, r)
  {
    ActivateGrowth(g, l, st, r);
    ActivateWeight(g0, g, l, st, r);
  }

  /** Activation only adds: the activated vertex is marked and its edges are enabled. */
  lemma ActivateGrowth(g: Graph, l: TopoList, st: seq<Entry>, r: Run)
    requires st != [] && Shape(g, l) && Placement(g, l) && Matched(g) && StackOk(g, st)
    requires st[|st| - 1].enabled && st[|st| - 1].dst < |g| && !g[st[|st| - 1].dst].positioned
    requires r == ActivateStep(g, l, st)
    ensures Grows(g, r.g) && l.marked <= r.l.marked
    ensures forall x | 0 <= x < |g| && !IsActive(g[x]) && IsActive(r.g[x]) :: x in r.l.marked
  {
    var e := st[|st| - 1];
    var u, v := e.src, e.dst;
    EntryFacts(g, l, st, |st| - 1);
    var g1 := ActivatedG(g, u, v);
    ActivatedGrows(g, u, v);
    ActivatedOrder(l, u, v);
    ArgsBelow(g, l, v);
    var n := if g[v].conditional then 1 else |g[v].args|;
    EnableArgsEffect(g1, v, n, r.g);
    GrowsTrans(g, g1, r.g);
  }

  /** Activation replaces the popped entry by entries for edges that weigh less. */
  lemma {:induction false} ActivateWeight(g0: Graph, g: Graph, l: TopoList, st: seq<Entry>, r: Run)
    requires Descending(Structure(g0)) && st != []
    requires SameSkeleton(g0, g) && Shape(g, l) && Placement(g, l) && Matched(g) && StackOk(g, st)
    requires st[|st| - 1].enabled && st[|st| - 1].dst < |g| && !g[st[|st| - 1].dst].positioned
    requires r == ActivateStep(g, l, st)
    ensures StackWeight(Structure(g0), r.st) < StackWeight(Structure(g0), st)
  {
    var S := Structure(g0);
    var e := st[|st| - 1];
    var rest := st[..|st| - 1];
    LastSplit(st);
    var u, v := e.src, e.dst;
    EntryFacts(g, l, st, |st| - 1);
    var g1 := ActivatedG(g, u, v);
    ArgsBelow(g, l, v);
    var n := if g[v].conditional then 1 else |g[v].args|;
    ActivatedSkeleton(g, u, v);
    SameSkeletonTrans(g0, g, g1);
    TargetsOf(g0, g1, v);
    EnabledWeight(S, g1, rest, v, n);
    SumWeightsMono(S, S[v], v, n, |S[v]|);
    PopWeight(S, rest, e, rest + EnabledEntries(g1, v, n));
  }

  lemma RevisitRun(g0: Graph, g: Graph, l: TopoList, st: seq<Entry>, r: Run)
    requires st != [] && Activating(g0, g, l, st, {}, {})
    requires st[|st| - 1].dst < |g| && IsActive(g[st[|st| - 1].dst])
    requires r == RevisitStep(g, l, st)
    ensures Activating(g0, r.g, r.l, r.st, {}, {})
  {
    var e := st[|st| - 1];
    var rest := st[..|st| - 1];
    LastSplit(st);
    var u, v := e.src, e.dst;
    EntryFacts(g, l, st, |st| - 1);
    hide Activating;
    var b := ImpliedActivator(g, u, v);
    var rebased := (e.enabled || e.rebased) && Precedes(l, Pos(g, b), Pos(g, g[v].activator.value));
    var g1 := if rebased then RebasedG(g, v, if e.enabled then b else g[u].activator.value) else g;
    if rebased {
      RebaseKeeps(g0, g, l, st, {}, v, if e.enabled then b else g[u].activator.value);
    }
    var repositioned := (e.enabled || e.repositioned) && Precedes(l, u, v);
    if repositioned {
      MoveKeeps(g0, g1, l, rest, e);
      PushedKeeps(g0, g1, MoveBefore(l, v, u), rest, rest + PushedEntries(g1, v, |g1[v].args|, rebased, true), v, rebased, true);
    } else {
      StayKeeps(g0, g1, l, rest, e);
      if rebased {
        PushedKeeps(g0, g1, l, rest, rest + PushedEntries(g1, v, |g1[v].args|, true, false), v, true, false);
      } else {
        AppendEmpty(rest);
      }
    }
  }

  lemma RevisitProgress(g0: Graph, g: Graph, l: TopoList, st: seq<Entry>, r: Run)
    requires Descending(Structure(g0)) && st != []
    requires SameSkeleton(g0, g) && Shape(g, l) && Placement(g, l) && Matched(g) && StackOk(g, st)
    requires st[|st| - 1].dst < |g| && IsActive(g[st[|st| - 1].dst])
    requires r == RevisitStep(g, l, st)
    ensures Progress(Structure(g0), g, l, st, r)
  {
    RevisitGrowth(g, l, st, r);
    RevisitWeight(g0, g, l, st, r);
  }

  /** A revisit activates nothing, disables nothing and keeps the marks. */
  lemma RevisitGrowth(g: Graph, l: TopoList, st: seq<Entry>, r: Run)
    requires st != [] && Shape(g, l) && Placement(g, l) && Matched(g) && StackOk(g, st)
    requires st[|st| - 1].dst < |g| && IsActive(g[st[|st| - 1].dst])
    requires r == RevisitStep(g, l, st)
    ensures Grows(g, r.g) && l.marked == r.l.marked
    ensures forall x | 0 <= x < |g| :: IsActive(r.g[x]) == IsActive(g[x])
  {
    var e := st[|st| - 1];
    var u, v := e.src, e.dst;
    EntryFacts(g, l, st, |st| - 1);
    var b := ImpliedActivator(g, u, v);
    var rebased := (e.enabled || e.rebased) && Precedes(l, Pos(g, b), Pos(g, g[v].activator.value));
    if rebased {
      RebasedGrows(g, v, if e.enabled then b else g[u].activator.value);
    } else {
      GrowsRefl(g);
    }
    var repositioned := (e.enabled || e.repositioned) && Precedes(l, u, v);
    if repositioned {
      MoveMarks(l, v, u);
    }
  }

  /** A revisit replaces the popped entry by entries for edges that weigh less. */
  lemma {:induction false} RevisitWeight(g0: Graph, g: Graph, l: TopoList, st: seq<Entry>, r: Run)
    requires Descending(Structure(g0)) && st != []
    requires SameSkeleton(g0, g) && Shape(g, l) && Placement(g, l) && Matched(g) && StackOk(g, st)
    requires st[|st| - 1].dst < |g| && IsActive(g[st[|st| - 1].dst])
    requires r == RevisitStep(g, l, st)
    ensures StackWeight(Structure(g0), r.st) < StackWeight(Structure(g0), st)
  {
    var S := Structure(g0);
    var e := st[|st| - 1];
    var rest := st[..|st| - 1];
    LastSplit(st);
    var u, v := e.src, e.dst;
    EntryFacts(g, l, st, |st| - 1);
    var b := ImpliedActivator(g, u, v);
    var rebased := (e.enabled || e.rebased) && Precedes(l, Pos(g, b), Pos(g, g[v].activator.value));
    var g1 := if rebased then RebasedG(g, v, if e.enabled then b else g[u].activator.value) else g;
    if rebased {
      RebasedSkeleton(g, v, if e.enabled then b else g[u].activator.value);
      SameSkeletonTrans(g0, g, g1);
    }
    var repositioned := (e.enabled || e.repositioned) && Precedes(l, u, v);
    RevisitPopWeight(g0, g1, rest, e, rebased, repositioned);
  }

  /** The entries a revisit of `e.dst` pushes, with the flags `rb` and `rp`, weigh less
      than `e` did. */
  lemma RevisitPopWeight(g0: Graph, g1: Graph, rest: seq<Entry>, e: Entry, rb: bool, rp: bool)
    requires Descending(Structure(g0)) && SameSkeleton(g0, g1) && e.dst < |g1|
    ensures StackWeight(Structure(g0), rest + if rp || rb then PushedEntries(g1, e.dst, |g1[e.dst].args|, rb, rp) else [])
            < StackWeight(Structure(g0), rest + [e])
  {
    var S := Structure(g0);
    var v := e.dst;
    TargetsOf(g0, g1, v);
    SumWeightsMono(S, S[v], v, 0, |S[v]|);
    if rp || rb {
      PushedWeight(S, g1, rest, v, |g1[v].args|, rb, rp);
      PopWeight(S, rest, e, rest + PushedEntries(g1, v, |g1[v].args|, rb, rp));
    } else {
      AppendEmpty(rest);
      PopWeight(S, rest, e, rest);
    }
  }

  lemma SkipProgress(g0: Graph, g: Graph, l: TopoList, st: seq<Entry>)
    requires Descending(Structure(g0)) && st != []
    requires SameSkeleton(g0, g) && Shape(g, l) && Placement(g, l) && Matched(g) && StackOk(g, st)
    requires st[|st| - 1].dst < |g| && !IsActive(g[st[|st| - 1].dst])
    requires st[|st| - 1].enabled ==> g[st[|st| - 1].dst].positioned
    ensures Progress(Structure(g0), g, l, st, Step(g, l, st))
  {
    var S := Structure(g0);
    var e := st[|st| - 1];
    var rest := st[..|st| - 1];
    LastSplit(st);
    EntryFacts(g, l, st, |st| - 1);
    GrowsRefl(g);
    SumWeightsMono(S, S[e.dst], e.dst, 0, |S[e.dst]|);
    PopWeight(S, rest, e, rest);
  }
}
