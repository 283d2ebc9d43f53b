/**
 * The teardown of a released subgraph (`remove_subgraph_`): a depth-first visit
 * from a vertex whose reference count is zero.  Discovering a vertex releases each
 * of its structural edges, and a target whose count drops to zero is coloured
 * white, so that the visit goes on into it; finishing a vertex deletes it.
 *
 * The visit is modelled with an explicit stack of frames, as the graph library's
 * non-recursive depth-first visit runs it, over a base graph `B` that satisfies
 * the engine invariant.  The invariant of the visit (`Releasing`) says that
 * vertices not yet discovered keep their records apart from their counts, that
 * each count is the number of handles plus the edges from undiscovered vertices,
 * that the discovered vertices are inactive and held by nothing from outside, and
 * that every white vertex is still ahead of some frame.  When the stack is empty
 * every discovered vertex has been deleted and the engine invariant holds again.
 */
module Teardown {
  import opened Wrappers
  import opened TopologicalList
  import opened DependencyGraph

  /** A frame of the depth-first visit: a vertex and the index of its next out-edge. */
  datatype Frame = Frame(x: Vid, i: nat)

  /** The vertices of the frames on the stack. */
  function Frames(st: seq<Frame>): set<Vid> {
    set f | f in st :: f.x
  }

  /** The targets frame `f` has still to examine. */
  function Rest(S: seq<seq<Vid>>, f: Frame): set<Vid> {
    if f.x < |S| && f.i <= |S[f.x]| then set y | y in S[f.x][f.i..] else {}
  }

  /** The targets that some frame on the stack has still to examine. */
  function Remaining(S: seq<seq<Vid>>, st: seq<Frame>): set<Vid> {
    if st == [] then {} else Remaining(S, st[..|st| - 1]) + Rest(S, st[|st| - 1])
  }

  /** The edges left to examine plus the frames left to finish. */
  function Work(S: seq<seq<Vid>>, st: seq<Frame>): nat {
    if st == [] then 0
    else
      var f := st[|st| - 1];
      Work(S, st[..|st| - 1]) + 1 + (if f.x < |S| && f.i <= |S[f.x]| then |S[f.x]| - f.i else 0)
  }

  /** The base graph of a teardown from `v`: `v` without the eager and `initialized`
      flags that a detached eager vertex still carries. */
  function Cleared(g: Graph, v: Vid): (r: Graph)
    requires v < |g|
    ensures |r| == |g|
  {
    g[v := g[v].(eager := false, initialized := false)]
  }

  /** Every vertex's count lowered by the number of times it occurs in `ts`: what the
      release loop of `discover_vertex` does for the targets `ts`. */
  function Lowered(g: Graph, ts: seq<Vid>): (r: Graph)
    requires Fits(g, ts)
    ensures |r| == |g|
    ensures forall x | 0 <= x < |g| :: r[x] == g[x].(refCount := g[x].refCount - multiset(ts)[x])
  {
    seq(|g|, x requires 0 <= x < |g| => g[x].(refCount := g[x].refCount - multiset(ts)[x]))
  }

  // ---------------------------------------------------------------------------
  // In-degrees from the vertices not yet discovered.

  lemma {:induction false} InRefsExceptUpToAdd(S: seq<seq<Vid>>, R: set<Vid>, u: Vid, n: nat, x: Vid)
    requires n <= |S| && u < |S| && u !in R
    ensures InRefsExceptUpTo(S, R, n, x)
            == InRefsExceptUpTo(S, R + {u}, n, x) + (if u < n then multiset(S[u])[x] else 0)
  {
    if n > 0 {
      InRefsExceptUpToAdd(S, R, u, n - 1, x);
    }
  }

  /** Discovering `u` takes its edges out of every in-degree. */
  lemma {:induction false} InRefsExceptAdd(S: seq<seq<Vid>>, R: set<Vid>, u: Vid, x: Vid)
    requires u < |S| && u !in R
    ensures InRefsExcept(S, R, x) == InRefsExcept(S, R + {u}, x) + multiset(S[u])[x]
  {
    InRefsExceptUpToAdd(S, R, u, |S|, x);
  }

  lemma {:induction false} InRefsExceptUpToNone(S: seq<seq<Vid>>, n: nat, x: Vid)
    requires n <= |S|
    ensures InRefsExceptUpTo(S, {}, n, x) == InRefsUpTo(S, n, x)
  {
    if n > 0 {
      InRefsExceptUpToNone(S, n - 1, x);
    }
  }

  /** Before anything is discovered, every edge counts. */
  lemma {:induction false} InRefsExceptNone(S: seq<seq<Vid>>, x: Vid)
    ensures InRefsExcept(S, {}, x) == InRefs(S, x)
  {
    InRefsExceptUpToNone(S, |S|, x);
  }

  lemma {:induction false} InRefsUpToReleased(S: seq<seq<Vid>>, T: seq<seq<Vid>>, R: set<Vid>, n: nat, x: Vid)
    requires n <= |S| == |T|
    requires forall y | 0 <= y < |S| :: T[y] == if y in R then [] else S[y]
    ensures InRefsUpTo(T, n, x) == InRefsExceptUpTo(S, R, n, x)
  {
    if n > 0 {
      InRefsUpToReleased(S, T, R, n - 1, x);
      assert T[n - 1] == if n - 1 in R then [] else S[n - 1];
    }
  }

  /** Once the discovered vertices have lost their edges, the in-degrees of what is left
      are those from the undiscovered vertices. */
  lemma {:induction false} InRefsReleased(S: seq<seq<Vid>>, T: seq<seq<Vid>>, R: set<Vid>, x: Vid)
    requires |S| == |T|
    requires forall y | 0 <= y < |S| :: T[y] == if y in R then [] else S[y]
    ensures InRefs(T, x) == InRefsExcept(S, R, x)
  {
    InRefsUpToReleased(S, T, R, |S|, x);
  }

  // ---------------------------------------------------------------------------
  // The release loop.

  lemma {:induction false} LoweredNone(g: Graph, ts: seq<Vid>)
    ensures Fits(g, ts[..0]) && Lowered(g, ts[..0]) == g
  {
    assert ts[..0] == [];
  }

  /** Releasing one more target. */
  lemma {:induction false} LoweredNext(g: Graph, ts: seq<Vid>, k: nat, gr: Graph)
    requires k < |ts| && Fits(g, ts) && Fits(g, ts[..k]) && gr == Lowered(g, ts[..k]) && ts[k] < |g|
    ensures Fits(g, ts[..k + 1]) && gr[ts[k]].refCount > 0
    ensures gr[ts[k] := gr[ts[k]].(refCount := gr[ts[k]].refCount - 1)] == Lowered(g, ts[..k + 1])
  {
    assert ts[..k + 1] == ts[..k] + [ts[k]];
    assert ts == ts[..k + 1] + ts[k + 1..];
    forall x | 0 <= x < |g|
      ensures multiset(ts[..k + 1])[x] == multiset(ts[..k])[x] + (if x == ts[k] then 1 else 0)
      ensures multiset(ts[..k + 1])[x] <= multiset(ts)[x]
    {
    }
    var r, q := gr[ts[k] := gr[ts[k]].(refCount := gr[ts[k]].refCount - 1)], Lowered(g, ts[..k + 1]);
    forall x | 0 <= x < |g|
      ensures r[x] == q[x]
    {
    }
  }

  /** `w` is `white` plus the released targets in `ts` whose count in `g` is zero. */
  ghost predicate Whitened(w: set<Vid>, white: set<Vid>, ts: seq<Vid>, g: Graph) {
    forall y :: y in w <==> y in white || (y in ts && y < |g| && g[y].refCount == 0)
  }

  lemma WhitenedNone(white: set<Vid>, ts: seq<Vid>, g: Graph)
    ensures Whitened(white, white, ts[..0], g)
  {
  }

  /** The white set after one more release: the target joins it when its count reaches zero. */
  lemma {:induction false} WhitesNext(ts: seq<Vid>, k: nat, white: set<Vid>, w1: set<Vid>, w2: set<Vid>, g1: Graph, g2: Graph)
    requires k < |ts| && ts[k] < |g1| == |g2| && g1[ts[k]].refCount > 0
    requires forall x | 0 <= x < |g1| && x != ts[k] :: g2[x].refCount == g1[x].refCount
    requires Whitened(w1, white, ts[..k], g1)
    requires forall y :: y in w2 <==> y in w1 || (y == ts[k] && g2[y].refCount == 0)
    ensures Whitened(w2, white, ts[..k + 1], g2)
  {
    assert ts[..k + 1] == ts[..k] + [ts[k]];
  }

  /** One more round of the release loop: the next target loses one count, and joins
      the white set when none is left. */
  lemma {:induction false} ReleaseNext(g: Graph, ts: seq<Vid>, k: nat, gr: Graph, white: set<Vid>, w1: set<Vid>)
    requires k < |ts| && Fits(g, ts) && Fits(g, ts[..k]) && gr == Lowered(g, ts[..k]) && ts[k] < |g|
    requires Whitened(w1, white, ts[..k], gr)
    ensures gr[ts[k]].refCount > 0
    ensures var gr2 := gr[ts[k] := gr[ts[k]].(refCount := gr[ts[k]].refCount - 1)];
            var w2 := if gr2[ts[k]].refCount == 0 then w1 + {ts[k]} else w1;
            Fits(g, ts[..k + 1]) && gr2 == Lowered(g, ts[..k + 1])
            && Whitened(w2, white, ts[..k + 1], gr2)
  {
    LoweredNext(g, ts, k, gr);
    var gr2 := gr[ts[k] := gr[ts[k]].(refCount := gr[ts[k]].refCount - 1)];
    var w2 := if gr2[ts[k]].refCount == 0 then w1 + {ts[k]} else w1;
    WhitesNext(ts, k, white, w1, w2, gr, gr2);
  }

  /** The release loop of `discover_vertex`: each target in `ts` loses one count, in
      order, and joins the white set when its count reaches zero. */
  method ReleaseAll(g: Graph, ts: seq<Vid>, white: set<Vid>) returns (gr: Graph, w: set<Vid>)
    requires Fits(g, ts) && forall k | 0 <= k < |ts| :: ts[k] < |g|
    ensures gr == Lowered(g, ts) && Whitened(w, white, ts, gr)
  {
    hide Lowered, Fits, Whitened;
    gr, w := g, white;
    LoweredNone(g, ts);
    WhitenedNone(white, ts, g);
    for k := 0 to |ts|
      invariant |gr| == |g|
      invariant Fits(g, ts[..k]) && gr == Lowered(g, ts[..k])
      invariant Whitened(w, white, ts[..k], gr)
    {
      var t := ts[k];
      ReleaseNext(g, ts, k, gr, white, w);
      gr := gr[t := gr[t].(refCount := gr[t].refCount - 1)];
      if gr[t].refCount == 0 {
        w := w + {t};
      }
    }
    assert ts[..|ts|] == ts;
  }

  /** There is enough count left on every vertex to release the targets `ts`. */
  ghost predicate Fits(g: Graph, ts: seq<Vid>) {
    forall x | 0 <= x < |g| :: multiset(ts)[x] <= g[x].refCount
  }

  /** An undiscovered `y` holds every in-degree by at least its own edges. */
  lemma {:induction false} InRefsExceptOf(S: seq<seq<Vid>>, R: set<Vid>, y: Vid, x: Vid)
    requires y < |S| && y !in R
    ensures InRefsExcept(S, R, x) >= multiset(S[y])[x]
  {
    InRefsExceptAdd(S, R, y, x);
  }

  // ---------------------------------------------------------------------------
  // The invariant of the visit over the base graph `B`, piece by piece.  `R` is the
  // set of discovered vertices, `W` the white ones not yet discovered, `st` the stack.

  /** Undiscovered vertices keep their records, apart from their counts. */
  ghost predicate Survivors(B: Graph, g: Graph, R: set<Vid>) {
    |g| == |B|
    && forall x | 0 <= x < |g| && x !in R ::
         g[x] == B[x].(refCount := g[x].refCount) && (!B[x].live ==> g[x].refCount == B[x].refCount)
  }

  /** The count of an undiscovered vertex is its handles plus the edges from the other
      undiscovered vertices; a discovered vertex is held by neither. */
  ghost predicate Holding(B: Graph, g: Graph, ext: seq<nat>, R: set<Vid>) {
    |ext| == |B| == |g|
    && forall x | 0 <= x < |B| && B[x].live ::
         if x in R then ext[x] == 0 && InRefsExcept(Structure(B), R, x) == 0
         else g[x].refCount == ext[x] + InRefsExcept(Structure(B), R, x)
  }

  /** Discovered vertices were live, inactive and unobserved; those still on the stack
      keep their edges and have no count left, the others have been deleted. */
  ghost predicate Detached(B: Graph, g: Graph, R: set<Vid>, st: seq<Frame>) {
    |g| == |B|
    && forall x | x in R ::
         0 < x < |B| && B[x].live && !B[x].eager && !IsActive(B[x]) && B[x].consumers == []
         && if x in Frames(st) then g[x].live && g[x].args == B[x].args && g[x].refCount == 0
            else g[x] == Dead
  }

  /** The frames belong to distinct discovered vertices and stay within their edges. */
  ghost predicate Stacked(B: Graph, R: set<Vid>, st: seq<Frame>) {
    (forall k | 0 <= k < |st| :: st[k].x in R && st[k].x < |B| && st[k].i <= |B[st[k].x].args|)
    && forall k, k' | 0 <= k < k' < |st| :: st[k].x != st[k'].x
  }

  /** A white vertex is undiscovered, has no count left, and some frame will reach it. */
  ghost predicate WhitesAhead(B: Graph, g: Graph, R: set<Vid>, W: set<Vid>, st: seq<Frame>) {
    |g| == |B|
    && forall y | y in W ::
         y < |B| && y !in R && B[y].live && g[y].refCount == 0 && y in Remaining(Structure(B), st)
  }

  /** An undiscovered vertex that is not white and has no count left had none before. */
  ghost predicate Unreleased(B: Graph, g: Graph, R: set<Vid>, W: set<Vid>) {
    |g| == |B|
    && forall x | 0 <= x < |B| && x !in R && x !in W && B[x].live && g[x].refCount == 0 ::
         B[x].refCount == 0
  }

  /** The invariant of the visit.  Proof note: the body is a single comparison, so a use
      of the predicate does not bring in each conjunct. */
  ghost predicate Releasing(B: Graph, g: Graph, ext: seq<nat>, R: set<Vid>, W: set<Vid>, st: seq<Frame>) {
    (Survivors(B, g, R) && Holding(B, g, ext, R) && Detached(B, g, R, st) && Stacked(B, R, st)
     && WhitesAhead(B, g, R, W, st) && Unreleased(B, g, R, W)) == true
  }

  // ---------------------------------------------------------------------------
  // Discovering a vertex.

  lemma {:induction false} RemainingPush(S: seq<seq<Vid>>, st: seq<Frame>, f: Frame)
    ensures Remaining(S, st + [f]) == Remaining(S, st) + Rest(S, f)
    ensures Frames(st + [f]) == Frames(st) + {f.x}
  {
    assert (st + [f])[..|st|] == st;
  }

  /** Every count can take the release of an undiscovered vertex's edges. */
  lemma {:induction false} ReleaseReady(B: Graph, l: TopoList, ext: seq<nat>, g: Graph, R: set<Vid>, u: Vid)
    requires Closed(B, {}) && Holding(B, g, ext, R)
    requires u < |B| && u !in R && B[u].live
    ensures Fits(g, Structure(B)[u])
    ensures forall x | x in R :: x !in Structure(B)[u]
  {
    var S := Structure(B);
    forall x | 0 <= x < |g|
      ensures multiset(S[u])[x] <= g[x].refCount
      ensures x in R ==> x !in S[u]
    {
      if x in S[u] {
        var j :| 0 <= j < |S[u]| && S[u][j] == x;
        assert B[u].args[j].target == x;
        InRefsExceptOf(S, R, u, x);
      }
    }
  }

  /** A vertex with nothing left holding it is inactive and consumed by nobody. */
  lemma {:induction false} UnheldInactive(B: Graph, l: TopoList, g: Graph, R: set<Vid>, st: seq<Frame>, u: Vid)
    requires Matched(B) && EdgesActive(B, {}) && Observed(B, {}) && Detached(B, g, R, st)
    requires 0 < u < |B| && u !in R && !B[u].eager && InRefsExcept(Structure(B), R, u) == 0
    ensures B[u].consumers == [] && !IsActive(B[u])
  {
    if B[u].consumers != [] {
      var c := B[u].consumers[0];
      var j := ConsumerEdge(B, u, c);
      assert IsActive(B[c]);
      assert c !in R;
      assert Structure(B)[c][j] == u;
      InRefsExceptOf(Structure(B), R, c, u);
    }
  }

  /** The targets of a live vertex are older live vertices. */
  lemma {:induction false} TargetsBelow(B: Graph, l: TopoList, u: Vid)
    requires Shape(B, l) && Closed(B, {}) && u < |B| && B[u].live
    ensures forall y | y in Structure(B)[u] :: 0 < y < u && B[y].live
  {
    forall y | y in Structure(B)[u]
      ensures 0 < y < u && B[y].live
    {
      var j :| 0 <= j < |Structure(B)[u]| && Structure(B)[u][j] == y;
      assert VertexOk(B, u);
      assert ArgOk(B, u, B[u].args[j].target);
    }
  }

  /** Discovering `u`: the counts drop by `u`'s edges and `u` joins the discovered. */
  lemma {:induction false} DiscoverHolding(B: Graph, ext: seq<nat>, g: Graph, R: set<Vid>, u: Vid, g2: Graph)
    requires Holding(B, g, ext, R) && u < |B| && u !in R && B[u].live && g[u].refCount == 0
    requires Survivors(B, g, R + {u}) && forall y | y in Structure(B)[u] :: y < |B| && B[y].live
    requires Fits(g, Structure(B)[u]) && g2 == Lowered(g, Structure(B)[u])
    ensures Holding(B, g2, ext, R + {u}) && Survivors(B, g2, R + {u})
  {
    var S := Structure(B);
    forall x | 0 <= x < |B| && B[x].live
      ensures if x in R + {u} then ext[x] == 0 && InRefsExcept(S, R + {u}, x) == 0
              else g2[x].refCount == ext[x] + InRefsExcept(S, R + {u}, x)
    {
      InRefsExceptAdd(S, R, u, x);
    }
  }

  lemma {:induction false} DiscoverDetached(B: Graph, g: Graph, R: set<Vid>, st: seq<Frame>, u: Vid, g2: Graph)
    requires Detached(B, g, R, st) && Stacked(B, R, st)
    requires 0 < u < |B| && u !in R && B[u].live && !B[u].eager && !IsActive(B[u]) && B[u].consumers == []
    requires g[u].live && g[u].args == B[u].args && g[u].refCount == 0
    requires forall y | y in Structure(B)[u] :: y < u && y !in R
    requires Fits(g, Structure(B)[u]) && g2 == Lowered(g, Structure(B)[u])
    ensures Detached(B, g2, R + {u}, st + [Frame(u, 0)]) && Stacked(B, R + {u}, st + [Frame(u, 0)])
  {
    var S := Structure(B);
    RemainingPush(S, st, Frame(u, 0));
    assert u !in Frames(st);
    forall x | x in R
      ensures g2[x] == g[x]
    {
      assert x !in S[u];
    }
    assert u !in S[u];
  }

  lemma {:induction false} DiscoverWhites(B: Graph, g: Graph, R: set<Vid>, W: set<Vid>, st: seq<Frame>, u: Vid, g2: Graph, W2: set<Vid>)
    requires WhitesAhead(B, g, R, W - {u}, st) && Unreleased(B, g, R, W + {u})
    requires u < |B| && u !in R
    requires forall y | y in Structure(B)[u] :: y < u && B[y].live && y !in R
    requires Fits(g, Structure(B)[u]) && g2 == Lowered(g, Structure(B)[u])
    requires forall y :: y in W2 <==> (y in W && y != u) || (y in Structure(B)[u] && y < |g2| && g2[y].refCount == 0)
    ensures WhitesAhead(B, g2, R + {u}, W2, st + [Frame(u, 0)]) && Unreleased(B, g2, R + {u}, W2)
  {
    var S := Structure(B);
    RemainingPush(S, st, Frame(u, 0));
    assert Rest(S, Frame(u, 0)) == set y | y in S[u];
  }

  /** Discovering `u`, whether it is the start vertex or a white target of the top frame:
      its edges are released, the targets left without count turn white, and a frame for
      `u` is pushed. */
  lemma {:induction false} DiscoverKeeps(B: Graph, l: TopoList, ext: seq<nat>, g: Graph, R: set<Vid>, W: set<Vid>,
                      st: seq<Frame>, u: Vid, g2: Graph, W2: set<Vid>)
    requires Inv(B, l, ext)
    requires 0 < u < |B| && u !in R && B[u].live && !B[u].eager
    requires Survivors(B, g, R + {u}) && g[u].live && g[u].args == B[u].args && g[u].refCount == 0
    requires Holding(B, g, ext, R) && Detached(B, g, R, st) && Stacked(B, R, st)
    requires WhitesAhead(B, g, R, W - {u}, st) && Unreleased(B, g, R, W + {u})
    requires Fits(g, Structure(B)[u]) && g2 == Lowered(g, Structure(B)[u])
    requires forall y :: y in W2 <==> (y in W && y != u) || (y in Structure(B)[u] && y < |g2| && g2[y].refCount == 0)
    ensures Releasing(B, g2, ext, R + {u}, W2, st + [Frame(u, 0)])
  {
    ReleaseReady(B, l, ext, g, R, u);
    TargetsBelow(B, l, u);
    assert InRefsExcept(Structure(B), R, u) == 0;
    UnheldInactive(B, l, g, R, st, u);
    hide Inv;
    DiscoverHolding(B, ext, g, R, u, g2);
    DiscoverDetached(B, g, R, st, u, g2);
    DiscoverWhites(B, g, R, W, st, u, g2, W2);
  }

  // ---------------------------------------------------------------------------
  // Examining an edge and finishing a frame.

  /** The top frame moved past its next edge. */
  function Advanced(st: seq<Frame>): (r: seq<Frame>)
    requires st != []
    ensures |r| == |st| && r[..|r| - 1] == st[..|st| - 1]
  {
    st[|st| - 1 := Frame(st[|st| - 1].x, st[|st| - 1].i + 1)]
  }

  lemma {:induction false} AdvanceStack(B: Graph, R: set<Vid>, st: seq<Frame>)
    requires Stacked(B, R, st) && st != [] && st[|st| - 1].i < |B[st[|st| - 1].x].args|
    ensures Stacked(B, R, Advanced(st)) && Frames(Advanced(st)) == Frames(st)
    ensures var f := st[|st| - 1];
            Remaining(Structure(B), st) <= Remaining(Structure(B), Advanced(st)) + {Structure(B)[f.x][f.i]}
    ensures Work(Structure(B), Advanced(st)) < Work(Structure(B), st)
  {
    var f := st[|st| - 1];
    assert f in st;
    FramesAdvanced(st);
    RemainingAdvanced(Structure(B), st);
  }

  lemma {:induction false} FramesAdvanced(st: seq<Frame>)
    requires st != []
    ensures Frames(Advanced(st)) == Frames(st)
  {
    var r := Advanced(st);
    assert st == st[..|st| - 1] + [st[|st| - 1]];
    assert r == r[..|r| - 1] + [r[|r| - 1]];
    RemainingPush([], st[..|st| - 1], st[|st| - 1]);
    RemainingPush([], st[..|st| - 1], r[|r| - 1]);
  }

  lemma {:induction false} RemainingAdvanced(S: seq<seq<Vid>>, st: seq<Frame>)
    requires st != [] && st[|st| - 1].x < |S| && st[|st| - 1].i < |S[st[|st| - 1].x]|
    ensures var f := st[|st| - 1];
            Remaining(S, st) <= Remaining(S, Advanced(st)) + {S[f.x][f.i]}
    ensures Work(S, Advanced(st)) < Work(S, st)
  {
    var f, r := st[|st| - 1], Advanced(st);
    assert S[f.x][f.i..] == [S[f.x][f.i]] + S[f.x][f.i + 1..];
    assert Rest(S, f) == {S[f.x][f.i]} + Rest(S, r[|r| - 1]);
  }

  /** The top frame belongs to a discovered vertex that still has its edges. */
  lemma {:induction false} TopFrame(B: Graph, g: Graph, ext: seq<nat>, R: set<Vid>, W: set<Vid>, st: seq<Frame>)
    requires Releasing(B, g, ext, R, W, st) && st != []
    ensures var f := st[|st| - 1];
            |g| == |B| && f.x in R && f.x < |g| && g[f.x].live && g[f.x].args == B[f.x].args && f.i <= |B[f.x].args|
  {
    var f := st[|st| - 1];
    assert f in st;
  }

  /** Examining the next edge of the top frame keeps the invariant, except that its
      target, if white, is now due for discovery; it makes the work smaller. */
  lemma {:induction false} AdvanceKeeps(B: Graph, l: TopoList, ext: seq<nat>, g: Graph, R: set<Vid>, W: set<Vid>, st: seq<Frame>)
    requires Inv(B, l, ext) && Releasing(B, g, ext, R, W, st)
    requires st != [] && st[|st| - 1].i < |B[st[|st| - 1].x].args|
    ensures var f := st[|st| - 1];
            var y := B[f.x].args[f.i].target;
            var st2 := Advanced(st);
            f.x in R && 0 < y < |B| && !B[y].eager && y == Structure(B)[f.x][f.i]
            && Survivors(B, g, R) && Holding(B, g, ext, R) && Detached(B, g, R, st2) && Stacked(B, R, st2)
            && WhitesAhead(B, g, R, W - {y}, st2) && Unreleased(B, g, R, W)
            && (y !in W ==> Releasing(B, g, ext, R, W, st2))
            && (y in W ==> y !in R && B[y].live && g[y].live && g[y].args == B[y].args && g[y].refCount == 0)
            && Work(Structure(B), st2) < Work(Structure(B), st)
  {
    var f := st[|st| - 1];
    assert f in st;
    assert VertexOk(B, f.x);
    assert ArgOk(B, f.x, B[f.x].args[f.i].target);
    AdvanceStack(B, R, st);
  }

  lemma {:induction false} FinishStack(B: Graph, R: set<Vid>, st: seq<Frame>)
    requires Stacked(B, R, st) && st != [] && st[|st| - 1].i == |B[st[|st| - 1].x].args|
    ensures Stacked(B, R, st[..|st| - 1])
    ensures Frames(st[..|st| - 1]) == Frames(st) - {st[|st| - 1].x}
    ensures Remaining(Structure(B), st) == Remaining(Structure(B), st[..|st| - 1])
    ensures Work(Structure(B), st[..|st| - 1]) < Work(Structure(B), st)
  {
    FinishFrames(B, R, st);
    FinishRest(Structure(B), st);
  }

  lemma {:induction false} FinishFrames(B: Graph, R: set<Vid>, st: seq<Frame>)
    requires Stacked(B, R, st) && st != []
    ensures Stacked(B, R, st[..|st| - 1])
    ensures Frames(st[..|st| - 1]) == Frames(st) - {st[|st| - 1].x}
  {
    var f := st[|st| - 1];
    assert st == st[..|st| - 1] + [f];
    RemainingPush(Structure(B), st[..|st| - 1], f);
    forall k | 0 <= k < |st| - 1
      ensures st[k].x != f.x
    {
    }
  }

  lemma {:induction false} FinishRest(S: seq<seq<Vid>>, st: seq<Frame>)
    requires st != [] && st[|st| - 1].x < |S| && st[|st| - 1].i == |S[st[|st| - 1].x]|
    ensures Remaining(S, st) == Remaining(S, st[..|st| - 1])
    ensures Work(S, st[..|st| - 1]) < Work(S, st)
  {
    assert Rest(S, st[|st| - 1]) == {};
  }

  /** Finishing the top frame: its vertex has no count left and is deleted, and the
      work gets smaller. */
  lemma {:induction false} FinishKeeps(B: Graph, ext: seq<nat>, g: Graph, R: set<Vid>, W: set<Vid>, st: seq<Frame>)
    requires Releasing(B, g, ext, R, W, st)
    requires st != [] && st[|st| - 1].i == |B[st[|st| - 1].x].args|
    ensures var x := st[|st| - 1].x;
            x < |g| && g[x].live && g[x].refCount == 0
            && Releasing(B, g[x := Dead], ext, R, W, st[..|st| - 1])
            && Work(Structure(B), st[..|st| - 1]) < Work(Structure(B), st)
  {
    var f := st[|st| - 1];
    assert f in st;
    FinishStack(B, R, st);
    FinishDetached(B, g, R, st, st[..|st| - 1], f.x);
    FinishOthers(B, ext, g, R, W, st, st[..|st| - 1], f.x);
  }

  lemma {:induction false} FinishDetached(B: Graph, g: Graph, R: set<Vid>, st: seq<Frame>, st2: seq<Frame>, x: Vid)
    requires Detached(B, g, R, st) && x in R && Frames(st2) == Frames(st) - {x}
    ensures Detached(B, g[x := Dead], R, st2)
  {
  }

  lemma {:induction false} FinishOthers(B: Graph, ext: seq<nat>, g: Graph, R: set<Vid>, W: set<Vid>,
                                        st: seq<Frame>, st2: seq<Frame>, x: Vid)
    requires Survivors(B, g, R) && Holding(B, g, ext, R) && WhitesAhead(B, g, R, W, st)
    requires Unreleased(B, g, R, W) && x in R && x < |g|
    requires Remaining(Structure(B), st) == Remaining(Structure(B), st2)
    ensures Survivors(B, g[x := Dead], R) && Holding(B, g[x := Dead], ext, R)
    ensures WhitesAhead(B, g[x := Dead], R, W, st2) && Unreleased(B, g[x := Dead], R, W)
  {
  }

  // ---------------------------------------------------------------------------
  // Starting and ending the visit.

  /** The visit from `v` can start: `v` is the first vertex to discover, and `g` is the
      base graph apart from `v`'s record beyond its edges. */
  lemma {:induction false} StartKeeps(B: Graph, l: TopoList, ext: seq<nat>, g: Graph, v: Vid)
    requires Counted(B, ext) && v < |B| && B[v].refCount == 0
    requires |g| == |B| && forall x | 0 <= x < |g| && x != v :: g[x] == B[x]
    requires g[v].refCount == B[v].refCount
    ensures Survivors(B, g, {v}) && Holding(B, g, ext, {}) && Detached(B, g, {}, []) && Stacked(B, {}, [])
    ensures WhitesAhead(B, g, {}, {v} - {v}, []) && Unreleased(B, g, {}, {v} + {v})
  {
    forall x | 0 <= x < |B|
      ensures InRefsExcept(Structure(B), {}, x) == InRefs(Structure(B), x)
    {
      InRefsExceptNone(Structure(B), x);
    }
  }

  /** Every discovered vertex other than `v` is a target of a discovered vertex. */
  ghost predicate Reached(S: seq<seq<Vid>>, R: set<Vid>, v: Vid) {
    forall x | x in R :: x == v || exists y | y in R :: y < |S| && x in S[y]
  }

  /** How the graph looks once the stack is empty: every discovered vertex is deleted,
      every other one has its base record apart from its count. */
  ghost predicate Swept(B: Graph, g: Graph, R: set<Vid>) {
    |g| == |B|
    && forall x | 0 <= x < |g| ::
         if x in R then g[x] == Dead
         else g[x] == B[x].(refCount := g[x].refCount) && (!B[x].live ==> g[x] == B[x])
  }

  /** No undiscovered live vertex has an edge into a discovered one. */
  ghost predicate Cut(B: Graph, R: set<Vid>) {
    forall x, j | 0 <= x < |B| && x !in R && 0 <= j < |B[x].args| :: B[x].args[j].target !in R
  }

  /** The facts about an empty stack that the rest of the proof uses. */
  lemma {:induction false} Emptied(B: Graph, ext: seq<nat>, g: Graph, R: set<Vid>, W: set<Vid>)
    requires Releasing(B, g, ext, R, W, [])
    ensures W == {} && Swept(B, g, R) && Cut(B, R)
    ensures forall x | x in R :: 0 < x < |B| && B[x].live && !IsActive(B[x]) && B[x].consumers == []
  {
    var S := Structure(B);
    forall x, j | 0 <= x < |B| && x !in R && 0 <= j < |B[x].args|
      ensures B[x].args[j].target !in R
    {
      var t := B[x].args[j].target;
      if t in R {
        assert S[x][j] == t;
        InRefsExceptOf(S, R, x, t);
      }
    }
  }

  lemma {:induction false} DoneShape(B: Graph, l: TopoList, g: Graph, R: set<Vid>)
    requires Shape(B, l) && Placement(B, l) && Closed(B, {}) && Swept(B, g, R) && Cut(B, R)
    requires forall x | x in R :: 0 < x < |B| && B[x].live && !IsActive(B[x])
    ensures Shape(g, l) && Placement(g, l) && Closed(g, {})
  {
    forall x | 0 <= x < |g|
      ensures VertexOk(g, x)
    {
      if x in R {
        assert g[x] == Dead;
      } else {
        assert VertexOk(B, x) && g[x] == B[x].(refCount := g[x].refCount);
        forall j | 0 <= j < |g[x].args|
          ensures ArgOk(g, x, g[x].args[j].target)
        {
          var t := B[x].args[j].target;
          assert ArgOk(B, x, t) && t !in R;
          assert g[t] == B[t].(refCount := g[t].refCount);
        }
      }
    }
  }

  lemma {:induction false} DoneEdges(B: Graph, l: TopoList, g: Graph, R: set<Vid>)
    requires EdgesActive(B, {}) && EdgesPlaced(B, {}) && Sorted(B, l, {}, {}) && Observed(B, {})
    requires EagerOk(B, {}) && Swept(B, g, R) && Cut(B, R) && Closed(B, {})
    ensures EdgesActive(g, {}) && EdgesPlaced(g, {}) && Sorted(g, l, {}, {}) && Observed(g, {})
    ensures EagerOk(g, {})
  {
    forall x, j | 0 <= x < |g| && 0 <= j < |g[x].args| && g[x].args[j].enabled
      ensures var t := g[x].args[j].target;
              t < |g| && IsActive(g[x]) && g[t].positioned && Precedes(l, Pos(g, t), x)
    {
      var t := B[x].args[j].target;
      assert x !in R && t !in R;
      assert g[t] == B[t].(refCount := g[t].refCount);
    }
  }

  lemma {:induction false} DoneMatched(B: Graph, g: Graph, R: set<Vid>)
    requires Matched(B) && EdgesActive(B, {}) && Swept(B, g, R)
    requires forall x | x in R :: x < |B| && !IsActive(B[x]) && B[x].consumers == []
    ensures Matched(g)
  {
    forall x: Vid, w | 0 <= w < |g|
      ensures multiset(g[w].consumers)[x] == if x < |g| then multiset(EnabledTargets(g[x].args))[w] else 0
    {
      assert multiset(B[w].consumers)[x] == if x < |B| then multiset(EnabledTargets(B[x].args))[w] else 0;
      if x in R {
        EnabledTargetsEmpty(B[x].args);
      }
    }
  }

  lemma {:induction false} DoneCounted(B: Graph, ext: seq<nat>, g: Graph, R: set<Vid>)
    requires Counted(B, ext) && Holding(B, g, ext, R) && Swept(B, g, R)
    requires forall x | x in R :: x < |B| && B[x].live
    ensures Counted(g, ext)
  {
    var S := Structure(B);
    forall x | 0 <= x < |g| && g[x].live
      ensures g[x].refCount == ext[x] + InRefs(Structure(g), x)
    {
      InRefsReleased(S, Structure(g), R, x);
    }
  }

  /** When the stack is empty the engine invariant holds again, nothing is white, and
      exactly the discovered vertices have been deleted. */
  lemma {:induction false} DoneKeeps(B: Graph, l: TopoList, ext: seq<nat>, g: Graph, R: set<Vid>, W: set<Vid>)
    requires Inv(B, l, ext) && Releasing(B, g, ext, R, W, [])
    ensures Inv(g, l, ext) && W == {} && Swept(B, g, R)
    ensures forall x | x in R :: x < |B| && B[x].live
    ensures forall x | 0 <= x < |B| && x !in R && B[x].live && g[x].refCount == 0 :: B[x].refCount == 0
  {
    Emptied(B, ext, g, R, W);
    DoneShape(B, l, g, R);
    DoneEdges(B, l, g, R);
    DoneMatched(B, g, R);
    DoneCounted(B, ext, g, R);
  }

  // ---------------------------------------------------------------------------
  // The eager pre-step.

  /** An eager vertex after its logical edge is removed and its position reset. */
  function DetachedG(g: Graph, v: Vid): (r: Graph)
    requires v < |g|
    ensures |r| == |g|
  {
    g[v := g[v].(activator := None, positioned := false)]
  }

  /** The base graph of the visit from a detached eager vertex. */
  function Base(g: Graph, v: Vid): (r: Graph)
    requires v < |g|
    ensures |r| == |g|
  {
    Cleared(DetachedG(g, v), v)
  }

  lemma {:induction false} DetachShape(g: Graph, l: TopoList, v: Vid)
    requires Shape(g, l) && Placement(g, l) && Closed(g, {}) && 0 < v < |g| && IsActive(g[v]) && g[v].eager
    ensures Shape(Base(g, v), Erase(l, v)) && Placement(Base(g, v), Erase(l, v)) && Closed(Base(g, v), {})
  {
    var r := Base(g, v);
    EraseFacts(l, v);
    EraseFront(l, v);
    forall x | 0 <= x < |r|
      ensures VertexOk(r, x)
    {
      assert VertexOk(g, x);
      forall i | 0 <= i < |r[x].args|
        ensures ArgOk(r, x, r[x].args[i].target)
      {
        assert ArgOk(g, x, g[x].args[i].target);
      }
    }
  }

  lemma {:induction false} DetachEdges(g: Graph, l: TopoList, v: Vid)
    requires Shape(g, l) && EdgesActive(g, {}) && EdgesPlaced(g, {}) && Sorted(g, l, {}, {})
    requires Observed(g, {}) && EagerOk(g, {v})
    requires 0 < v < |g| && v in l.items && g[v].eager && forall j | 0 <= j < |g[v].args| :: !g[v].args[j].enabled
    ensures var r, l' := Base(g, v), Erase(l, v);
            EdgesActive(r, {}) && EdgesPlaced(r, {}) && Sorted(r, l', {}, {}) && Observed(r, {}) && EagerOk(r, {})
  {
    var r, l' := Base(g, v), Erase(l, v);
    EraseFacts(l, v);
    forall x, i | 0 <= x < |r| && 0 <= i < |r[x].args| && r[x].args[i].enabled
      ensures var t := r[x].args[i].target;
              t < |r| && r[t].positioned && Precedes(l', Pos(r, t), x)
    {
      var t := g[x].args[i].target;
      assert VertexOk(g, x);
      assert ArgOk(g, x, t);
      assert r[x] == g[x] && t != v;
      assert Pos(r, t) == Pos(g, t);
    }
  }

  /** Disabling the data edge of an eager vertex, then removing its logical edge and
      its position, leaves a base graph for the visit: the engine invariant holds once
      the vertex is no longer taken as eager or initialized. */
  lemma {:induction false} DetachKeeps(g: Graph, l: TopoList, ext: seq<nat>, v: Vid)
    requires InvExcept(g, l, ext, v) && 0 < v < |g| && g[v].live && g[v].eager
    requires forall j | 0 <= j < |g[v].args| :: !g[v].args[j].enabled
    ensures v in l.items && Inv(Base(g, v), Erase(l, v), ext)
  {
    assert IsActive(g[v]);
    DetachShape(g, l, v);
    DetachEdges(g, l, v);
    assert SameEdges(g, Base(g, v));
    SameEdgesMatched(g, Base(g, v));
    SameEdgesCounted(g, Base(g, v), ext);
  }

  // ---------------------------------------------------------------------------
  // The steps of the visit as the engine takes them.

  /** The start vertex can be discovered: its targets are vertices whose counts can
      take the release. */
  lemma {:induction false} StartReady(B: Graph, l: TopoList, ext: seq<nat>, g: Graph, v: Vid)
    requires Inv(B, l, ext) && 0 < v < |B| && B[v].live
    requires |g| == |B| && forall x | 0 <= x < |g| && x != v :: g[x] == B[x]
    requires g[v].args == B[v].args && g[v].refCount == B[v].refCount
    ensures forall k | 0 <= k < |g[v].args| :: g[v].args[k].target < |g|
    ensures Fits(g, Targets(g[v].args))
  {
    forall x | 0 <= x < |B|
      ensures InRefsExcept(Structure(B), {}, x) == InRefs(Structure(B), x)
    {
      InRefsExceptNone(Structure(B), x);
    }
    assert Holding(B, g, ext, {});
    ReleaseReady(B, l, ext, g, {}, v);
  }

  /** Discovering the start vertex `v`, coloured white, begins the visit. */
  lemma {:induction false} StartVisit(B: Graph, l: TopoList, ext: seq<nat>, g: Graph, v: Vid, g2: Graph, W2: set<Vid>)
    requires Inv(B, l, ext) && 0 < v < |B| && B[v].live && !B[v].eager && B[v].refCount == 0
    requires |g| == |B| && forall x | 0 <= x < |g| && x != v :: g[x] == B[x]
    requires g[v].live && g[v].args == B[v].args && g[v].refCount == 0
    requires Fits(g, Targets(g[v].args)) && g2 == Lowered(g, Targets(g[v].args))
    requires forall z :: z in W2 <==> z in {v} - {v} || (z in Targets(g[v].args) && z < |g2| && g2[z].refCount == 0)
    ensures Releasing(B, g2, ext, {v}, W2, [Frame(v, 0)]) && Reached(Structure(B), {v}, v)
  {
    StartKeeps(B, l, ext, g, v);
    assert [] + [Frame(v, 0)] == [Frame(v, 0)];
    assert {} + {v} == {v};
    DiscoverKeeps(B, l, ext, g, {}, {v}, [], v, g2, W2);
  }

  /** Examining the next edge of the top frame when its target is not white. */
  lemma {:induction false} ExamineOther(B: Graph, l: TopoList, ext: seq<nat>, g: Graph, R: set<Vid>, W: set<Vid>, st: seq<Frame>)
    requires Inv(B, l, ext) && Releasing(B, g, ext, R, W, st)
    requires st != [] && st[|st| - 1].i < |B[st[|st| - 1].x].args|
    requires B[st[|st| - 1].x].args[st[|st| - 1].i].target !in W
    ensures Releasing(B, g, ext, R, W, Advanced(st)) && Work(Structure(B), Advanced(st)) < Work(Structure(B), st)
  {
    AdvanceKeeps(B, l, ext, g, R, W, st);
  }

  /** A white target of the top frame can be discovered. */
  lemma {:induction false} ExamineReady(B: Graph, l: TopoList, ext: seq<nat>, g: Graph, R: set<Vid>, W: set<Vid>, st: seq<Frame>)
    requires Inv(B, l, ext) && Releasing(B, g, ext, R, W, st)
    requires st != [] && st[|st| - 1].i < |B[st[|st| - 1].x].args|
    requires B[st[|st| - 1].x].args[st[|st| - 1].i].target in W
    ensures var y := B[st[|st| - 1].x].args[st[|st| - 1].i].target;
            y < |g| && y !in R && forall k | 0 <= k < |g[y].args| :: g[y].args[k].target < |g|
    ensures var y := B[st[|st| - 1].x].args[st[|st| - 1].i].target;
            Fits(g, Targets(g[y].args))
  {
    AdvanceKeeps(B, l, ext, g, R, W, st);
    var y := B[st[|st| - 1].x].args[st[|st| - 1].i].target;
    ReleaseReady(B, l, ext, g, R, y);
    TargetsBelow(B, l, y);
  }

  /** Examining a white target of the top frame discovers it. */
  lemma {:induction false} ExamineWhite(B: Graph, l: TopoList, ext: seq<nat>, g: Graph, R: set<Vid>, W: set<Vid>,
                                        st: seq<Frame>, v: Vid, g2: Graph, W2: set<Vid>)
    requires Inv(B, l, ext) && Releasing(B, g, ext, R, W, st) && Reached(Structure(B), R, v)
    requires st != [] && st[|st| - 1].i < |B[st[|st| - 1].x].args|
    requires var y := B[st[|st| - 1].x].args[st[|st| - 1].i].target;
             y in W && y < |g| && Fits(g, Targets(g[y].args)) && g2 == Lowered(g, Targets(g[y].args))
             && forall z :: z in W2 <==> z in W - {y} || (z in Targets(g[y].args) && z < |g2| && g2[z].refCount == 0)
    ensures var y := B[st[|st| - 1].x].args[st[|st| - 1].i].target;
            Releasing(B, g2, ext, R + {y}, W2, Advanced(st) + [Frame(y, 0)])
            && Reached(Structure(B), R + {y}, v)
  {
    hide Inv, Releasing, Reached, Survivors, Holding, Detached, Stacked, WhitesAhead, Unreleased, Fits, Lowered;
    TopFrame(B, g, ext, R, W, st);
    var y := B[st[|st| - 1].x].args[st[|st| - 1].i].target;
    ExamineSetup(B, l, ext, g, R, W, st, v);
    assert Structure(B)[y] == Targets(g[y].args);
    WhitesRenamed(W, W2, y, Targets(g[y].args), g2);
    DiscoverKeeps(B, l, ext, g, R, W, Advanced(st), y, g2, W2);
  }

  /** The facts about a white target that its discovery needs. */
  lemma {:induction false} ExamineSetup(B: Graph, l: TopoList, ext: seq<nat>, g: Graph, R: set<Vid>, W: set<Vid>,
                                        st: seq<Frame>, v: Vid)
    requires Inv(B, l, ext) && Releasing(B, g, ext, R, W, st) && Reached(Structure(B), R, v)
    requires st != [] && st[|st| - 1].i < |B[st[|st| - 1].x].args|
    requires B[st[|st| - 1].x].args[st[|st| - 1].i].target in W
    ensures var y := B[st[|st| - 1].x].args[st[|st| - 1].i].target;
            var st2 := Advanced(st);
            0 < y < |B| && y !in R && B[y].live && !B[y].eager
            && Survivors(B, g, R + {y}) && g[y].live && g[y].args == B[y].args && g[y].refCount == 0
            && Holding(B, g, ext, R) && Detached(B, g, R, st2) && Stacked(B, R, st2)
            && WhitesAhead(B, g, R, W - {y}, st2) && Unreleased(B, g, R, W + {y})
            && Reached(Structure(B), R + {y}, v)
  {
    hide Inv, Releasing, Reached, Survivors, Holding, Detached, Stacked, WhitesAhead, Unreleased, Fits, Lowered;
    TopFrame(B, g, ext, R, W, st);
    var f := st[|st| - 1];
    var y := B[f.x].args[f.i].target;
    AdvanceKeeps(B, l, ext, g, R, W, st);
    ReachedAdd(Structure(B), R, v, f.x, y);
    SurvivorsAdd(B, g, R, y);
    assert W + {y} == W;
  }

  /** The white set after discovering `y`, written as its discovery states it. */
  lemma {:induction false} WhitesRenamed(W: set<Vid>, W2: set<Vid>, y: Vid, ts: seq<Vid>, g2: Graph)
    requires forall z :: z in W2 <==> z in W - {y} || (z in ts && z < |g2| && g2[z].refCount == 0)
    ensures forall z :: z in W2 <==> (z in W && z != y) || (z in ts && z < |g2| && g2[z].refCount == 0)
  {
  }

  /** A discovered vertex leaves the survivors. */
  lemma {:induction false} SurvivorsAdd(B: Graph, g: Graph, R: set<Vid>, y: Vid)
    requires Survivors(B, g, R)
    ensures Survivors(B, g, R + {y})
  {
  }

  /** A target of a discovered vertex may join the discovered ones. */
  lemma {:induction false} ReachedAdd(S: seq<seq<Vid>>, R: set<Vid>, v: Vid, x: Vid, y: Vid)
    requires Reached(S, R, v) && x in R && x < |S| && y in S[x]
    ensures Reached(S, R + {y}, v)
  {
    assert x in R + {y};
  }

  // ---------------------------------------------------------------------------
  // What the teardown did, told against the graph before it.

  /** Detaching an eager vertex keeps every other vertex's static part, and the detached
      vertex's liveness and structural edges. */
  lemma {:induction false} BaseSkeleton(O: Graph, g1: Graph, v: Vid)
    requires SameSkeleton(O, g1) && v < |g1|
    ensures |Base(g1, v)| == |O| && Base(g1, v)[v].live == O[v].live
    ensures Disabled(Base(g1, v)[v].args) == Disabled(O[v].args)
    ensures forall x | 0 <= x < |O| && x != v :: Skel(Base(g1, v)[x]) == Skel(O[x])
  {
    assert Skel(g1[v]) == Skel(O[v]);
  }

  /** The survivors of a visit over `B` keep everything but their counts, and nothing
      else can be told apart from `B`. */
  lemma {:induction false} SweptSurvivors(B: Graph, g: Graph, R: set<Vid>)
    requires Swept(B, g, R)
    ensures forall x | 0 <= x < |g| && g[x].live :: x !in R && g[x] == B[x].(refCount := g[x].refCount)
  {
    forall x | 0 <= x < |g| && g[x].live
      ensures x !in R && g[x] == B[x].(refCount := g[x].refCount)
    {
    }
  }

  /** The effect of the teardown from `v` on the graph `O` it started from, given that
      the visit ran over `B`, which has `O`'s static part except for `v`'s flags. */
  lemma {:induction false} TeardownEffect(O: Graph, B: Graph, g: Graph, R: set<Vid>, v: Vid)
    requires |O| == |B| && 0 < v < |B| && O[v].live == B[v].live && Disabled(B[v].args) == Disabled(O[v].args)
    requires forall x | 0 <= x < |B| && x != v :: Skel(B[x]) == Skel(O[x])
    requires v in R && Swept(B, g, R) && Reached(Structure(B), R, v)
    requires forall x | x in R :: x < |B| && B[x].live
    requires forall x | 0 <= x < |B| && x !in R && B[x].live && g[x].refCount == 0 :: B[x].refCount == 0
    ensures |g| == |O| && !g[v].live
    ensures forall x | 0 <= x < |g| && g[x].live && g[x].refCount == 0 :: O[x].refCount == 0
    ensures forall x | 0 <= x < |g| && O[x].live && !g[x].live ::
              x == v || exists y | 0 <= y < |g| && O[y].live && !g[y].live :: x in Targets(O[y].args)
    ensures forall x | 0 <= x < |g| && g[x].live :: Skel(g[x]) == Skel(O[x].(refCount := g[x].refCount))
  {
    SweptSurvivors(B, g, R);
    forall x | 0 <= x < |g| && g[x].live
      ensures Skel(g[x]) == Skel(O[x].(refCount := g[x].refCount)) && (g[x].refCount == 0 ==> O[x].refCount == 0)
    {
      assert Skel(B[x]) == Skel(O[x]);
    }
    forall x | 0 <= x < |g| && O[x].live && !g[x].live
      ensures x == v || exists y | 0 <= y < |g| && O[y].live && !g[y].live :: x in Targets(O[y].args)
    {
      if x != v {
        assert Skel(B[x]) == Skel(O[x]);
        var y :| y in R && y < |Structure(B)| && x in Structure(B)[y];
        if y != v {
          assert Skel(B[y]) == Skel(O[y]);
        }
        TargetsOfSkel(B[y].args, O[y].args);
      }
    }
  }
}
