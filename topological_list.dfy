/**
 * The topological order of the active vertices (the engine's `order_`).
 *
 * The list type itself is not part of the modelled sources; its operations are
 * given the meaning the engine's uses imply: `insert(pos, v)` puts `v`
 * immediately before `pos`, `order(a, b)` says that `a` precedes `b`,
 * `begin_marked()` is the earliest marked position.  A position is identified
 * with the vertex stored in it, so a list is a sequence of distinct vertex
 * descriptors together with the set of marked ones.
 */
module TopologicalList {
  import opened Wrappers

  /** A vertex descriptor: the index of a vertex in the engine's vertex arena. */
  type Vid = nat

  datatype TopoList = TopoList(items: seq<Vid>, marked: set<Vid>)

  predicate Distinct(s: seq<Vid>) {
    forall i, j | 0 <= i < j < |s| :: s[i] != s[j]
  }

  /** Positions are distinct and only present positions are marked. */
  ghost predicate Wf(l: TopoList) {
    Distinct(l.items) && forall m | m in l.marked :: m in l.items
  }

  function IndexOf(s: seq<Vid>, v: Vid): (i: nat)
    requires v in s
    ensures i < |s| && s[i] == v
    ensures forall k | 0 <= k < i :: s[k] != v
  {
    if s[0] == v then 0 else 1 + IndexOf(s[1..], v)
  }

  lemma IndexOfAt(s: seq<Vid>, k: nat)
    requires Distinct(s) && k < |s|
    ensures IndexOf(s, s[k]) == k
  {
  }

  /** `order(a, b)`: position `a` comes before position `b`. */
  predicate Precedes(l: TopoList, a: Vid, b: Vid) {
    a in l.items && b in l.items && IndexOf(l.items, a) < IndexOf(l.items, b)
  }

  /** `insert(pos, v)`: a new position for `v`, immediately before `pos`. */
  function Insert(l: TopoList, pos: Vid, v: Vid): (r: TopoList)
    requires pos in l.items && v !in l.items
    ensures r.marked == l.marked
    ensures |r.items| == |l.items| + 1
    ensures forall x :: x in r.items <==> x == v || x in l.items
  {
    var k := IndexOf(l.items, pos);
    assert l.items == l.items[..k] + l.items[k..];
    TopoList(l.items[..k] + [v] + l.items[k..], l.marked)
  }

  /** `insert(end(), v)`: a new last position for `v`. */
  function InsertBack(l: TopoList, v: Vid): (r: TopoList)
    requires v !in l.items
    ensures r.marked == l.marked
    ensures forall x :: x in r.items <==> x == v || x in l.items
  {
    TopoList(l.items + [v], l.marked)
  }

  /** `erase(pos)`: the position disappears, and with it its mark. */
  function Erase(l: TopoList, v: Vid): (r: TopoList)
    requires v in l.items
    ensures r.marked == l.marked - {v}
    ensures |r.items| == |l.items| - 1
  {
    var k := IndexOf(l.items, v);
    TopoList(l.items[..k] + l.items[k + 1..], l.marked - {v})
  }

  function Mark(l: TopoList, v: Vid): (r: TopoList)
    ensures r.items == l.items && r.marked == l.marked + {v}
  {
    TopoList(l.items, l.marked + {v})
  }

  function Unmark(l: TopoList, v: Vid): (r: TopoList)
    ensures r.items == l.items && r.marked == l.marked - {v}
  {
    TopoList(l.items, l.marked - {v})
  }

  /** The first element of `s` that lies in `m`. */
  function FirstIn(s: seq<Vid>, m: set<Vid>): (r: Option<nat>)
    ensures r.Some? ==> r.value < |s| && s[r.value] in m && forall k | 0 <= k < r.value :: s[k] !in m
    ensures r.None? ==> forall k | 0 <= k < |s| :: s[k] !in m
  {
    if s == [] then None
    else if s[0] in m then Some(0)
    else match FirstIn(s[1..], m)
      case None => None
      case Some(i) => Some(i + 1)
  }

  /** `begin_marked()`: the earliest marked position, if there is one. */
  function BeginMarked(l: TopoList): (r: Option<Vid>)
  {
    match FirstIn(l.items, l.marked)
    case None => None
    case Some(i) => Some(l.items[i])
  }

  /** How many positions there are from the earliest mark to the end: zero when nothing
      is marked.  The pump's loop makes it smaller in every round. */
  function Pending(l: TopoList): nat {
    match FirstIn(l.items, l.marked)
    case None => 0
    case Some(i) => |l.items| - i
  }

  // ---------------------------------------------------------------------------
  // Properties of the list operations.

  lemma {:induction false} BeginMarkedIsEarliest(l: TopoList)
    requires Wf(l)
    ensures BeginMarked(l).None? <==> l.marked == {}
    ensures BeginMarked(l).Some? ==>
              var p := BeginMarked(l).value;
              p in l.marked && forall m | m in l.marked && m != p :: Precedes(l, p, m)
  {
    match FirstIn(l.items, l.marked)
    case None =>
    case Some(i) =>
      var p := l.items[i];
      IndexOfAt(l.items, i);
      forall m | m in l.marked && m != p
        ensures Precedes(l, p, m)
      {
        var k := IndexOf(l.items, m);
        assert !(k < i);
      }
  }

  /** The element at index `i` of `s[..k] + [v] + s[k..]`. */
  lemma InsertAt(s: seq<Vid>, k: nat, v: Vid, i: nat)
    requires k <= |s| && i <= |s|
    ensures (s[..k] + [v] + s[k..])[i] == if i < k then s[i] else if i == k then v else s[i - 1]
  {
  }

  lemma InsertDistinct(s: seq<Vid>, k: nat, v: Vid)
    requires Distinct(s) && k <= |s| && v !in s
    ensures Distinct(s[..k] + [v] + s[k..])
  {
    var r := s[..k] + [v] + s[k..];
    forall i, j | 0 <= i < j < |r|
      ensures r[i] != r[j]
    {
      InsertAt(s, k, v, i);
      InsertAt(s, k, v, j);
    }
  }

  lemma InsertIndex(s: seq<Vid>, k: nat, v: Vid, a: Vid)
    requires Distinct(s) && k <= |s| && v !in s && a in s
    ensures IndexOf(s[..k] + [v] + s[k..], a) ==
            if IndexOf(s, a) < k then IndexOf(s, a) else IndexOf(s, a) + 1
  {
    var r := s[..k] + [v] + s[k..];
    InsertDistinct(s, k, v);
    var ia := IndexOf(s, a);
    var j := if ia < k then ia else ia + 1;
    InsertAt(s, k, v, j);
    IndexOfAt(r, j);
  }

  /** The element at index `i` of `s[..k] + s[k + 1..]`. */
  lemma EraseAt(s: seq<Vid>, k: nat, i: nat)
    requires k < |s| && i < |s| - 1
    ensures (s[..k] + s[k + 1..])[i] == if i < k then s[i] else s[i + 1]
  {
  }

  lemma EraseDistinct(s: seq<Vid>, k: nat)
    requires Distinct(s) && k < |s|
    ensures Distinct(s[..k] + s[k + 1..])
  {
    var r := s[..k] + s[k + 1..];
    forall i, j | 0 <= i < j < |r|
      ensures r[i] != r[j]
    {
      EraseAt(s, k, i);
      EraseAt(s, k, j);
    }
  }

  lemma EraseIndex(s: seq<Vid>, k: nat, a: Vid)
    requires Distinct(s) && k < |s| && a in s && a != s[k]
    ensures a in s[..k] + s[k + 1..]
    ensures IndexOf(s[..k] + s[k + 1..], a) ==
            if IndexOf(s, a) < k then IndexOf(s, a) else IndexOf(s, a) - 1
  {
    var r := s[..k] + s[k + 1..];
    EraseDistinct(s, k);
    var ia := IndexOf(s, a);
    var j := if ia < k then ia else ia - 1;
    EraseAt(s, k, j);
    IndexOfAt(r, j);
  }

  /** Inserting keeps the list well formed, places `v` immediately before `pos`
      and keeps the relative order of every other pair of positions. */
  lemma InsertFacts(l: TopoList, pos: Vid, v: Vid)
    requires Wf(l) && pos in l.items && v !in l.items
    ensures Wf(Insert(l, pos, v))
    ensures IndexOf(Insert(l, pos, v).items, v) + 1 == IndexOf(Insert(l, pos, v).items, pos)
    ensures forall x | x in l.items :: IndexOf(Insert(l, pos, v).items, x) ==
              if IndexOf(l.items, x) < IndexOf(l.items, pos) then IndexOf(l.items, x)
              else IndexOf(l.items, x) + 1
    ensures forall a, b | a != v && b != v :: Precedes(Insert(l, pos, v), a, b) <==> Precedes(l, a, b)
  {
    var s := l.items;
    var k := IndexOf(s, pos);
    var r := Insert(l, pos, v).items;
    assert r == s[..k] + [v] + s[k..];
    forall x | x in s
      ensures IndexOf(r, x) == if IndexOf(s, x) < k then IndexOf(s, x) else IndexOf(s, x) + 1
    {
      InsertIndex(s, k, v, x);
    }
    InsertIndex(s, k, v, pos);
    InsertDistinct(s, k, v);
    InsertAt(s, k, v, k);
    IndexOfAt(r, k);
    forall a, b | a != v && b != v
      ensures Precedes(Insert(l, pos, v), a, b) <==> Precedes(l, a, b)
    {
      if a in s && b in s {
        InsertIndex(s, k, v, a);
        InsertIndex(s, k, v, b);
      }
    }
  }

  lemma InsertBackFacts(l: TopoList, v: Vid)
    requires Wf(l) && v !in l.items
    ensures Wf(InsertBack(l, v))
    ensures forall x | x in l.items :: Precedes(InsertBack(l, v), x, v)
    ensures forall x | x in l.items :: IndexOf(InsertBack(l, v).items, x) == IndexOf(l.items, x)
    ensures forall a, b | a != v && b != v :: Precedes(InsertBack(l, v), a, b) <==> Precedes(l, a, b)
  {
    var s := l.items;
    var r := InsertBack(l, v).items;
    assert r == s[..|s|] + [v] + s[|s|..];
    InsertDistinct(s, |s|, v);
    forall x | x in s
      ensures IndexOf(r, x) == IndexOf(s, x)
    {
      InsertIndex(s, |s|, v, x);
    }
    assert r[|s|] == v;
    IndexOfAt(r, |s|);
  }

  /** Erasing keeps the list well formed and keeps the relative order of the
      remaining positions. */
  lemma EraseFacts(l: TopoList, v: Vid)
    requires Wf(l) && v in l.items
    ensures Wf(Erase(l, v))
    ensures forall x :: x in Erase(l, v).items <==> x in l.items && x != v
    ensures forall x | x in l.items && x != v :: IndexOf(Erase(l, v).items, x) ==
              if IndexOf(l.items, x) < IndexOf(l.items, v) then IndexOf(l.items, x)
              else IndexOf(l.items, x) - 1
    ensures forall a, b | a != v && b != v :: Precedes(Erase(l, v), a, b) <==> Precedes(l, a, b)
  {
    EraseItems(l, v);
    ErasePrecedes(l, v);
  }

  /** Erasing keeps the list well formed, removes exactly `v`, and shifts the positions
      after `v` down by one. */
  lemma EraseItems(l: TopoList, v: Vid)
    requires Wf(l) && v in l.items
    ensures Wf(Erase(l, v))
    ensures forall x :: x in Erase(l, v).items <==> x in l.items && x != v
    ensures forall x | x in l.items && x != v :: IndexOf(Erase(l, v).items, x) ==
              if IndexOf(l.items, x) < IndexOf(l.items, v) then IndexOf(l.items, x)
              else IndexOf(l.items, x) - 1
  {
    var s := l.items;
    var k := IndexOf(s, v);
    var r := Erase(l, v).items;
    assert r == s[..k] + s[k + 1..];
    EraseDistinct(s, k);
    forall x | x in s && x != v
      ensures x in r
      ensures IndexOf(r, x) == if IndexOf(s, x) < k then IndexOf(s, x) else IndexOf(s, x) - 1
    {
      EraseIndex(s, k, x);
    }
    forall x | x in r
      ensures x in s && x != v
    {
      var i := IndexOf(r, x);
      EraseAt(s, k, i);
      if i < k { IndexOfAt(s, i); } else { IndexOfAt(s, i + 1); }
    }
  }

  /** The shift keeps the relative order of the remaining positions. */
  lemma ErasePrecedes(l: TopoList, v: Vid)
    requires v in l.items
    requires forall x :: x in Erase(l, v).items <==> x in l.items && x != v
    requires forall x | x in l.items && x != v :: IndexOf(Erase(l, v).items, x) ==
               if IndexOf(l.items, x) < IndexOf(l.items, v) then IndexOf(l.items, x)
               else IndexOf(l.items, x) - 1
    ensures forall a, b | a != v && b != v :: Precedes(Erase(l, v), a, b) <==> Precedes(l, a, b)
  {
  }

  /** Erasing `v` and inserting it again before `pos` (a move) places `v`
      immediately before `pos` and keeps the relative order of all other positions. */
  lemma MoveFacts(l: TopoList, v: Vid, pos: Vid)
    requires Wf(l) && v in l.items && pos in l.items && pos != v
    ensures Wf(Insert(Erase(l, v), pos, v))
    ensures forall x :: x in Insert(Erase(l, v), pos, v).items <==> x in l.items
    ensures IndexOf(Insert(Erase(l, v), pos, v).items, v) + 1 == IndexOf(Insert(Erase(l, v), pos, v).items, pos)
    ensures forall a, b | a != v && b != v ::
              Precedes(Insert(Erase(l, v), pos, v), a, b) <==> Precedes(l, a, b)
  {
    EraseFacts(l, v);
    InsertFacts(Erase(l, v), pos, v);
  }

  /** Two different positions of a well-formed list are ordered one way or the other. */
  lemma PrecedesTotal(l: TopoList, a: Vid, b: Vid)
    requires Wf(l) && a in l.items && b in l.items && a != b
    ensures Precedes(l, a, b) || Precedes(l, b, a)
  {
  }

  lemma PrecedesTrans(l: TopoList, a: Vid, b: Vid, c: Vid)
    requires Precedes(l, a, b) && Precedes(l, b, c)
    ensures Precedes(l, a, c)
  {
  }

  /** The first position precedes every other one. */
  lemma FrontPrecedes(l: TopoList, x: Vid)
    requires Wf(l) && l.items != [] && x in l.items && x != l.items[0]
    ensures Precedes(l, l.items[0], x)
  {
  }

  /** Where the inserted position lies relative to the others. */
  lemma InsertOrder(l: TopoList, pos: Vid, v: Vid)
    requires Wf(l) && pos in l.items && v !in l.items
    ensures Wf(Insert(l, pos, v))
    ensures forall x | x != v :: Precedes(Insert(l, pos, v), v, x) <==> x == pos || Precedes(l, pos, x)
    ensures forall x | x != v :: Precedes(Insert(l, pos, v), x, v) <==> Precedes(l, x, pos)
    ensures forall a, b | a != v && b != v :: Precedes(Insert(l, pos, v), a, b) <==> Precedes(l, a, b)
    ensures pos != l.items[0] ==> Insert(l, pos, v).items[0] == l.items[0]
  {
    InsertFacts(l, pos, v);
    var r := Insert(l, pos, v);
    var k := IndexOf(l.items, pos);
    assert IndexOf(r.items, v) == k;
    forall x | x != v
      ensures Precedes(r, v, x) <==> x == pos || Precedes(l, pos, x)
      ensures Precedes(r, x, v) <==> Precedes(l, x, pos)
    {
      if x in l.items {
        assert IndexOf(r.items, x) == if IndexOf(l.items, x) < k then IndexOf(l.items, x) else IndexOf(l.items, x) + 1;
      }
    }
    if pos != l.items[0] {
      IndexOfAt(l.items, 0);
      assert IndexOf(r.items, l.items[0]) == 0;
    }
  }

  /** `erase(pos)` and `insert(to, v)` of the same vertex, keeping its mark: the move
      `enable_edge` and `disable_edge` make. */
  function MoveBefore(l: TopoList, v: Vid, to: Vid): (r: TopoList)
    requires Wf(l) && v in l.items && to in l.items && v != to
  {
    EraseFacts(l, v);
    var moved := Insert(Erase(l, v), to, v);
    if v in l.marked then Mark(moved, v) else moved
  }

  /** Erasing the first position of a list with more than one keeps it first. */
  lemma EraseFront(l: TopoList, v: Vid)
    requires Wf(l) && v in l.items && v != l.items[0]
    ensures Erase(l, v).items != [] && Erase(l, v).items[0] == l.items[0]
  {
    var k := IndexOf(l.items, v);
    IndexOfAt(l.items, 0);
    assert k > 0;
  }

  /** The moved position lies immediately before `to`, every other pair keeps its order,
      and the set of positions and the set of marked ones are unchanged. */
  lemma MoveOrder(l: TopoList, v: Vid, to: Vid)
    requires Wf(l) && v in l.items && to in l.items && v != to
    ensures Wf(MoveBefore(l, v, to))
    ensures forall x :: x in MoveBefore(l, v, to).items <==> x in l.items
    ensures MoveBefore(l, v, to).marked == l.marked
    ensures forall x | x != v :: Precedes(MoveBefore(l, v, to), v, x) <==> x == to || Precedes(l, to, x)
    ensures forall x | x != v :: Precedes(MoveBefore(l, v, to), x, v) <==> Precedes(l, x, to)
    ensures forall a, b | a != v && b != v :: Precedes(MoveBefore(l, v, to), a, b) <==> Precedes(l, a, b)
    ensures v != l.items[0] && to != l.items[0] ==> MoveBefore(l, v, to).items[0] == l.items[0]
  {
    EraseFacts(l, v);
    var e := Erase(l, v);
    InsertOrder(e, to, v);
    var m := Insert(e, to, v);
    var r := MoveBefore(l, v, to);
    assert r.items == m.items;
    assert forall a, b :: Precedes(r, a, b) == Precedes(m, a, b);
    forall x
      ensures x in r.items <==> x in l.items
    {
    }
    forall x | x != v
      ensures Precedes(r, v, x) <==> x == to || Precedes(l, to, x)
      ensures Precedes(r, x, v) <==> Precedes(l, x, to)
    {
      assert Precedes(m, v, x) <==> x == to || Precedes(e, to, x);
      assert Precedes(m, x, v) <==> Precedes(e, x, to);
    }
    forall a, b | a != v && b != v
      ensures Precedes(r, a, b) <==> Precedes(l, a, b)
    {
      assert Precedes(m, a, b) <==> Precedes(e, a, b);
    }
    if v != l.items[0] && to != l.items[0] {
      EraseFront(l, v);
    }
  }

  /** When every mark of `r` comes after the earliest mark `v` of `l`, the earliest mark
      has moved forward. */
  lemma {:induction false} PendingAfter(l: TopoList, v: Vid, r: TopoList)
    requires Wf(l) && BeginMarked(l) == Some(v) && r.items == l.items
    requires forall m | m in r.marked :: Precedes(l, v, m)
    ensures Pending(r) < Pending(l)
  {
    var i := FirstIn(l.items, l.marked).value;
    IndexOfAt(l.items, i);
    match FirstIn(r.items, r.marked)
    case None =>
    case Some(k) =>
      IndexOfAt(l.items, k);
      assert Precedes(l, v, l.items[k]);
  }
}
