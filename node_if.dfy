/**
 * The conditional node (`node_if.h`): it is registered with its arguments in the
 * order basis, alternative, consequence, as a conditional vertex, so the engine
 * enables only the basis edge when it activates it.  Its update sees the basis and
 * the selected branch, takes the branch's value, and carries the branch's metadata
 * over while the branch stays the same.
 */
module Conditional {
  import opened Wrappers
  import opened TopologicalList
  import opened DependencyGraph
  import opened Dataflow

  /** The flags `create` passes on to the factory. */
  datatype NodeFlags = NoFlags | EagerFlag

  /** `node_if::create(basis, consequence, alternative, eager)`: a new conditional vertex
      with one disabled edge to each of basis, alternative and consequence, in that
      order; the eager flag is passed on only when requested. */
  method Create(e: Engine, basis: Vid, consequence: Vid, alternative: Vid, eager: bool)
    returns (v: Vid, flags: NodeFlags)
    requires e.Valid()
    requires forall x | x in [basis, consequence, alternative] :: 0 < x < |e.graph| && e.graph[x].live && !e.graph[x].eager
    modifies e`graph, e`ext
    ensures e.Valid() && v == old(|e.graph|) && v < |e.graph|
    ensures e.graph[v].conditional && !e.IsActiveNode(v)
    ensures Targets(e.graph[v].args) == [basis, alternative, consequence]
    ensures forall j | 0 <= j < |e.graph[v].args| :: !e.graph[v].args[j].enabled
    ensures flags == if eager then EagerFlag else NoFlags
  {
    var args := [basis, alternative, consequence];
    assert forall k | 0 <= k < |args| :: args[k] in [basis, consequence, alternative];
    v := e.AddConditionalNode(args);
    InertEdges(args);
    flags := if eager then EagerFlag else NoFlags;
  }

  /** The edges `add_node` creates: one disabled edge per argument, to that argument. */
  lemma {:induction false} InertEdges(ts: seq<Vid>)
    ensures Targets(Inert(ts)) == ts
    ensures forall j | 0 <= j < |ts| :: !Inert(ts)[j].enabled
    decreases |ts|
  {
    if ts != [] {
      var init := ts[..|ts| - 1];
      InertEdges(init);
      assert Inert(ts) == Inert(init) + [Edge(ts[|ts| - 1], false)];
      assert ts == init + [ts[|ts| - 1]];
    }
  }

  /** With its basis edge and exactly one branch edge enabled, a conditional created by
      `Create` hands its update exactly two arguments: the basis, then that branch. */
  lemma {:induction false} SelectedArgs(args: seq<Edge>, b: nat)
    requires |args| == 3 && (b == 1 || b == 2)
    requires args[0].enabled && args[b].enabled && !args[3 - b].enabled
    ensures EnabledTargets(args) == [args[0].target, args[b].target]
  {
    assert args[..2][..1] == args[..1];
    assert args[..1][..0] == [];
    assert EnabledTargets(args[..1]) == [args[0].target];
  }

  class IfNode<T(==)> {
    var value: T
    /** The branch seen by the previous update (`p_prev_branch_`). */
    var prevBranch: Option<Vid>

    constructor (init: T)
      ensures value == init && prevBranch == None
    {
      value := init;
      prevBranch := None;
    }

    /** `update_(id, initialized, args)` with `values` giving each node's value: the node
        takes the value of the selected branch `args[1]` and reports whether its value
        changed; the branch's metadata becomes the node's only when the node is already
        initialized and the branch is the one it saw last time; the branch is recorded. */
    method Update(e: Engine, id: Vid, initialized: bool, args: seq<Vid>, values: Vid -> T) returns (status: Status)
      requires |args| == 2
      modifies this, e`metadata
      ensures prevBranch == Some(args[1]) && value == values(args[1])
      ensures status == Changed <==> old(value) != values(args[1])
      ensures status != Failed
      ensures initialized && old(prevBranch) == Some(args[1]) ==>
                e.MetadataOf(id) == old(e.MetadataOf(args[1]))
                && forall x | x != id :: e.MetadataOf(x) == old(e.MetadataOf(x))
      ensures !(initialized && old(prevBranch) == Some(args[1])) ==> e.metadata == old(e.metadata)
    {
      if initialized && prevBranch == Some(args[1]) {
        e.SetMetadata(id, e.MetadataOf(args[1]));
      }
      prevBranch := Some(args[1]);
      status := SetValue(values(args[1]));
    }

    /** `set_value_(x)`: the node holds `x` and reports whether that changed its value. */
    method SetValue(x: T) returns (status: Status)
      modifies this`value
      ensures value == x
      ensures status == if old(value) == x then Unchanged else Changed
    {
      status := if value == x then Unchanged else Changed;
      value := x;
    }

    /** `deactivate_`: the recorded branch is forgotten, so the first update after the
        next activation does not carry metadata over. */
    method Deactivate()
      modifies this`prevBranch
      ensures prevBranch == None
    {
      prevBranch := None;
    }
  }
}
