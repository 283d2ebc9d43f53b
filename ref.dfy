/**
 * The handle layer (`ref.cpp`): a `ref` holds one reference to a vertex of the
 * engine.  Constructing or copying a handle adds a reference, destroying it drops
 * one, and `reset_` moves it to another vertex.  Scheduling and metadata requests
 * go to the engine only while the vertex is active.
 */
module References {
  import opened Wrappers
  import opened TopologicalList
  import opened DependencyGraph
  import opened Dataflow
  import opened Handles

  class Ref {
    /** The engine every handle talks to (`engine::instance()`). */
    const engine: Engine
    var id: Vid                         // `id_`

    /** The handle is one of the references the engine counts on `id`. */
    ghost predicate Held()
      reads this, engine
    {
      engine.Valid() && 0 < id < |engine.graph| && engine.ext[id] > 0
    }

    /** `ref(node_id)`: a new handle on the live vertex `id`. */
    constructor FromId(e: Engine, id: Vid)
      requires e.Valid() && 0 < id < |e.graph| && e.graph[id].live
      modifies e`graph, e`ext
      ensures engine == e && this.id == id && Held()
      ensures e.ext == old(e.ext)[id := old(e.ext[id]) + 1]
      ensures e.graph == old(e.graph)[id := old(e.graph[id]).(refCount := old(e.graph[id].refCount) + 1)]
    {
      hide Inv;
      engine := e;
      this.id := id;
      new;
      HeldLive(e.graph, e.order, e.ext);
      e.AddRef(id);
    }

    /** `ref(const ref&)`: a second handle on the vertex of `other`. */
    constructor Copy(other: Ref)
      requires other.Held()
      modifies other.engine`graph, other.engine`ext
      ensures engine == other.engine && id == other.id && Held() && other.Held()
      ensures engine.ext == old(other.engine.ext)[id := old(other.engine.ext[other.id]) + 1]
      ensures engine.graph == old(other.engine.graph)[id := old(other.engine.graph[other.id]).(refCount := old(other.engine.graph[other.id].refCount) + 1)]
    {
      hide Inv;
      engine := other.engine;
      id := other.id;
      new;
      HeldLive(engine.graph, engine.order, engine.ext);
      engine.AddRef(id);
    }

    /** `~ref`: the handle's reference is released; if it was the last one, the vertex is
        torn down.  Every vertex still held stays alive. */
    method Destroy()
      requires Held()
      modifies engine`graph, engine`order, engine`ext
      ensures engine.Valid() && engine.ext == old(engine.ext)[id := old(engine.ext[id]) - 1]
      ensures old(engine.graph[id].refCount) == 1 ==> !engine.graph[id].live
      ensures old(engine.graph[id].refCount) == 1 ==>
                forall x | 0 <= x < |engine.graph| && x != id && engine.graph[x].live && engine.graph[x].refCount == 0 ::
                  old(engine.graph)[x].refCount == 0
      ensures old(engine.graph[id].refCount) == 1 ==>
                forall x | 0 <= x < |engine.graph| && old(engine.graph)[x].live && !engine.graph[x].live ::
                  x == id || exists y | 0 <= y < |engine.graph| && old(engine.graph)[y].live && !engine.graph[y].live ::
                               x in Targets(old(engine.graph)[y].args)
      ensures forall x | 0 <= x < |engine.graph| && engine.ext[x] > 0 :: engine.graph[x].live
    {
      engine.Release(id);
    }

    /** `reset_(other)`: the old vertex is released, the handle moves to `other`'s vertex,
        and that vertex gains a reference: one handle fewer on the old vertex, one more
        on the new.  `other` must hold its own reference, beyond this one when both are
        on the same vertex. */
    method Reset(other: Ref)
      requires Held() && other.Held() && other.engine == engine
      requires engine.ext[other.id] > (if other.id == id then 1 else 0)
      modifies this`id, engine`graph, engine`order, engine`ext
      ensures id == old(other.id) && Held() && other.Held()
      ensures |engine.ext| == old(|engine.ext|)
      ensures forall x | 0 <= x < |engine.ext| ::
                engine.ext[x] + (if x == old(id) then 1 else 0) == old(engine.ext[x]) + (if x == id then 1 else 0)
    {
      hide Inv;
      HeldLive(engine.graph, engine.order, engine.ext);
      engine.Release(id);
      id := other.id;
      engine.AddRef(id);
    }

    /** `schedule_`: nothing for an inactive vertex; during a pump the vertex waits for the
        next update; otherwise it is marked and the engine pumps now. */
    method Schedule(update: UpdateOracle) returns (failed: bool)
      requires Held() && (!engine.pumpingStarted ==> engine.argsBuffer == [])
      modifies engine`graph, engine`order, engine`argsBuffer, engine`pumpingStarted, engine`nextUpdate
      ensures Held() && |engine.graph| == old(|engine.graph|)
      ensures !old(engine.pumpingStarted) ==> engine.argsBuffer == [] && !engine.pumpingStarted
      ensures !old(engine.IsActiveNode(id)) ==> !failed && unchanged(engine)
      ensures old(engine.IsActiveNode(id)) && old(engine.pumpingStarted) ==>
                !failed && engine.nextUpdate == old(engine.nextUpdate) + [id]
                && engine.graph == old(engine.graph) && engine.order == old(engine.order)
      ensures old(engine.IsActiveNode(id)) && !old(engine.pumpingStarted) ==>
                engine.nextUpdate == old(engine.nextUpdate) && engine.order.items == old(engine.order.items)
                && (!failed ==> engine.order.marked == {} && engine.graph[id].initialized)
    {
      failed := false;
      if engine.IsActiveNode(id) {
        if engine.pumpingStarted {
          engine.ScheduleForNextUpdate(id);
        } else {
          ghost var seen, changed;
          failed, seen, changed := engine.Pump(update, id);
        }
      }
    }

    /** `set_metadata(m)`: attached to the vertex only while it is active. */
    method SetMetadata(m: Option<Metadata>)
      requires Held()
      modifies engine`metadata
      ensures engine.IsActiveNode(id) ==> engine.MetadataOf(id) == m
      ensures engine.IsActiveNode(id) ==> forall x | x != id :: engine.MetadataOf(x) == old(engine.MetadataOf(x))
      ensures !engine.IsActiveNode(id) ==> engine.metadata == old(engine.metadata)
    {
      if engine.IsActiveNode(id) {
        engine.SetMetadata(id, m);
      }
    }
  }

}
