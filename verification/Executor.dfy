// Node and Executor as objects over one DDS instance. A call runs without interference; ExecutorRuns interleaves them.
module Executor {
  import opened Wrappers
  import opened ExecutorSpec
  import opened Transport

  class Node {
    /** Handle of the change guard; handles are unique, so it also identifies the node. */
    const guard: Handle
    var entities: seq<Handle>
    var epoch: nat

    constructor (guard: Handle)
      ensures this.guard == guard && entities == [] && epoch == 0
    {
      this.guard, entities, epoch := guard, [], 0;
    }

    function View(): NodeView
      reads this
    {
      NodeView(guard, entities, epoch)
    }

    method AddEntity(e: Handle, dds: Dds)
      modifies this, dds`guards
      ensures View() == NodeView(guard, old(entities) + [e], old(epoch) + 1)
      ensures dds.guards == if guard in old(dds.guards) then old(dds.guards)[guard := true] else old(dds.guards)
    {
      entities := entities + [e];
      epoch := epoch + 1;
      dds.SetGuard(guard);
    }

    method RemoveEntity(e: Handle, dds: Dds)
      modifies this, dds`guards
      ensures View() == NodeView(guard, Without(old(entities), e), old(epoch) + 1)
      ensures dds.guards == if guard in old(dds.guards) then old(dds.guards)[guard := true] else old(dds.guards)
    {
      entities := Without(entities, e);
      epoch := epoch + 1;
      dds.SetGuard(guard);
    }
  }

  function ViewsOf(nodes: seq<Node>): (vs: seq<NodeView>)
    reads nodes
    ensures |vs| == |nodes| && forall i :: 0 <= i < |vs| ==> vs[i] == nodes[i].View()
  {
    if nodes == [] then []
    else ViewsOf(nodes[..|nodes| - 1]) + [nodes[|nodes| - 1].View()]
  }

  function GuardsOf(nodes: seq<Node>): (gs: seq<Handle>)
    ensures |gs| == |nodes| && forall i :: 0 <= i < |gs| ==> gs[i] == nodes[i].guard
  {
    if nodes == [] then [] else GuardsOf(nodes[..|nodes| - 1]) + [nodes[|nodes| - 1].guard]
  }

  class Executor {
    const dds: Dds
    const cancelGuard: Handle
    const wakeGuard: Handle
    var cancelRequested: bool
    var nodes: seq<Node>
    var attached: map<AttachId, Attached>
    var epochs: map<Handle, nat>
    var nextId: AttachId

    constructor (dds: Dds, cancelGuard: Handle, wakeGuard: Handle)
      requires cancelGuard != wakeGuard && cancelGuard in dds.guards && wakeGuard in dds.guards
      requires dds.attached == map[] && cancelGuard !in dds.dead && wakeGuard !in dds.dead
      modifies dds`attached
      ensures Valid() && nodes == [] && attached == map[] && !cancelRequested && this.dds == dds
      ensures this.cancelGuard == cancelGuard && this.wakeGuard == wakeGuard
    {
      this.dds, this.cancelGuard, this.wakeGuard := dds, cancelGuard, wakeGuard;
      cancelRequested, nodes, attached, epochs, nextId := false, [], map[], map[], WAKE_ATTACHMENT;
      new;
      var _ := dds.Attach(cancelGuard, CANCEL_ATTACHMENT);
      var _ := dds.Attach(wakeGuard, WAKE_ATTACHMENT);
    }

    ghost function View(): Exec
      reads this, dds`attached
    {
      Exec(cancelGuard, wakeGuard, GuardsOf(nodes), attached, epochs, nextId, dds.attached)
    }

    ghost predicate TableAgrees()
      reads this, dds`attached
    {
      Agree(cancelGuard, wakeGuard, attached, nextId, dds.attached)
    }

    /** The table is in order; holds between any two critical sections. */
    ghost predicate WellFormed()
      reads this, dds, nodes
    {
      var vs := ViewsOf(nodes);
      && TableAgrees()
      && cancelGuard in dds.guards && wakeGuard in dds.guards
      && Admissible(dds.guards.Keys, cancelGuard, wakeGuard, vs)
      && (forall id :: id in attached ==> WellKept(dds.guards.Keys, attached[id]))
    }

    ghost predicate Valid()
      reads this, dds, nodes
    {
      var vs := ViewsOf(nodes);
      WellFormed() && forall i :: 0 <= i < |vs| ==> Tracked(vs[i], epochs, dds.attached, dds.dead)
    }

    /** The entries of one node on top of those of the nodes before it. */
    method CollectNode(node: Node, before: map<Handle, Attached>) returns (desired: map<Handle, Attached>)
      ensures desired == WithNode(before, node.View())
    {
      desired := before[node.guard := Attached(node.guard, node.guard, None)];
      ghost var base := desired;
      for j := 0 to |node.entities|
        invariant desired == WithEntities(base, node.guard, node.entities[..j])
      {
        var e := node.entities[j];
        assert node.entities[..j + 1][..j] == node.entities[..j];
        desired := desired[e := Attached(e, node.guard, Some(e))];
      }
      assert node.entities[..|node.entities|] == node.entities;
    }

    /** `desired` and the recorded epochs, node by node. */
    method CollectDesired() returns (desired: map<Handle, Attached>)
      modifies this`epochs
      ensures desired == Desired(ViewsOf(nodes))
      ensures epochs == RecordedEpochs(old(epochs), ViewsOf(nodes))
    {
      hide WithNode, ViewsOf;
      desired := map[];
      ghost var vs := ViewsOf(nodes);
      for i := 0 to |nodes|
        invariant ViewsOf(nodes) == vs
        invariant desired == Desired(vs[..i]) && epochs == RecordedEpochs(old(epochs), vs[..i])
      {
        assert vs[..i + 1][..i] == vs[..i] && vs[i] == nodes[i].View();
        desired := CollectNode(nodes[i], desired);
        epochs := epochs[nodes[i].guard := nodes[i].epoch];
      }
      assert vs[..|nodes|] == vs;
    }

    /** The table keeps what is still wanted; everything else leaves the table and the waitset. */
    method DetachStale(desired: map<Handle, Attached>)
      requires TableAgrees() && cancelGuard !in desired && wakeGuard !in desired
      modifies this`attached, dds`attached
      ensures TableAgrees()
      ensures Trimmed(desired, old(attached), attached)
      ensures forall c :: c in desired ==> (c in dds.attached <==> c in old(dds.attached))
    {
      var todo := attached.Keys;
      var stale: set<AttachId> := {};
      ghost var original := dds.attached;
      while todo != {}
        invariant attached == old(attached) && Detaching(desired, attached, todo, stale, original, dds.attached)
        decreases todo
      {
        hide Agree, Detaching;
        var id := Pick(todo);
        DetachedOne(cancelGuard, wakeGuard, nextId, desired, attached, todo, stale, original, dds.attached, id);
        todo := todo - {id};
        if attached[id].cond !in desired {
          dds.Detach(attached[id].cond);
          stale := stale + {id};
        }
      }
      AllDetached(cancelGuard, wakeGuard, nextId, desired, attached, stale, original, dds.attached);
      attached := attached - stale;
    }

    /** Every wanted condition the waitset lacks gets a fresh id; a refused one is skipped, its id stays used. */
    method AttachMissing(desired: map<Handle, Attached>, held: set<Handle>) returns (ghost failed: set<Handle>)
      requires TableAgrees() && cancelGuard !in desired && wakeGuard !in desired
      requires forall c :: c in desired ==> desired[c].cond == c && (c in held <==> c in dds.attached)
      modifies this`attached, this`nextId, dds`attached
      ensures TableAgrees() && Grown(desired, old(attached), old(nextId), attached, nextId)
      ensures failed <= desired.Keys - held && failed <= dds.dead
      ensures forall c :: c in desired && c !in failed ==> c in dds.attached
    {
      hide Agree, Attaching, Grown;
      AttachingStarts(desired, held, dds.attached, attached, nextId);
      var todo := desired.Keys;
      var current := held;
      failed := {};
      while todo != {}
        invariant TableAgrees() && Grown(desired, old(attached), old(nextId), attached, nextId)
        invariant Attaching(desired, held, todo, current, failed, dds.attached) && failed <= dds.dead
        decreases todo
      {
        var c := Pick(todo);
        TodoIsDesired(desired, held, todo, current, failed, dds.attached, c);
        ghost var visited := current;
        AttachedOne(desired, held, todo, current, failed, dds.attached, c, nextId + 1);
        todo := todo - {c};
        if c !in current {
          AttachAgrees(cancelGuard, wakeGuard, attached, nextId, dds.attached, desired[c]);
          GrownOne(desired, old(attached), old(nextId), attached, nextId, c);
          current := current + {c};
          nextId := nextId + 1;
          var ok := dds.Attach(c, nextId);
          if !ok {
            current := current - {c};
            assert current == visited;
            failed := failed + {c};
            continue;
          }
          attached := attached[nextId := desired[c]];
        }
      }
      AttachingEnds(desired, held, current, failed, dds.attached);
    }

    /** `reconcile_locked`. */
    method ReconcileLocked() returns (ghost failed: set<Handle>)
      requires WellFormed()
      modifies this`attached, this`epochs, this`nextId, dds`attached
      ensures Valid() && Reconciled(old(View()), View(), ViewsOf(nodes), failed) && failed <= dds.dead
      ensures forall i :: 0 <= i < |nodes| ==> !EpochMoved(epochs, nodes[i].View())
    {
      hide Desired, RecordedEpochs, Agree, Trimmed, Grown, ViewsOf, GuardsOf, Reconciled, EpochMoved, Tracked;
      ghost var vs := ViewsOf(nodes);
      ghost var before := View();
      ApartFromDesired(cancelGuard, wakeGuard, vs);
      var desired := CollectDesired();
      var current := set id | id in attached :: attached[id].cond;
      CurrentIsAttached(cancelGuard, wakeGuard, attached, nextId, dds.attached, desired);
      forall c | c in desired ensures desired[c].cond == c {
        DesiredKeys(vs, c);
      }
      DetachStale(desired);
      ghost var trimmed := attached;
      failed := AttachMissing(desired, current);
      AttachedNotHeld(desired, current, failed, before.waitset);
      TrimThenGrow(before, trimmed, View(), vs, failed);
      TableWellKept(dds.guards.Keys, vs, before.attached, trimmed, before.nextId, attached, nextId);
      forall i | 0 <= i < |vs|
        ensures Tracked(vs[i], epochs, dds.attached, dds.dead) && !EpochMoved(epochs, nodes[i].View())
      {
        ReconciledSettles(before, View(), vs, failed, dds.dead, i);
      }
    }

    method AddNode(node: Node) returns (ghost failed: set<Handle>)
      requires Valid()
      requires node !in nodes ==> Admissible(dds.guards.Keys, cancelGuard, wakeGuard, ViewsOf(nodes + [node]))
      modifies this, dds`attached, dds`guards
      ensures Valid() && nodes == if node in old(nodes) then old(nodes) else old(nodes) + [node]
      ensures failed <= dds.dead && cancelRequested == old(cancelRequested)
      ensures Reconciled(old(View()).(nodes := GuardsOf(nodes),
                           epochs := if node in old(nodes) then old(epochs) else old(epochs) - {node.guard}),
                         View(), ViewsOf(nodes), failed)
      ensures dds.guards == old(dds.guards)[wakeGuard := true]
    {
      hide Agree, ViewsOf, GuardsOf, Reconciled, EpochMoved, Tracked, Admissible, WellKept;
      if node !in nodes {
        nodes := nodes + [node];
        epochs := epochs - {node.guard};
      }
      failed := ReconcileLocked();
      dds.SetGuard(wakeGuard);
      assert dds.guards.Keys == old(dds.guards).Keys;
    }

    method RemoveNode(node: Node) returns (ghost failed: set<Handle>)
      requires Valid()
      modifies this, dds`attached, dds`guards
      ensures Valid() && nodes == Without(old(nodes), node)
      ensures failed <= dds.dead && cancelRequested == old(cancelRequested)
      ensures Reconciled(old(View()).(nodes := GuardsOf(nodes), epochs := old(epochs) - {node.guard}),
                         View(), ViewsOf(nodes), failed)
      ensures dds.guards == old(dds.guards)[wakeGuard := true]
    {
      hide Agree, Reconciled, EpochMoved, Tracked, ViewsOf, GuardsOf, Admissible, WellKept, Without;
      RestAdmissible(nodes, node, dds.guards.Keys, cancelGuard, wakeGuard);
      nodes := Without(nodes, node);
      epochs := epochs - {node.guard};
      failed := ReconcileLocked();
      dds.SetGuard(wakeGuard);
      assert dds.guards.Keys == old(dds.guards).Keys;
    }

    /** The dispatch loop over one batch of reported attachments. */
    method ProcessBatch(ids: seq<AttachId>) returns (didWork: bool)
      requires WellFormed()
      requires forall i, j :: 0 <= i < j < |ids| ==> ids[i] != ids[j]
      modifies this`cancelRequested, dds`flows, dds`guards
      ensures WellFormed() && dds.guards.Keys == old(dds.guards).Keys
      ensures didWork == AnyEntity(attached, ids)
      ensures forall c :: dds.FlowOf(c) ==
                if InBatch(attached, ids, c) then Drained(old(dds.FlowOf(c))) else old(dds.FlowOf(c))
      ensures cancelRequested == (old(cancelRequested) || CANCEL_ATTACHMENT in ids)
      ensures forall g :: g in dds.guards ==>
                (dds.guards[g] <==> old(dds.guards)[g] && !(g == cancelGuard && CANCEL_ATTACHMENT in ids)
                                                       && !(g == wakeGuard && WAKE_ATTACHMENT in ids))
    {
      hide Agree, ViewsOf, Drained, Admissible, WellKept, InBatch, AnyEntity, Taken;
      ReservedIds(cancelGuard, wakeGuard, attached, nextId, dds.attached);
      BatchStarts(attached, ids);
      NothingTaken(cancelGuard, wakeGuard, dds.guards);
      didWork := false;
      for i := 0 to |ids|
        invariant WellFormed() && Taken(cancelGuard, wakeGuard, ids[..i], old(dds.guards), dds.guards)
        invariant didWork == AnyEntity(attached, ids[..i])
        invariant forall c :: dds.FlowOf(c) ==
                    if InBatch(attached, ids[..i], c) then Drained(old(dds.FlowOf(c))) else old(dds.FlowOf(c))
        invariant cancelRequested == (old(cancelRequested) || CANCEL_ATTACHMENT in ids[..i])
      {
        var id := ids[i];
        assert ids[..i + 1] == ids[..i] + [id];
        BatchGrows(attached, ids, i);
        TakenOne(cancelGuard, wakeGuard, ids[..i], id, old(dds.guards), dds.guards);
        if id == CANCEL_ATTACHMENT {
          var _ := dds.TakeGuard(cancelGuard);
          cancelRequested := true;
        } else if id == WAKE_ATTACHMENT {
          var _ := dds.TakeGuard(wakeGuard);
        } else {
          var entity := EntityOf(attached, id);
          if entity.Some? {
            assert !InBatch(attached, ids[..i], entity.value) by {
              BatchIsInjective(cancelGuard, wakeGuard, attached, nextId, dds.attached, dds.guards.Keys, ids, i);
            }
            var _ := Take(dds, entity.value);
            didWork := true;
          }
        }
      }
      assert ids[..|ids|] == ids;
      TakenGuards(cancelGuard, wakeGuard, ids, old(dds.guards), dds.guards);
    }

    /** Whether any node's entity set changed since it was last reconciled. */
    method EntitiesChanged() returns (changed: bool)
      ensures changed == NeedsReconcile(attached, epochs, ViewsOf(nodes))
      ensures changed <==>
                || (attached == map[] && |nodes| > 0)
                || exists i :: 0 <= i < |nodes| &&
                     (nodes[i].guard !in epochs || epochs[nodes[i].guard] != nodes[i].epoch)
    {
      hide ViewsOf;
      changed := attached == map[] && nodes != [];
      for i := 0 to |nodes|
        invariant forall j :: 0 <= j < i ==> !EpochMoved(epochs, ViewsOf(nodes)[j])
        invariant changed == (attached == map[] && nodes != [])
      {
        if nodes[i].guard !in epochs || epochs[nodes[i].guard] != nodes[i].epoch {
          assert EpochMoved(epochs, ViewsOf(nodes)[i]);
          return true;
        }
      }
    }

    /** Take the change guard of every node in the list. */
    method AbsorbChangeGuards()
      requires WellFormed()
      modifies dds`guards
      ensures WellFormed() && dds.guards.Keys == old(dds.guards).Keys
      ensures forall g :: g in dds.guards ==> (dds.guards[g] <==> old(dds.guards)[g] && g !in GuardsOf(nodes))
    {
      hide ViewsOf, Admissible, Agree, WellKept, GuardsOf;
      for i := 0 to |nodes|
        invariant WellFormed() && dds.guards.Keys == old(dds.guards).Keys
        invariant forall g :: g in dds.guards ==> (dds.guards[g] <==> old(dds.guards)[g] && g !in GuardsOf(nodes)[..i])
      {
        var _ := dds.TakeGuard(nodes[i].guard);
        assert dds.guards.Keys == old(dds.guards).Keys;
      }
    }

    /** `dds_waitset_wait`, in terms of what the reported ids stand for. */
    method CollectTriggered() returns (ids: seq<AttachId>)
      requires WellFormed()
      ensures forall i, j :: 0 <= i < j < |ids| ==> ids[i] != ids[j]
      ensures forall i :: 0 <= i < |ids| && EntityOf(attached, ids[i]).Some? ==>
                dds.FlowOf(EntityOf(attached, ids[i]).value).queue != []
      ensures |dds.attached| <= MAX_TRIGGERS ==>
                forall id :: id in attached && attached[id].entity.Some? ==>
                  dds.FlowOf(attached[id].entity.value).queue == [] || id in ids
      ensures CANCEL_ATTACHMENT in ids ==> dds.guards[cancelGuard]
      ensures dds.guards[cancelGuard] && |dds.attached| <= MAX_TRIGGERS ==> CANCEL_ATTACHMENT in ids
      ensures |dds.attached| <= MAX_TRIGGERS ==>
                forall c :: c in dds.attached && dds.Ready(c) ==> dds.attached[c] in ids
      ensures ids == [] ==> forall c :: c in dds.attached ==> !dds.Ready(c)
    {
      hide ViewsOf, Admissible;
      WaitsetIsInjective(cancelGuard, wakeGuard, attached, nextId, dds.attached);
      ids := dds.Wait(MAX_TRIGGERS);
      forall id | id in attached && attached[id].entity.Some?
        ensures attached[id].entity == Some(attached[id].cond) && dds.attached[attached[id].cond] == id
        ensures dds.Ready(attached[id].cond) <==> dds.FlowOf(attached[id].cond).queue != []
      {
        assert WellKept(dds.guards.Keys, attached[id]);
      }
      forall i | 0 <= i < |ids| && EntityOf(attached, ids[i]).Some?
        ensures dds.FlowOf(EntityOf(attached, ids[i]).value).queue != []
      {
        var c :| c in dds.attached && dds.attached[c] == ids[i] && dds.Ready(c);
        assert attached[ids[i]].cond == c;
      }
      if CANCEL_ATTACHMENT in ids {
        ghost var i :| 0 <= i < |ids| && ids[i] == CANCEL_ATTACHMENT;
        ghost var c :| c in dds.attached && dds.attached[c] == ids[i] && dds.Ready(c);
        assert c == cancelGuard;
      }
    }

    /** The critical section in front of the wait. */
    method Refresh() returns (ghost failed: set<Handle>)
      requires Valid()
      modifies this`attached, this`epochs, this`nextId, dds`attached
      ensures Valid() && forall i :: 0 <= i < |nodes| ==> !EpochMoved(epochs, nodes[i].View())
      ensures failed <= dds.dead
      ensures if NeedsReconcile(old(attached), old(epochs), ViewsOf(nodes))
              then Reconciled(old(View()), View(), ViewsOf(nodes), failed)
              else View() == old(View())
    {
      hide Admissible, Tracked, EpochMoved, Reconciled, Agree, WellKept, ViewsOf, GuardsOf;
      var changed := EntitiesChanged();
      failed := {};
      if changed {
        failed := ReconcileLocked();
      } else {
        forall i | 0 <= i < |nodes| ensures !EpochMoved(epochs, nodes[i].View()) {
          assert ViewsOf(nodes)[i] == nodes[i].View();
        }
      }
    }

    /** The wait, the dispatch of its batch, and the absorption of the change guards. */
    method RunBatch() returns (didWork: bool, ghost reported: seq<AttachId>)
      requires WellFormed()
      modifies this`cancelRequested, dds`flows, dds`guards
      ensures WellFormed() && dds.guards.Keys == old(dds.guards).Keys
      ensures forall c :: dds.FlowOf(c) ==
                if c in dds.attached && dds.attached[c] in reported && c !in dds.guards
                then Drained(old(dds.FlowOf(c))) else old(dds.FlowOf(c))
      ensures didWork ==> dds.NonEmpty() < old(dds.NonEmpty())
      ensures !didWork ==> forall c :: dds.FlowOf(c) == old(dds.FlowOf(c))
      ensures !didWork && |dds.attached| <= MAX_TRIGGERS ==>
                forall id :: id in attached && attached[id].entity.Some? ==>
                  dds.FlowOf(attached[id].entity.value).queue == []
      ensures old(dds.guards[cancelGuard]) && |dds.attached| <= MAX_TRIGGERS ==> cancelRequested
      ensures cancelRequested ==> old(cancelRequested) || old(dds.guards[cancelGuard])
      ensures cancelRequested == (old(cancelRequested) || CANCEL_ATTACHMENT in reported)
      ensures |dds.attached| <= MAX_TRIGGERS ==>
                forall c :: c in dds.attached && old(dds.Ready(c)) ==> dds.attached[c] in reported
      ensures reported == [] ==> forall c :: c in dds.attached ==> !old(dds.Ready(c))
      ensures forall g :: g in dds.guards ==>
                (dds.guards[g] <==> old(dds.guards)[g] && !(g == cancelGuard && CANCEL_ATTACHMENT in reported)
                                                       && !(g == wakeGuard && WAKE_ATTACHMENT in reported)
                                                       && !(g in GuardsOf(nodes) && reported != []))
    {
      hide ViewsOf, GuardsOf, Admissible, Drained, Agree, WellKept, AnyEntity, InBatch;
      var ids := CollectTriggered();
      reported := ids;
      if |ids| == 0 {
        didWork := false;
        return;
      }
      ghost var before := dds.NonEmpty();
      WorkIsWaiting(attached, ids);
      didWork := ProcessBatch(ids);
      BatchByCondition(cancelGuard, wakeGuard, attached, nextId, dds.attached, dds.guards.Keys, ids);
      forall c ensures c in dds.NonEmpty() ==> c in before && !InBatch(attached, ids, c) {
        DrainedIsEmpty(old(dds.FlowOf(c)));
      }
      ghost var after := dds.NonEmpty();
      if didWork {
        ghost var c :| InBatch(attached, ids, c) && c in before;
        StrictlyFewer(after, before, c);
      }
      AbsorbChangeGuards();
      assert dds.NonEmpty() == after;
    }

    /** One round with timeout zero: reconcile if needed, collect what is ready, dispatch it. */
    method WaitAndProcess() returns (didWork: bool, ghost reported: seq<AttachId>)
      requires Valid()
      modifies this, dds`attached, dds`flows, dds`guards
      ensures Valid() && nodes == old(nodes)
      ensures forall i :: 0 <= i < |nodes| ==> !EpochMoved(epochs, nodes[i].View())
      ensures forall c :: dds.FlowOf(c) ==
                if c in dds.attached && dds.attached[c] in reported && c !in dds.guards
                then Drained(old(dds.FlowOf(c))) else old(dds.FlowOf(c))
      ensures didWork ==> dds.NonEmpty() < old(dds.NonEmpty())
      ensures !didWork ==> forall c :: dds.FlowOf(c) == old(dds.FlowOf(c))
      ensures !didWork && |dds.attached| <= MAX_TRIGGERS ==>
                forall id :: id in attached && attached[id].entity.Some? ==>
                  dds.FlowOf(attached[id].entity.value).queue == []
      ensures old(dds.guards[cancelGuard]) && |dds.attached| <= MAX_TRIGGERS ==> cancelRequested
      ensures cancelRequested ==> old(cancelRequested) || old(dds.guards[cancelGuard])
      ensures cancelRequested == (old(cancelRequested) || CANCEL_ATTACHMENT in reported)
      ensures |dds.attached| <= MAX_TRIGGERS ==>
                forall c :: c in dds.attached && old(dds.Ready(c)) ==> dds.attached[c] in reported
      ensures reported == [] ==> forall c :: c in dds.attached ==> !old(dds.Ready(c))
      ensures dds.guards.Keys == old(dds.guards).Keys
      ensures forall g :: g in dds.guards ==>
                (dds.guards[g] <==> old(dds.guards)[g] && !(g == cancelGuard && CANCEL_ATTACHMENT in reported)
                                                       && !(g == wakeGuard && WAKE_ATTACHMENT in reported)
                                                       && !(g in GuardsOf(nodes) && reported != []))
    {
      hide Admissible, Drained, Tracked, EpochMoved, Agree, WellKept, ViewsOf, GuardsOf;
      var _ := Refresh();
      didWork, reported := RunBatch();
    }

    /** One round of `spin_some`, in terms of what its loop keeps; `first` and `raised` are the guards
        and the flag it started with. */
    method SpinRound(ghost first: map<Handle, bool>, ghost raised: bool) returns (didWork: bool)
      requires Valid() && Lowered(cancelGuard, wakeGuard, GuardsOf(nodes), first, raised, dds.guards, cancelRequested)
      modifies this, dds`attached, dds`flows, dds`guards
      ensures Valid() && nodes == old(nodes)
      ensures forall i :: 0 <= i < |nodes| ==> !EpochMoved(epochs, nodes[i].View())
      ensures forall c :: dds.FlowOf(c) == old(dds.FlowOf(c)) || dds.FlowOf(c) == Drained(old(dds.FlowOf(c)))
      ensures didWork ==> dds.NonEmpty() < old(dds.NonEmpty())
      ensures !didWork ==> forall c :: dds.FlowOf(c) == old(dds.FlowOf(c))
      ensures !didWork && |dds.attached| <= MAX_TRIGGERS ==>
                forall id :: id in attached && attached[id].entity.Some? ==>
                  dds.FlowOf(attached[id].entity.value).queue == []
      ensures Lowered(cancelGuard, wakeGuard, GuardsOf(nodes), first, raised, dds.guards, cancelRequested)
      ensures |dds.attached| <= MAX_TRIGGERS ==>
                Quiet(cancelGuard, wakeGuard, GuardsOf(nodes), dds.attached.Keys, dds.guards)
    {
      hide Admissible, Drained, Tracked, Agree, WellKept, ViewsOf, GuardsOf, EpochMoved, Lowered, Quiet;
      ghost var guards, was := dds.guards, cancelRequested;
      ghost var reported;
      didWork, reported := WaitAndProcess();
      OwnGuards(cancelGuard, wakeGuard, attached, nextId, dds.attached);
      GuardsApart(dds.guards.Keys, cancelGuard, wakeGuard, ViewsOf(nodes), GuardsOf(nodes));
      RoundLowers(cancelGuard, wakeGuard, GuardsOf(nodes), dds.attached, reported, first, raised, guards, was, dds.guards,
                  cancelRequested);
    }

    /** `spin_some`: rounds until one dispatches nothing. */
    method SpinSome() returns (didWork: bool)
      requires Valid()
      modifies this, dds`attached, dds`flows, dds`guards
      ensures Valid() && nodes == old(nodes)
      ensures forall c :: dds.FlowOf(c) == old(dds.FlowOf(c)) || dds.FlowOf(c) == Drained(old(dds.FlowOf(c)))
      ensures didWork <==> dds.NonEmpty() < old(dds.NonEmpty())
      ensures !didWork ==> forall c :: dds.FlowOf(c) == old(dds.FlowOf(c))
      ensures |dds.attached| <= MAX_TRIGGERS ==>
                forall i, e :: 0 <= i < |nodes| && e in nodes[i].entities && e !in dds.dead ==>
                  dds.FlowOf(e) == Drained(old(dds.FlowOf(e)))
      ensures dds.guards.Keys == old(dds.guards).Keys
      ensures forall g :: g in dds.guards ==>
                if g == cancelGuard || g == wakeGuard || g in GuardsOf(nodes)
                then (dds.guards[g] ==> old(dds.guards)[g])
                     && (g in dds.attached && |dds.attached| <= MAX_TRIGGERS ==> !dds.guards[g])
                else dds.guards[g] == old(dds.guards)[g]
      ensures cancelRequested ==> old(cancelRequested) || old(dds.guards)[cancelGuard]
      ensures old(cancelRequested) || (old(dds.guards)[cancelGuard] && |dds.attached| <= MAX_TRIGGERS) ==> cancelRequested
    {
      hide Admissible, Drained, Agree, WellKept, ViewsOf, GuardsOf, Lowered, Quiet;
      didWork := false;
      var more := true;
      LoweredStarts(cancelGuard, wakeGuard, GuardsOf(nodes), dds.guards, cancelRequested);
      while more
        invariant Valid() && nodes == old(nodes)
        invariant forall c :: dds.FlowOf(c) == old(dds.FlowOf(c)) || dds.FlowOf(c) == Drained(old(dds.FlowOf(c)))
        invariant didWork ==> dds.NonEmpty() < old(dds.NonEmpty())
        invariant !didWork ==> forall c :: dds.FlowOf(c) == old(dds.FlowOf(c))
        invariant !more ==> forall i :: 0 <= i < |nodes| ==> !EpochMoved(epochs, nodes[i].View())
        invariant !more && |dds.attached| <= MAX_TRIGGERS ==>
                    forall id :: id in attached && attached[id].entity.Some? ==>
                      dds.FlowOf(attached[id].entity.value).queue == []
        invariant Lowered(cancelGuard, wakeGuard, GuardsOf(nodes), old(dds.guards), old(cancelRequested), dds.guards,
                          cancelRequested)
        invariant !more && |dds.attached| <= MAX_TRIGGERS ==>
                    Quiet(cancelGuard, wakeGuard, GuardsOf(nodes), dds.attached.Keys, dds.guards)
        decreases more, dds.NonEmpty()
      {
        ghost var before := dds.NonEmpty();
        if !didWork {
          EqualSets(before, old(dds.NonEmpty()));
        }
        more := SpinRound(old(dds.guards), old(cancelRequested));
        if more {
          didWork := true;
        } else {
          EqualSets(dds.NonEmpty(), before);
        }
        forall c ensures dds.FlowOf(c) == old(dds.FlowOf(c)) || dds.FlowOf(c) == Drained(old(dds.FlowOf(c))) {
          DrainedTwice(old(dds.FlowOf(c)));
        }
      }
      if !didWork {
        EqualSets(dds.NonEmpty(), old(dds.NonEmpty()));
      }
      if |dds.attached| <= MAX_TRIGGERS {
        forall i, e | 0 <= i < |nodes| && e in nodes[i].entities && e !in dds.dead
          ensures dds.FlowOf(e) == Drained(old(dds.FlowOf(e)))
        {
          CurrentEntityIsAttached(i, e);
          DrainedOfEmpty(old(dds.FlowOf(e)));
        }
      }
      OwnGuards(cancelGuard, wakeGuard, attached, nextId, dds.attached);
      LoweredGuards(cancelGuard, wakeGuard, GuardsOf(nodes), dds.attached, old(dds.guards), old(cancelRequested),
                    dds.guards, cancelRequested);
    }

    /** A live entity of a node whose epoch is recorded is in the table under an id that dispatches it. */
    lemma CurrentEntityIsAttached(i: nat, e: Handle)
      requires Valid() && i < |nodes| && !EpochMoved(epochs, nodes[i].View())
      requires e in nodes[i].entities && e !in dds.dead
      ensures e in dds.attached && dds.attached[e] in attached && attached[dds.attached[e]].entity == Some(e)
    {
      hide ViewsOf;
      var v := ViewsOf(nodes)[i];
      assert Tracked(v, epochs, dds.attached, dds.dead);
      var j :| 0 <= j < |v.entities| && v.entities[j] == e;
      assert v.entities[j] in dds.attached;
      assert WellKept(dds.guards.Keys, attached[dds.attached[e]]);
    }
  }

  /** The executor's own guards were taken as far as they are among the ids. */
  ghost predicate Taken(cancelGuard: Handle, wakeGuard: Handle, ids: seq<AttachId>, before: map<Handle, bool>,
                        after: map<Handle, bool>)
  {
    && after.Keys == before.Keys
    && forall g :: g in after ==>
         (after[g] <==> before[g] && !(g == cancelGuard && CANCEL_ATTACHMENT in ids)
                                  && !(g == wakeGuard && WAKE_ATTACHMENT in ids))
  }

  lemma NothingTaken(cancelGuard: Handle, wakeGuard: Handle, guards: map<Handle, bool>)
    ensures Taken(cancelGuard, wakeGuard, [], guards, guards)
  {
  }

  lemma TakenOne(cancelGuard: Handle, wakeGuard: Handle, ids: seq<AttachId>, id: AttachId, before: map<Handle, bool>,
                 now: map<Handle, bool>)
    requires Taken(cancelGuard, wakeGuard, ids, before, now) && cancelGuard in now && wakeGuard in now
    ensures now.Keys == before.Keys
    ensures now[cancelGuard := false].Keys == before.Keys && now[wakeGuard := false].Keys == before.Keys
    ensures Taken(cancelGuard, wakeGuard, ids + [id], before,
                  if id == CANCEL_ATTACHMENT then now[cancelGuard := false]
                  else if id == WAKE_ATTACHMENT then now[wakeGuard := false] else now)
  {
  }

  lemma TakenGuards(cancelGuard: Handle, wakeGuard: Handle, ids: seq<AttachId>, before: map<Handle, bool>,
                    after: map<Handle, bool>)
    requires Taken(cancelGuard, wakeGuard, ids, before, after)
    ensures after.Keys == before.Keys
    ensures forall g :: g in after ==>
              (after[g] <==> before[g] && !(g == cancelGuard && CANCEL_ATTACHMENT in ids)
                                       && !(g == wakeGuard && WAKE_ATTACHMENT in ids))
  {
  }

  /** Since `before`, only the executor's own guards and those of its nodes were taken, none was triggered, and the flag
      was raised iff the cancel guard was taken. */
  ghost predicate Lowered(cancelGuard: Handle, wakeGuard: Handle, listed: seq<Handle>, before: map<Handle, bool>,
                          raised: bool, after: map<Handle, bool>, flag: bool)
  {
    && after.Keys == before.Keys && cancelGuard in after
    && (flag ==> raised || before[cancelGuard])
    && (raised || (before[cancelGuard] && !after[cancelGuard]) ==> flag)
    && forall g :: g in after ==>
         && (after[g] ==> before[g])
         && (g != cancelGuard && g != wakeGuard && g !in listed ==> after[g] == before[g])
  }

  ghost predicate Quiet(cancelGuard: Handle, wakeGuard: Handle, listed: seq<Handle>, conds: set<Handle>,
                        guards: map<Handle, bool>)
  {
    forall g :: g in guards && g in conds && (g == cancelGuard || g == wakeGuard || g in listed) ==> !guards[g]
  }

  lemma LoweredStarts(cancelGuard: Handle, wakeGuard: Handle, listed: seq<Handle>, guards: map<Handle, bool>, flag: bool)
    requires cancelGuard in guards
    ensures Lowered(cancelGuard, wakeGuard, listed, guards, flag, guards, flag)
  {
  }

  lemma OwnGuards(cancelGuard: Handle, wakeGuard: Handle, attached: map<AttachId, Attached>, nextId: AttachId,
                  waitset: map<Handle, AttachId>)
    requires Agree(cancelGuard, wakeGuard, attached, nextId, waitset)
    ensures cancelGuard in waitset && waitset[cancelGuard] == CANCEL_ATTACHMENT
    ensures wakeGuard in waitset && waitset[wakeGuard] == WAKE_ATTACHMENT
    ensures cancelGuard != wakeGuard
  {
  }

  lemma GuardsApart(guards: set<Handle>, cancelGuard: Handle, wakeGuard: Handle, vs: seq<NodeView>, listed: seq<Handle>)
    requires Admissible(guards, cancelGuard, wakeGuard, vs)
    requires |vs| == |listed| && forall i :: 0 <= i < |vs| ==> vs[i].guard == listed[i]
    ensures cancelGuard !in listed && wakeGuard !in listed
  {
  }

  lemma RoundLowers(cancelGuard: Handle, wakeGuard: Handle, listed: seq<Handle>, waitset: map<Handle, AttachId>,
                    reported: seq<AttachId>, first: map<Handle, bool>, raised: bool, before: map<Handle, bool>, was: bool,
                    after: map<Handle, bool>, flag: bool)
    requires Lowered(cancelGuard, wakeGuard, listed, first, raised, before, was) && after.Keys == before.Keys
    requires cancelGuard in waitset && waitset[cancelGuard] == CANCEL_ATTACHMENT
    requires wakeGuard in waitset && waitset[wakeGuard] == WAKE_ATTACHMENT
    requires cancelGuard !in listed && cancelGuard != wakeGuard
    requires |waitset| <= MAX_TRIGGERS ==>
               forall c :: c in waitset && c in before && before[c] ==> waitset[c] in reported
    requires reported == [] ==> forall c :: c in waitset && c in before ==> !before[c]
    requires flag ==> was || before[cancelGuard]
    requires flag == (was || CANCEL_ATTACHMENT in reported)
    requires forall g :: g in after ==>
               (after[g] <==> before[g] && !(g == cancelGuard && CANCEL_ATTACHMENT in reported)
                                        && !(g == wakeGuard && WAKE_ATTACHMENT in reported)
                                        && !(g in listed && reported != []))
    ensures Lowered(cancelGuard, wakeGuard, listed, first, raised, after, flag)
    ensures |waitset| <= MAX_TRIGGERS ==> Quiet(cancelGuard, wakeGuard, listed, waitset.Keys, after)
  {
  }

  lemma LoweredGuards(cancelGuard: Handle, wakeGuard: Handle, listed: seq<Handle>, waitset: map<Handle, AttachId>,
                      before: map<Handle, bool>, raised: bool, after: map<Handle, bool>, flag: bool)
    requires Lowered(cancelGuard, wakeGuard, listed, before, raised, after, flag) && cancelGuard in waitset
    requires |waitset| <= MAX_TRIGGERS ==> Quiet(cancelGuard, wakeGuard, listed, waitset.Keys, after)
    ensures after.Keys == before.Keys && cancelGuard in after
    ensures forall g :: g in after ==>
              if g == cancelGuard || g == wakeGuard || g in listed
              then (after[g] ==> before[g]) && (g in waitset && |waitset| <= MAX_TRIGGERS ==> !after[g])
              else after[g] == before[g]
    ensures flag ==> raised || before[cancelGuard]
    ensures raised || (before[cancelGuard] && |waitset| <= MAX_TRIGGERS) ==> flag
  {
  }

  ghost predicate InBatch(attached: map<AttachId, Attached>, ids: seq<AttachId>, c: Handle) {
    exists i :: 0 <= i < |ids| && EntityOf(attached, ids[i]) == Some(c)
  }

  ghost predicate AnyEntity(attached: map<AttachId, Attached>, ids: seq<AttachId>) {
    exists i :: 0 <= i < |ids| && EntityOf(attached, ids[i]).Some?
  }

  lemma StrictlyFewer(a: set<Handle>, b: set<Handle>, c: Handle)
    requires (forall x :: x in a ==> x in b) && c in b && c !in a
    ensures a < b
  {
    forall x | x in a ensures x in b {
    }
    assert a <= b;
  }

  lemma EqualSets(a: set<Handle>, b: set<Handle>)
    requires forall x :: x in a <==> x in b
    ensures a == b
  {
    forall x | x in a ensures x in b {
    }
    forall x | x in b ensures x in a {
    }
    assert a <= b && b <= a;
  }

  lemma DrainedTwice(f: Flow)
    ensures Drained(Drained(f)) == Drained(f)
  {
    assert Drained(f).handed + [] == Drained(f).handed;
    assert Drained(f).released + [] == Drained(f).released;
  }

  lemma DrainedOfEmpty(f: Flow)
    ensures f.queue == [] ==> Drained(f) == f
  {
    assert f.handed + [] == f.handed && f.released + [] == f.released;
  }

  lemma DrainedIsEmpty(f: Flow)
    ensures Drained(f).queue == []
  {
  }

  /** An entity to dispatch is in the batch under its own condition. */
  lemma WorkIsWaiting(attached: map<AttachId, Attached>, ids: seq<AttachId>)
    ensures AnyEntity(attached, ids) ==>
              exists c :: InBatch(attached, ids, c)
                && exists i :: 0 <= i < |ids| && EntityOf(attached, ids[i]) == Some(c)
    ensures forall id :: id in ids && EntityOf(attached, id).Some? ==> AnyEntity(attached, ids)
    ensures !AnyEntity(attached, ids) ==> forall c :: !InBatch(attached, ids, c)
  {
    if AnyEntity(attached, ids) {
      var i :| 0 <= i < |ids| && EntityOf(attached, ids[i]).Some?;
      assert InBatch(attached, ids, EntityOf(attached, ids[i]).value);
    }
    forall c | InBatch(attached, ids, c) ensures AnyEntity(attached, ids) {
      var i :| 0 <= i < |ids| && EntityOf(attached, ids[i]) == Some(c);
    }
    forall id | id in ids && EntityOf(attached, id).Some? ensures AnyEntity(attached, ids) {
      var i :| 0 <= i < |ids| && ids[i] == id;
    }
  }

  lemma ReservedIds(cancelGuard: Handle, wakeGuard: Handle, attached: map<AttachId, Attached>, nextId: AttachId,
                    waitset: map<Handle, AttachId>)
    requires Agree(cancelGuard, wakeGuard, attached, nextId, waitset)
    ensures EntityOf(attached, CANCEL_ATTACHMENT) == None && EntityOf(attached, WAKE_ATTACHMENT) == None
  {
  }

  lemma BatchStarts(attached: map<AttachId, Attached>, ids: seq<AttachId>)
    ensures !AnyEntity(attached, ids[..0]) && forall c :: !InBatch(attached, ids[..0], c)
  {
  }

  lemma BatchGrows(attached: map<AttachId, Attached>, ids: seq<AttachId>, i: nat)
    requires i < |ids|
    ensures AnyEntity(attached, ids[..i + 1]) <==> AnyEntity(attached, ids[..i]) || EntityOf(attached, ids[i]).Some?
    ensures forall c :: InBatch(attached, ids[..i + 1], c) <==>
              InBatch(attached, ids[..i], c) || EntityOf(attached, ids[i]) == Some(c)
  {
    var now, next := ids[..i], ids[..i + 1];
    assert next == now + [ids[i]];
    forall c ensures InBatch(attached, next, c) <==> InBatch(attached, now, c) || EntityOf(attached, ids[i]) == Some(c) {
      if InBatch(attached, now, c) {
        var j :| 0 <= j < |now| && EntityOf(attached, now[j]) == Some(c);
        assert next[j] == now[j];
      }
      if EntityOf(attached, ids[i]) == Some(c) {
        assert next[i] == ids[i];
      }
    }
    if AnyEntity(attached, now) {
      var j :| 0 <= j < |now| && EntityOf(attached, now[j]).Some?;
      assert next[j] == now[j];
    }
    if EntityOf(attached, ids[i]).Some? {
      assert next[i] == ids[i];
    }
  }

  lemma BatchIsInjective(cancelGuard: Handle, wakeGuard: Handle, attached: map<AttachId, Attached>, nextId: AttachId,
                         waitset: map<Handle, AttachId>, guards: set<Handle>, ids: seq<AttachId>, i: nat)
    requires Agree(cancelGuard, wakeGuard, attached, nextId, waitset)
    requires forall id :: id in attached ==> WellKept(guards, attached[id])
    requires forall i, j :: 0 <= i < j < |ids| ==> ids[i] != ids[j]
    requires i < |ids| && EntityOf(attached, ids[i]).Some?
    ensures !InBatch(attached, ids[..i], EntityOf(attached, ids[i]).value)
  {
    var c := EntityOf(attached, ids[i]).value;
    assert waitset[c] == ids[i];
    forall j | 0 <= j < i ensures EntityOf(attached, ids[j]) != Some(c) {
      if EntityOf(attached, ids[j]).Some? {
        assert waitset[EntityOf(attached, ids[j]).value] == ids[j];
      }
    }
  }

  /** What a batch dispatches, seen from the waitset: the attached read conditions among the reported ids. */
  lemma BatchByCondition(cancelGuard: Handle, wakeGuard: Handle, attached: map<AttachId, Attached>, nextId: AttachId,
                         waitset: map<Handle, AttachId>, guards: set<Handle>, ids: seq<AttachId>)
    requires Agree(cancelGuard, wakeGuard, attached, nextId, waitset) && cancelGuard in guards && wakeGuard in guards
    requires forall id :: id in attached ==> WellKept(guards, attached[id])
    ensures forall c :: InBatch(attached, ids, c) <==> c in waitset && waitset[c] in ids && c !in guards
  {
    forall c ensures InBatch(attached, ids, c) <==> c in waitset && waitset[c] in ids && c !in guards {
      if InBatch(attached, ids, c) {
        var i :| 0 <= i < |ids| && EntityOf(attached, ids[i]) == Some(c);
        assert WellKept(guards, attached[ids[i]]);
      }
      if c in waitset && waitset[c] in ids && c !in guards {
        var i :| 0 <= i < |ids| && ids[i] == waitset[c];
        assert WellKept(guards, attached[ids[i]]) && EntityOf(attached, ids[i]) == Some(c);
      }
    }
  }

  lemma RestAdmissible(nodes: seq<Node>, node: Node, guards: set<Handle>, cancelGuard: Handle, wakeGuard: Handle)
    requires Admissible(guards, cancelGuard, wakeGuard, ViewsOf(nodes))
    ensures Admissible(guards, cancelGuard, wakeGuard, ViewsOf(Without(nodes, node)))
  {
    hide ViewsOf;
    var rest := Without(nodes, node);
    assert DistinctNodes(nodes) by {
      forall i, j | 0 <= i < j < |nodes| ensures nodes[i].guard != nodes[j].guard {
        assert ViewsOf(nodes)[i].guard != ViewsOf(nodes)[j].guard;
      }
    }
    WithoutIsDistinct(nodes, node);
    assert DistinctGuards(ViewsOf(rest));
    forall i | 0 <= i < |rest| ensures exists j :: 0 <= j < |nodes| && ViewsOf(rest)[i] == ViewsOf(nodes)[j] {
      var j :| 0 <= j < |nodes| && nodes[j] == rest[i];
      assert ViewsOf(rest)[i] == ViewsOf(nodes)[j];
    }
  }

  ghost predicate DistinctNodes(nodes: seq<Node>) {
    forall i, j :: 0 <= i < j < |nodes| ==> nodes[i].guard != nodes[j].guard
  }

  lemma {:induction false} WithoutIsDistinct(nodes: seq<Node>, node: Node)
    requires DistinctNodes(nodes)
    ensures DistinctNodes(Without(nodes, node))
  {
    if nodes != [] {
      WithoutIsDistinct(nodes[1..], node);
      var rest := Without(nodes[1..], node);
      forall j | 0 <= j < |rest| ensures rest[j].guard != nodes[0].guard {
        assert rest[j] in nodes[1..];
        var k :| 0 <= k < |nodes[1..]| && nodes[1..][k] == rest[j];
        assert nodes[k + 1] == rest[j];
      }
      PrependIsDistinct(nodes[0], rest);
    }
  }

  lemma PrependIsDistinct(node: Node, rest: seq<Node>)
    requires DistinctNodes(rest) && forall j :: 0 <= j < |rest| ==> rest[j].guard != node.guard
    ensures DistinctNodes([node] + rest)
  {
  }

  lemma RemovedIsDetached(nodes: seq<Node>, node: Node, guards: set<Handle>, before: Exec, after: Exec,
                          failed: set<Handle>)
    requires node in nodes && Admissible(guards, after.cancelGuard, after.wakeGuard, ViewsOf(nodes))
    requires Reconciled(before, after, ViewsOf(Without(nodes, node)), failed)
    ensures node.guard !in after.waitset
  {
    hide ViewsOf, Consistent, Reconciled, Admissible;
    GuardIsGone(nodes, node, after.cancelGuard, after.wakeGuard, guards);
    NothingRemains(before, after, ViewsOf(Without(nodes, node)), failed, node.guard);
  }

  lemma GuardIsGone(nodes: seq<Node>, node: Node, cancelGuard: Handle, wakeGuard: Handle, guards: set<Handle>)
    requires node in nodes && Admissible(guards, cancelGuard, wakeGuard, ViewsOf(nodes))
    ensures node.guard != cancelGuard && node.guard != wakeGuard
    ensures forall i :: 0 <= i < |ViewsOf(Without(nodes, node))| ==>
              node.guard != ViewsOf(Without(nodes, node))[i].guard
              && node.guard !in ViewsOf(Without(nodes, node))[i].entities
  {
    hide ViewsOf;
    var k :| 0 <= k < |nodes| && nodes[k] == node;
    assert ViewsOf(nodes)[k].guard == node.guard;
    var rest := Without(nodes, node);
    forall i | 0 <= i < |rest|
      ensures node.guard != ViewsOf(rest)[i].guard && node.guard !in ViewsOf(rest)[i].entities
    {
      var j :| 0 <= j < |nodes| && nodes[j] == rest[i];
      assert j != k;
      assert ViewsOf(nodes)[j] == rest[i].View();
    }
  }

  lemma CurrentIsAttached(cancelGuard: Handle, wakeGuard: Handle, attached: map<AttachId, Attached>, nextId: AttachId,
                          waitset: map<Handle, AttachId>, desired: map<Handle, Attached>)
    requires Agree(cancelGuard, wakeGuard, attached, nextId, waitset)
    requires cancelGuard !in desired && wakeGuard !in desired
    ensures var current := set id | id in attached :: attached[id].cond;
            forall c :: c in desired ==> (c in current <==> c in waitset)
  {
    var current := set id | id in attached :: attached[id].cond;
    forall c | c in desired ensures c in current <==> c in waitset {
      if c in waitset {
        assert attached[waitset[c]].cond == c;
      }
    }
  }

  lemma AttachedNotHeld(desired: map<Handle, Attached>, held: set<Handle>, failed: set<Handle>,
                        waitset: map<Handle, AttachId>)
    requires failed <= desired.Keys - held
    requires forall c :: c in desired ==> (c in held <==> c in waitset)
    ensures failed <= desired.Keys - waitset.Keys
  {
    forall c | c in failed ensures c in desired.Keys - waitset.Keys {
      assert c in desired.Keys - held;
    }
  }

  lemma TableWellKept(guards: set<Handle>, vs: seq<NodeView>, before: map<AttachId, Attached>,
                      trimmed: map<AttachId, Attached>, oldId: AttachId, after: map<AttachId, Attached>, newId: AttachId)
    requires ProperNodes(guards, vs) && (forall id :: id in before ==> WellKept(guards, before[id]))
    requires Trimmed(Desired(vs), before, trimmed) && Grown(Desired(vs), trimmed, oldId, after, newId)
    ensures forall id :: id in after ==> WellKept(guards, after[id])
  {
    hide Desired, WellKept, ProperNodes;
    forall id | id in after ensures WellKept(guards, after[id]) {
      if id !in trimmed {
        DesiredWellKept(guards, vs, after[id].cond);
      }
    }
  }
}
