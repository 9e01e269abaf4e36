// All interleavings of one executing thread (spin, spin_once, spin_some) with threads that create nodes and entities,
// add and remove nodes, deliver data and cancel. Each critical section of a mutex and each atomic access is one step.
module ExecutorRuns {
  import opened Wrappers
  import opened ExecutorSpec

  /** `raising` counts the threads between an epoch bump and the trigger that follows it. */
  datatype NodeState = NodeState(entities: seq<Handle>, epoch: nat, raising: nat)

  /** Where the executing thread is; `at` is the table as it was when the batch was reported. */
  datatype Pc =
    | Idle
    | Test                                            // about to load cancel_requested_
    | Refresh                                         // about to enter the critical section before the wait
    | Waiting                                         // in dds_waitset_wait, or on the way into it
    | Batch(rest: seq<AttachId>, at: Exec)
    | TookCancel(rest: seq<AttachId>, at: Exec)       // took the cancel guard, flag not yet set
    | Absorbing(guards: seq<Handle>)                  // holds nodes_mtx_

  datatype World = World(
    exec: Exec,
    nodes: map<Handle, NodeState>,                    // every node, by its change guard
    conds: set<Handle>,                               // every read condition
    dead: set<Handle>,                                // conditions that vanished
    ready: set<Handle>,                               // read conditions with queued data
    triggered: set<Handle>,                           // guard conditions
    pc: Pc,
    spinning: bool,                                   // the round belongs to spin(), which waits forever
    cancelRequested: bool,
    cancelling: nat,                                  // cancel() calls between flag and trigger
    waking: nat,                                      // add_node() calls between unlock and trigger
    issued: nat,                                      // history: cancel() calls
    returned: nat,                                    // history: returns of spin()
    owed: bool,                                       // history: a completed cancel() no spin has returned for
    swallowed: bool,                                  // history: a single round took the cancel guard, untriggered since
    heard: bool)                                      // history: this round reported the cancel guard

  datatype Step =
    | CreateNode(guard: Handle)
    | AddEntity(guard: Handle, e: Handle)
    | RemoveEntity(guard: Handle, e: Handle)
    | TriggerChange(guard: Handle)
    | Vanish(c: Handle)
    | Arrive(c: Handle)
    | AddNode(guard: Handle, next: Exec, failed: set<Handle>)
    | TriggerWake
    | RemoveNode(guard: Handle, next: Exec, failed: set<Handle>)
    | CancelFlag
    | CancelTrigger
    | SpinStart
    | OnceStart
    | LoadFlag
    | Reconcile(next: Exec, failed: set<Handle>)
    | Wake(ids: seq<AttachId>)
    | TimeOut
    | Process
    | SetFlag
    | Absorb

  ghost predicate Initial(w: World) {
    && w.exec.cancelGuard != w.exec.wakeGuard
    && w.exec.nodes == [] && w.exec.attached == map[] && w.exec.epochs == map[] && w.exec.nextId == WAKE_ATTACHMENT
    && w.exec.waitset == map[w.exec.cancelGuard := CANCEL_ATTACHMENT, w.exec.wakeGuard := WAKE_ATTACHMENT]
    && w.nodes == map[] && w.conds == {} && w.dead == {} && w.ready == {} && w.triggered == {}
    && w.pc == Idle && !w.spinning && !w.cancelRequested && w.cancelling == 0 && w.waking == 0
    && w.issued == 0 && w.returned == 0 && !w.owed && !w.swallowed && !w.heard
  }

  function Guards(w: World): set<Handle> {
    w.nodes.Keys + {w.exec.cancelGuard, w.exec.wakeGuard}
  }

  predicate Exist(nodes: map<Handle, NodeState>, list: seq<Handle>) {
    forall i :: 0 <= i < |list| ==> list[i] in nodes
  }

  function Views(nodes: map<Handle, NodeState>, list: seq<Handle>): (vs: seq<NodeView>)
    requires Exist(nodes, list)
    ensures |vs| == |list|
    ensures forall i :: 0 <= i < |vs| ==> vs[i] == NodeView(list[i], nodes[list[i]].entities, nodes[list[i]].epoch)
  {
    seq(|list|, i requires 0 <= i < |list| => NodeView(list[i], nodes[list[i]].entities, nodes[list[i]].epoch))
  }

  predicate IsReady(w: World, c: Handle) {
    c in w.triggered || c in w.ready
  }

  /** The id belongs to an attached condition that is ready. */
  ghost predicate ReadyId(w: World, id: AttachId) {
    exists c :: c in w.exec.waitset && w.exec.waitset[c] == id && IsReady(w, c)
  }

  /** What one wait may report: distinct ready attachments, at most 64; all of them when they fit. */
  ghost predicate Reportable(w: World, ids: seq<AttachId>) {
    && 0 < |ids| <= MAX_TRIGGERS
    && (forall i, j :: 0 <= i < j < |ids| ==> ids[i] != ids[j])
    && (forall i :: 0 <= i < |ids| ==> ReadyId(w, ids[i]))
    && (|w.exec.waitset| <= MAX_TRIGGERS ==>
          forall c :: c in w.exec.waitset && IsReady(w, c) ==> w.exec.waitset[c] in ids)
  }

  /** The executor's fields after the list part of add_node, before it reconciles. */
  function WithListed(e: Exec, g: Handle): Exec {
    if g in e.nodes then e else e.(nodes := e.nodes + [g], epochs := e.epochs - {g})
  }

  function WithUnlisted(e: Exec, g: Handle): Exec {
    e.(nodes := Without(e.nodes, g), epochs := e.epochs - {g})
  }

  ghost predicate MayReconcile(w: World, before: Exec, next: Exec, failed: set<Handle>) {
    && Exist(w.nodes, before.nodes)
    && failed <= w.dead
    && Reconciled(before, next, Views(w.nodes, before.nodes), failed)
  }

  /** Handles are never reused; nodes_mtx_ excludes add_node and remove_node while change guards are absorbed. */
  ghost predicate Enabled(w: World, step: Step) {
    match step
    case CreateNode(g) => g !in Guards(w) && g !in w.conds
    case AddEntity(g, e) => g in w.nodes && e !in Guards(w)
    case RemoveEntity(g, e) => g in w.nodes
    case TriggerChange(g) => g in w.nodes && w.nodes[g].raising > 0
    case Vanish(c) => c in w.conds
    case Arrive(c) => c in w.conds
    case AddNode(g, next, failed) =>
      g in w.nodes && !w.pc.Absorbing? && MayReconcile(w, WithListed(w.exec, g), next, failed)
    case TriggerWake => w.waking > 0
    case RemoveNode(g, next, failed) =>
      g in w.nodes && !w.pc.Absorbing? && MayReconcile(w, WithUnlisted(w.exec, g), next, failed)
    case CancelFlag => true
    case CancelTrigger => w.cancelling > 0
    case SpinStart => w.pc == Idle
    case OnceStart => w.pc == Idle
    case LoadFlag => w.pc == Test
    case Reconcile(next, failed) =>
      && w.pc == Refresh && Exist(w.nodes, w.exec.nodes)
      && if NeedsReconcile(w.exec.attached, w.exec.epochs, Views(w.nodes, w.exec.nodes))
         then MayReconcile(w, w.exec, next, failed)
         else next == w.exec
    case Wake(ids) => w.pc == Waiting && Reportable(w, ids)
    case TimeOut => w.pc == Waiting && !w.spinning
    case Process => w.pc.Batch?
    case SetFlag => w.pc.TookCancel?
    case Absorb => w.pc.Absorbing?
  }

  function Bumped(n: NodeState, entities: seq<Handle>): NodeState {
    NodeState(entities, n.epoch + 1, n.raising + 1)
  }

  /** The next id to process is the cancel guard's. */
  predicate Hears(w: World) {
    w.pc.Batch? && w.pc.rest != [] && w.pc.rest[0] == CANCEL_ATTACHMENT
  }

  function TurnPc(w: World): Pc
    requires w.pc.Batch?
  {
    if w.pc.rest == [] then Absorbing(w.exec.nodes)
    else if w.pc.rest[0] == CANCEL_ATTACHMENT then TookCancel(w.pc.rest[1..], w.pc.at)
    else Batch(w.pc.rest[1..], w.pc.at)
  }

  function TurnTriggered(w: World): set<Handle>
    requires w.pc.Batch?
  {
    if w.pc.rest == [] then w.triggered
    else if w.pc.rest[0] == CANCEL_ATTACHMENT then w.triggered - {w.exec.cancelGuard}
    else if w.pc.rest[0] == WAKE_ATTACHMENT then w.triggered - {w.exec.wakeGuard}
    else w.triggered
  }

  /** A dispatch drains the entity found under the id, if any. */
  function TurnReady(w: World): set<Handle>
    requires w.pc.Batch?
  {
    if w.pc.rest == [] || w.pc.rest[0] <= WAKE_ATTACHMENT then w.ready
    else
      var entity := EntityOf(w.exec.attached, w.pc.rest[0]);
      if entity.None? then w.ready else w.ready - {entity.value}
  }

  /** One turn of the dispatch loop. */
  function Processed(w: World): World
    requires w.pc.Batch?
  {
    w.(pc := TurnPc(w), triggered := TurnTriggered(w), ready := TurnReady(w),
       swallowed := w.swallowed || (Hears(w) && !w.spinning))
  }

  function Take(w: World, step: Step): World
    requires Enabled(w, step)
  {
    match step
    case CreateNode(g) => w.(nodes := w.nodes[g := NodeState([], 0, 0)])
    case AddEntity(g, e) =>
      w.(nodes := w.nodes[g := Bumped(w.nodes[g], w.nodes[g].entities + [e])], conds := w.conds + {e})
    case RemoveEntity(g, e) => w.(nodes := w.nodes[g := Bumped(w.nodes[g], Without(w.nodes[g].entities, e))])
    case TriggerChange(g) =>
      w.(nodes := w.nodes[g := w.nodes[g].(raising := w.nodes[g].raising - 1)], triggered := w.triggered + {g})
    case Vanish(c) => w.(dead := w.dead + {c})
    case Arrive(c) => w.(ready := w.ready + {c})
    case AddNode(g, next, failed) => w.(exec := next, waking := w.waking + 1)
    case TriggerWake => w.(waking := w.waking - 1, triggered := w.triggered + {w.exec.wakeGuard})
    case RemoveNode(g, next, failed) => w.(exec := next, triggered := w.triggered + {next.wakeGuard})
    case CancelFlag => w.(cancelRequested := true, cancelling := w.cancelling + 1, issued := w.issued + 1)
    case CancelTrigger =>
      w.(cancelling := w.cancelling - 1, triggered := w.triggered + {w.exec.cancelGuard}, owed := true,
         swallowed := false)
    case SpinStart => w.(pc := Test, spinning := true, cancelRequested := false, heard := false)
    case OnceStart => w.(pc := Refresh, spinning := false, heard := false)
    case LoadFlag =>
      if w.cancelRequested then w.(pc := Idle, spinning := false, returned := w.returned + 1, owed := false)
      else w.(pc := Refresh)
    case Reconcile(next, failed) => w.(pc := Waiting, exec := next)
    case Wake(ids) => w.(pc := Batch(ids, w.exec), heard := CANCEL_ATTACHMENT in ids)
    case TimeOut => w.(pc := Idle)
    case Process => Processed(w)
    case SetFlag => w.(pc := Batch(w.pc.rest, w.pc.at), cancelRequested := true)
    case Absorb =>
      if w.pc.guards == [] then w.(pc := if w.spinning then Test else Idle)
      else w.(pc := Absorbing(w.pc.guards[1..]), triggered := w.triggered - {w.pc.guards[0]})
  }

  ghost predicate IsRun(w: World, steps: seq<Step>)
    decreases |steps|
  {
    steps == [] || (Enabled(w, steps[0]) && IsRun(Take(w, steps[0]), steps[1..]))
  }

  ghost function After(w: World, steps: seq<Step>): World
    requires IsRun(w, steps)
    decreases |steps|
  {
    if steps == [] then w else After(Take(w, steps[0]), steps[1..])
  }

  // --- invariants -----------------------------------------------------------------------

  /** Handles are used for one thing only, and the table agrees with the waitset. */
  ghost predicate Sorted(e: Exec, nodes: map<Handle, NodeState>, conds: set<Handle>, dead: set<Handle>) {
    var guards := nodes.Keys + {e.cancelGuard, e.wakeGuard};
    && Consistent(e)
    && e.cancelGuard !in nodes && e.wakeGuard !in nodes
    && guards !! conds && dead <= conds
    && Exist(nodes, e.nodes)
    && (forall i, j :: 0 <= i < j < |e.nodes| ==> e.nodes[i] != e.nodes[j])
    && (forall g :: g in nodes ==> forall c :: c in nodes[g].entities ==> c in conds)
    && (forall id :: id in e.attached ==> e.attached[id].cond in guards + conds && WellKept(guards, e.attached[id]))
  }

  /** Every listed node's change guard is attached, and a node whose epoch is recorded has its entities attached. */
  ghost predicate Watched(e: Exec, nodes: map<Handle, NodeState>, dead: set<Handle>)
    requires Exist(nodes, e.nodes)
  {
    forall i :: 0 <= i < |e.nodes| ==>
      e.nodes[i] in e.waitset && Tracked(Views(nodes, e.nodes)[i], e.epochs, e.waitset, dead)
  }

  ghost predicate TableInv(e: Exec, nodes: map<Handle, NodeState>, conds: set<Handle>, dead: set<Handle>) {
    Sorted(e, nodes, conds, dead) && Watched(e, nodes, dead)
  }

  /** The node is fully attached, or its change guard is triggered, or a thread is about to trigger it. */
  ghost predicate NotLost(e: Exec, n: NodeState, v: NodeView, dead: set<Handle>, triggered: set<Handle>) {
    || (!EpochMoved(e.epochs, v) && Settled(v, e.waitset, dead))
    || v.guard in triggered
    || n.raising > 0
  }

  ghost predicate NoneLost(e: Exec, nodes: map<Handle, NodeState>, dead: set<Handle>, triggered: set<Handle>) {
    && Exist(nodes, e.nodes)
    && forall i :: 0 <= i < |e.nodes| ==>
         NotLost(e, nodes[e.nodes[i]], Views(nodes, e.nodes)[i], dead, triggered)
  }

  /** Attachment ids only grow: an id allocated before either still has its entry or never has one again. */
  ghost predicate Extends(before: Exec, after: Exec) {
    && after.cancelGuard == before.cancelGuard && after.wakeGuard == before.wakeGuard
    && before.nextId <= after.nextId
    && forall id :: id in after.attached && id <= before.nextId ==>
         id in before.attached && after.attached[id] == before.attached[id]
  }

  /** A reported batch consists of the two guards and ids allocated when it was reported. */
  ghost predicate Captured(rest: seq<AttachId>, at: Exec, now: Exec) {
    && Extends(at, now) && Consistent(at)
    && forall i :: 0 <= i < |rest| ==> rest[i] <= at.nextId
  }

  ghost predicate BatchInv(pc: Pc, e: Exec) {
    pc.Batch? || pc.TookCancel? ==> Captured(pc.rest, pc.at, e)
  }

  /** The batch still holds the cancel guard. */
  predicate Announced(pc: Pc) {
    pc.Batch? && CANCEL_ATTACHMENT in pc.rest
  }

  /** A completed cancel no single round took is still visible to the spinning thread, and a round that reported it is
      the last. */
  ghost predicate OwedInv(w: World) {
    var raised := w.exec.cancelGuard in w.triggered;
    && (w.swallowed ==> !raised)
    && (w.owed && !w.swallowed ==>
          if w.pc.Idle? || w.pc.Refresh? || w.pc.Waiting? || !w.spinning then raised
          else raised || w.cancelRequested || w.pc.TookCancel?)
    && (w.spinning && w.heard ==>
          && !w.pc.Refresh? && !w.pc.Waiting?
          && (w.cancelRequested || w.pc.TookCancel? || Announced(w.pc)))
    && (w.pc.Test? ==> w.spinning) && (w.pc.Idle? ==> !w.spinning)
  }

  /** The batch holds distinct ids; while the cancel guard is still to be processed it stays triggered. */
  ghost predicate RestInv(w: World) {
    && (Announced(w.pc) ==> w.exec.cancelGuard in w.triggered)
    && (w.pc.Batch? ==> IdsOnce(w.pc.rest))
    && (w.pc.TookCancel? ==> IdsOnce(w.pc.rest) && CANCEL_ATTACHMENT !in w.pc.rest)
    && (w.pc.Absorbing? ==> Exist(w.nodes, w.pc.guards))
    && w.ready <= w.conds
  }

  ghost predicate IdsOnce(ids: seq<int>) {
    forall i, j :: 0 <= i < j < |ids| ==> ids[i] != ids[j]
  }

  function Count(b: bool): nat {
    if b then 1 else 0
  }

  /** What a run has used up of its cancels: each pays for two returns, one by the flag and one by the guard. */
  function Spent(w: World): nat {
    w.returned + Count(w.spinning && w.cancelRequested) + Count(w.exec.cancelGuard in w.triggered) + w.cancelling
    + Count(w.pc.TookCancel?)
  }

  ghost predicate Inv(w: World) {
    && TableInv(w.exec, w.nodes, w.conds, w.dead)
    && (w.pc.Waiting? ==> NoneLost(w.exec, w.nodes, w.dead, w.triggered))
    && BatchInv(w.pc, w.exec)
    && OwedInv(w) && RestInv(w)
    && Spent(w) <= 2 * w.issued
  }

  lemma InitialInv(w: World)
    requires Initial(w)
    ensures Inv(w)
  {
  }

  // --- the table under changes of the nodes ----------------------------------------------

  lemma CreatedTable(e: Exec, nodes: map<Handle, NodeState>, conds: set<Handle>, dead: set<Handle>, g: Handle)
    requires TableInv(e, nodes, conds, dead)
    requires g !in nodes && g != e.cancelGuard && g != e.wakeGuard && g !in conds
    ensures TableInv(e, nodes[g := NodeState([], 0, 0)], conds, dead)
  {
    hide Consistent, Tracked;
    var grown := nodes[g := NodeState([], 0, 0)];
    assert forall i :: 0 <= i < |e.nodes| ==> Views(grown, e.nodes)[i] == Views(nodes, e.nodes)[i];
  }

  /** The entities of one node changed and its epoch moved on. */
  lemma BumpedTable(e: Exec, nodes: map<Handle, NodeState>, conds: set<Handle>, dead: set<Handle>, g: Handle,
                    es: seq<Handle>, more: set<Handle>)
    requires TableInv(e, nodes, conds, dead) && g in nodes
    requires conds <= more && more !! (nodes.Keys + {e.cancelGuard, e.wakeGuard}) && forall c :: c in es ==> c in more
    ensures TableInv(e, nodes[g := Bumped(nodes[g], es)], more, dead)
  {
    hide Consistent, Settled;
    var changed := nodes[g := Bumped(nodes[g], es)];
    forall i | 0 <= i < |e.nodes| ensures Tracked(Views(changed, e.nodes)[i], e.epochs, e.waitset, dead) {
      assert Tracked(Views(nodes, e.nodes)[i], e.epochs, e.waitset, dead);
    }
    assert changed.Keys == nodes.Keys;
  }

  lemma BumpedNotLost(e: Exec, nodes: map<Handle, NodeState>, dead: set<Handle>, triggered: set<Handle>, g: Handle,
                      es: seq<Handle>)
    requires NoneLost(e, nodes, dead, triggered) && g in nodes
    ensures NoneLost(e, nodes[g := Bumped(nodes[g], es)], dead, triggered)
  {
    hide Settled, EpochMoved;
    var changed := nodes[g := Bumped(nodes[g], es)];
    forall i | 0 <= i < |e.nodes|
      ensures NotLost(e, changed[e.nodes[i]], Views(changed, e.nodes)[i], dead, triggered)
    {
      assert NotLost(e, nodes[e.nodes[i]], Views(nodes, e.nodes)[i], dead, triggered);
    }
  }

  /** A thread that bumped the epoch has triggered the change guard. */
  lemma RaisedKeeps(e: Exec, nodes: map<Handle, NodeState>, conds: set<Handle>, dead: set<Handle>,
                    triggered: set<Handle>, g: Handle)
    requires g in nodes && nodes[g].raising > 0
    ensures var changed := nodes[g := nodes[g].(raising := nodes[g].raising - 1)];
            && (TableInv(e, nodes, conds, dead) ==> TableInv(e, changed, conds, dead))
            && (NoneLost(e, nodes, dead, triggered) ==> NoneLost(e, changed, dead, triggered + {g}))
  {
    hide Consistent, Tracked, Settled, EpochMoved, WellKept;
    var changed := nodes[g := nodes[g].(raising := nodes[g].raising - 1)];
    assert changed.Keys == nodes.Keys;
    if Exist(nodes, e.nodes) {
      assert Views(changed, e.nodes) == Views(nodes, e.nodes);
    }
    if NoneLost(e, nodes, dead, triggered) {
      forall i | 0 <= i < |e.nodes|
        ensures NotLost(e, changed[e.nodes[i]], Views(changed, e.nodes)[i], dead, triggered + {g})
      {
        assert NotLost(e, nodes[e.nodes[i]], Views(nodes, e.nodes)[i], dead, triggered);
      }
    }
  }

  lemma VanishedKeeps(e: Exec, nodes: map<Handle, NodeState>, conds: set<Handle>, dead: set<Handle>,
                      triggered: set<Handle>, c: Handle)
    requires c in conds
    ensures TableInv(e, nodes, conds, dead) ==> TableInv(e, nodes, conds, dead + {c})
    ensures NoneLost(e, nodes, dead, triggered) ==> NoneLost(e, nodes, dead + {c}, triggered)
  {
    hide Consistent, EpochMoved, WellKept;
  }

  lemma TriggeredKeeps(e: Exec, nodes: map<Handle, NodeState>, dead: set<Handle>, triggered: set<Handle>, g: Handle)
    requires NoneLost(e, nodes, dead, triggered)
    ensures NoneLost(e, nodes, dead, triggered + {g})
  {
    hide Settled, EpochMoved;
  }

  // --- reconciliation -----------------------------------------------------------------------

  /** A reconciliation against the current nodes leaves every listed node watched and none lost. */
  lemma ReconciledTable(before: Exec, after: Exec, nodes: map<Handle, NodeState>, conds: set<Handle>, dead: set<Handle>,
                        triggered: set<Handle>, failed: set<Handle>)
    requires Sorted(before, nodes, conds, dead) && failed <= dead
    requires Reconciled(before, after, Views(nodes, before.nodes), failed)
    ensures TableInv(after, nodes, conds, dead) && NoneLost(after, nodes, dead, triggered) && Extends(before, after)
  {
    hide Consistent, Reconciled, Tracked, Settled, EpochMoved, WellKept;
    var vs := Views(nodes, before.nodes);
    assert after.nodes == before.nodes && Extends(before, after) && Consistent(after) by {
      ReconciledFrame(before, after, vs, failed);
    }
    forall i | 0 <= i < |vs|
      ensures Tracked(vs[i], after.epochs, after.waitset, dead) && !EpochMoved(after.epochs, vs[i])
      ensures Settled(vs[i], after.waitset, dead) && vs[i].guard in after.waitset
    {
      ReconciledSettles(before, after, vs, failed, dead, i);
      assert vs[i].guard !in dead;
      GuardAttached(vs[i], after.waitset, dead);
    }
    forall id | id in after.attached
      ensures after.attached[id].cond in nodes.Keys + {after.cancelGuard, after.wakeGuard} + conds
      ensures WellKept(nodes.Keys + {after.cancelGuard, after.wakeGuard}, after.attached[id])
    {
      ReconciledEntry(before, after, nodes, conds, dead, failed, id);
    }
  }

  lemma ReconciledFrame(before: Exec, after: Exec, vs: seq<NodeView>, failed: set<Handle>)
    requires Reconciled(before, after, vs, failed)
    ensures after.nodes == before.nodes && Extends(before, after) && Consistent(after)
  {
    hide Desired, RecordedEpochs, Consistent;
  }

  lemma GuardAttached(v: NodeView, waitset: map<Handle, AttachId>, dead: set<Handle>)
    requires Settled(v, waitset, dead) && v.guard !in dead
    ensures v.guard in waitset
  {
  }

  /** An entry after the reconciliation is an old one or the desired one of its condition. */
  lemma ReconciledEntry(before: Exec, after: Exec, nodes: map<Handle, NodeState>, conds: set<Handle>, dead: set<Handle>,
                        failed: set<Handle>, id: AttachId)
    requires Sorted(before, nodes, conds, dead)
    requires Reconciled(before, after, Views(nodes, before.nodes), failed) && id in after.attached
    ensures var guards := nodes.Keys + {before.cancelGuard, before.wakeGuard};
            after.attached[id].cond in guards + conds && WellKept(guards, after.attached[id])
  {
    hide Desired, RecordedEpochs, Consistent, WellKept;
    if id > before.nextId {
      var vs := Views(nodes, before.nodes);
      var c := after.attached[id].cond;
      assert after.attached[id] == Desired(vs)[c] && c in Desired(vs);
      DesiredKeys(vs, c);
      assert ProperNodes(nodes.Keys + {before.cancelGuard, before.wakeGuard}, vs) by {
        ListedAreProper(before, nodes, conds, dead);
      }
      DesiredWellKept(nodes.Keys + {before.cancelGuard, before.wakeGuard}, vs, c);
    }
  }

  lemma ListedAreProper(e: Exec, nodes: map<Handle, NodeState>, conds: set<Handle>, dead: set<Handle>)
    requires Sorted(e, nodes, conds, dead)
    ensures ProperNodes(nodes.Keys + {e.cancelGuard, e.wakeGuard}, Views(nodes, e.nodes))
  {
    hide Consistent, WellKept;
    var vs := Views(nodes, e.nodes);
    forall i | 0 <= i < |vs|
      ensures vs[i].guard in nodes.Keys
      ensures forall j :: 0 <= j < |vs[i].entities| ==> vs[i].entities[j] in conds
    {
      var g := e.nodes[i];
      assert g in nodes && vs[i].entities == nodes[g].entities;
      assert forall c :: c in nodes[g].entities ==> c in conds;
    }
  }

  lemma ListingKeeps(e: Exec, nodes: map<Handle, NodeState>, conds: set<Handle>, dead: set<Handle>, g: Handle)
    requires Sorted(e, nodes, conds, dead) && g in nodes
    ensures Sorted(WithListed(e, g), nodes, conds, dead) && Extends(e, WithListed(e, g))
  {
    hide WellKept;
  }

  lemma UnlistingKeeps(e: Exec, nodes: map<Handle, NodeState>, conds: set<Handle>, dead: set<Handle>, g: Handle)
    requires Sorted(e, nodes, conds, dead) && g in nodes
    ensures Sorted(WithUnlisted(e, g), nodes, conds, dead) && Extends(e, WithUnlisted(e, g))
  {
    hide WellKept;
    WithoutOnce(e.nodes, g);
    assert Exist(nodes, Without(e.nodes, g));
  }

  lemma {:induction false} WithoutOnce(s: seq<Handle>, x: Handle)
    requires IdsOnce(s)
    ensures IdsOnce(Without(s, x))
  {
    if s != [] {
      WithoutOnce(s[1..], x);
      var rest := Without(s[1..], x);
      forall j | 0 <= j < |rest| ensures rest[j] != s[0] {
        assert rest[j] in s[1..];
      }
    }
  }

  // --- the steps ------------------------------------------------------------------------------

  /** The batch and the cancel history do not depend on the nodes. */
  lemma NodesStep(w: World, step: Step)
    requires Inv(w) && Enabled(w, step)
    requires step.CreateNode? || step.AddEntity? || step.RemoveEntity? || step.TriggerChange? || step.Vanish?
             || step.Arrive?
    ensures Inv(Take(w, step)) && Take(w, step).exec == w.exec
  {
    hide TableInv, NoneLost, Captured;
    var after := Take(w, step);
    assert Sorted(w.exec, w.nodes, w.conds, w.dead) by {
      TableIsSorted(w.exec, w.nodes, w.conds, w.dead);
    }
    match step
    case CreateNode(g) =>
      CreatedTable(w.exec, w.nodes, w.conds, w.dead, g);
      if w.pc.Waiting? { CreatedNotLost(w.exec, w.nodes, w.dead, w.triggered, g); }
    case AddEntity(g, e) =>
      BumpedTable(w.exec, w.nodes, w.conds, w.dead, g, w.nodes[g].entities + [e], w.conds + {e});
      if w.pc.Waiting? { BumpedNotLost(w.exec, w.nodes, w.dead, w.triggered, g, w.nodes[g].entities + [e]); }
    case RemoveEntity(g, e) =>
      BumpedTable(w.exec, w.nodes, w.conds, w.dead, g, Without(w.nodes[g].entities, e), w.conds);
      if w.pc.Waiting? { BumpedNotLost(w.exec, w.nodes, w.dead, w.triggered, g, Without(w.nodes[g].entities, e)); }
    case TriggerChange(g) =>
      RaisedKeeps(w.exec, w.nodes, w.conds, w.dead, w.triggered, g);
    case Vanish(c) =>
      VanishedKeeps(w.exec, w.nodes, w.conds, w.dead, w.triggered, c);
    case Arrive(c) =>
  }

  lemma TableIsSorted(e: Exec, nodes: map<Handle, NodeState>, conds: set<Handle>, dead: set<Handle>)
    requires TableInv(e, nodes, conds, dead)
    ensures Sorted(e, nodes, conds, dead)
  {
  }

  lemma CreatedNotLost(e: Exec, nodes: map<Handle, NodeState>, dead: set<Handle>, triggered: set<Handle>, g: Handle)
    requires NoneLost(e, nodes, dead, triggered) && g !in nodes
    ensures NoneLost(e, nodes[g := NodeState([], 0, 0)], dead, triggered)
  {
    hide NotLost;
    var grown := nodes[g := NodeState([], 0, 0)];
    forall i | 0 <= i < |e.nodes|
      ensures NotLost(e, grown[e.nodes[i]], Views(grown, e.nodes)[i], dead, triggered)
    {
      assert Views(grown, e.nodes)[i] == Views(nodes, e.nodes)[i];
      assert NotLost(e, nodes[e.nodes[i]], Views(nodes, e.nodes)[i], dead, triggered);
    }
  }

  lemma CancelStep(w: World, step: Step)
    requires Inv(w) && Enabled(w, step) && (step.CancelFlag? || step.CancelTrigger? || step.TriggerWake?)
    ensures Inv(Take(w, step)) && Take(w, step).exec == w.exec
  {
    hide TableInv, NoneLost, Captured;
    ApartGuards(w);
    if w.pc.Waiting? {
      TriggeredKeeps(w.exec, w.nodes, w.dead, w.triggered, w.exec.wakeGuard);
      TriggeredKeeps(w.exec, w.nodes, w.dead, w.triggered, w.exec.cancelGuard);
    }
  }

  lemma ControlStep(w: World, step: Step)
    requires Inv(w) && Enabled(w, step)
    requires step.SpinStart? || step.OnceStart? || step.LoadFlag? || step.TimeOut? || step.SetFlag?
    ensures Inv(Take(w, step)) && Take(w, step).exec == w.exec
  {
    hide TableInv, NoneLost, Captured, IdsOnce;
  }

  lemma ApartGuards(w: World)
    requires Inv(w)
    ensures w.exec.cancelGuard != w.exec.wakeGuard
    ensures w.exec.cancelGuard !in w.nodes && w.exec.cancelGuard !in w.conds
  {
    hide WellKept, Watched, NoneLost;
  }

  /** add_node, remove_node and the critical section before the wait. */
  lemma ReconcileStep(w: World, step: Step)
    requires Inv(w) && Enabled(w, step) && (step.AddNode? || step.RemoveNode? || step.Reconcile?)
    ensures Inv(Take(w, step)) && Extends(w.exec, Take(w, step).exec)
  {
    hide TableInv, NoneLost, Captured, Sorted, Reconciled, Extends;
    TableIsSorted(w.exec, w.nodes, w.conds, w.dead);
    ApartGuards(w);
    var after := Take(w, step);
    match step
    case AddNode(g, next, failed) =>
      ListingKeeps(w.exec, w.nodes, w.conds, w.dead, g);
      ReconciledTable(WithListed(w.exec, g), next, w.nodes, w.conds, w.dead, after.triggered, failed);
      ExtendsOn(w.exec, WithListed(w.exec, g), next, w.pc);
    case RemoveNode(g, next, failed) =>
      UnlistingKeeps(w.exec, w.nodes, w.conds, w.dead, g);
      ReconciledTable(WithUnlisted(w.exec, g), next, w.nodes, w.conds, w.dead, after.triggered, failed);
      ExtendsOn(w.exec, WithUnlisted(w.exec, g), next, w.pc);
    case Reconcile(next, failed) =>
      if NeedsReconcile(w.exec.attached, w.exec.epochs, Views(w.nodes, w.exec.nodes)) {
        ReconciledTable(w.exec, next, w.nodes, w.conds, w.dead, after.triggered, failed);
      } else {
        CurrentNotLost(w.exec, w.nodes, w.conds, w.dead, w.triggered);
      }
      ExtendsOn(w.exec, w.exec, next, w.pc);
  }

  lemma ExtendsOn(a: Exec, b: Exec, c: Exec, pc: Pc)
    requires Extends(a, b) && Extends(b, c)
    ensures Extends(a, c) && (BatchInv(pc, a) ==> BatchInv(pc, c))
    ensures c.cancelGuard == a.cancelGuard && c.wakeGuard == a.wakeGuard
  {
  }

  /** If no epoch moved, every listed node is settled. */
  lemma CurrentNotLost(e: Exec, nodes: map<Handle, NodeState>, conds: set<Handle>, dead: set<Handle>,
                       triggered: set<Handle>)
    requires TableInv(e, nodes, conds, dead) && !NeedsReconcile(e.attached, e.epochs, Views(nodes, e.nodes))
    ensures NoneLost(e, nodes, dead, triggered) && Extends(e, e)
  {
    hide Sorted, Settled;
    assert Exist(nodes, e.nodes) by { TableIsSorted(e, nodes, conds, dead); }
    var vs := Views(nodes, e.nodes);
    forall i | 0 <= i < |e.nodes| ensures NotLost(e, nodes[e.nodes[i]], vs[i], dead, triggered) {
      assert Tracked(vs[i], e.epochs, e.waitset, dead) && !EpochMoved(e.epochs, vs[i]);
    }
  }

  lemma WakeStep(w: World, ids: seq<AttachId>)
    requires Inv(w) && Enabled(w, Wake(ids))
    ensures Inv(Take(w, Wake(ids)))
  {
    hide TableInv, NoneLost, WellKept;
    TableIsSorted(w.exec, w.nodes, w.conds, w.dead);
    forall i | 0 <= i < |ids|
      ensures ids[i] <= w.exec.nextId && (ids[i] == CANCEL_ATTACHMENT ==> w.exec.cancelGuard in w.triggered)
    {
      assert ReadyId(w, ids[i]);
      var c :| c in w.exec.waitset && w.exec.waitset[c] == ids[i] && IsReady(w, c);
      if c != w.exec.cancelGuard && c != w.exec.wakeGuard {
        assert w.exec.attached[w.exec.waitset[c]].cond == c;
      }
    }
  }

  lemma RestOnce(ids: seq<AttachId>)
    requires IdsOnce(ids) && ids != []
    ensures IdsOnce(ids[1..]) && ids[0] !in ids[1..]
    ensures forall id :: id in ids[1..] ==> id in ids
    ensures forall id :: id in ids ==> id == ids[0] || id in ids[1..]
  {
    assert ids == [ids[0]] + ids[1..];
  }

  /** The part of the invariant about the executing thread and the cancels. */
  ghost predicate ThreadInv(w: World) {
    OwedInv(w) && RestInv(w) && Spent(w) <= 2 * w.issued
  }

  lemma ProcessStep(w: World)
    requires Inv(w) && w.pc.Batch?
    ensures Inv(Processed(w))
  {
    ApartGuards(w);
    hide TableInv, NoneLost, Extends, IdsOnce, EntityOf, OwedInv, RestInv, Spent, Announced, Processed;
    ProcessedFrame(w);
    if w.pc.rest == [] {
      ProcessNone(w);
    } else {
      RestOnce(w.pc.rest) by { assert IdsOnce(w.pc.rest) by { RestIsOnce(w); } }
      if w.pc.rest[0] == CANCEL_ATTACHMENT {
        ProcessCancel(w);
      } else {
        ProcessOther(w);
      }
    }
  }

  lemma ProcessedFrame(w: World)
    requires w.pc.Batch?
    ensures var after := Processed(w);
            && after.exec == w.exec && after.nodes == w.nodes && after.conds == w.conds && after.dead == w.dead
            && after.issued == w.issued && !after.pc.Waiting?
            && (BatchInv(w.pc, w.exec) ==> BatchInv(after.pc, w.exec))
  {
    hide EntityOf, Extends;
  }

  lemma ProcessKeeps(w: World)
    requires Inv(w) && Enabled(w, Process)
    ensures Inv(Take(w, Process)) && Take(w, Process).exec == w.exec
  {
    hide Inv;
    ProcessStep(w);
  }

  lemma RestIsOnce(w: World)
    requires RestInv(w) && w.pc.Batch?
    ensures IdsOnce(w.pc.rest)
  {
  }

  lemma ProcessNone(w: World)
    requires Inv(w) && w.pc.Batch? && w.pc.rest == []
    ensures ThreadInv(Processed(w))
  {
    hide Watched, NoneLost, Extends, IdsOnce, WellKept, Consistent;
  }

  lemma ProcessCancel(w: World)
    requires ThreadInv(w) && w.pc.Batch? && w.pc.rest != []
    requires w.pc.rest[0] == CANCEL_ATTACHMENT && IdsOnce(w.pc.rest[1..]) && CANCEL_ATTACHMENT !in w.pc.rest[1..]
    ensures ThreadInv(Processed(w))
  {
    hide IdsOnce, EntityOf;
  }

  lemma ProcessOther(w: World)
    requires ThreadInv(w) && w.pc.Batch? && w.pc.rest != []
    requires w.pc.rest[0] != CANCEL_ATTACHMENT && IdsOnce(w.pc.rest[1..]) && w.exec.cancelGuard != w.exec.wakeGuard
    requires CANCEL_ATTACHMENT in w.pc.rest <==> CANCEL_ATTACHMENT in w.pc.rest[1..]
    ensures ThreadInv(Processed(w))
  {
    hide IdsOnce, OwedInv, RestInv, Spent;
    var after := Processed(w);
    assert Announced(after.pc) <==> Announced(w.pc);
    assert after == w.(pc := after.pc, triggered := after.triggered, ready := after.ready);
    assert after.ready <= w.ready;
    hide Processed, Announced;
    QuietProcessing(w, after);
  }

  /** A turn that touches neither the cancel guard nor the flag. */
  lemma QuietProcessing(w: World, after: World)
    requires ThreadInv(w) && w.pc.Batch? && after.pc.Batch? && IdsOnce(after.pc.rest)
    requires after == w.(pc := after.pc, triggered := after.triggered, ready := after.ready)
    requires w.exec.cancelGuard in after.triggered <==> w.exec.cancelGuard in w.triggered
    requires Announced(after.pc) <==> Announced(w.pc)
    requires after.ready <= w.ready
    ensures ThreadInv(after)
  {
    hide IdsOnce, Announced;
  }

  lemma AbsorbStep(w: World)
    requires Inv(w) && Enabled(w, Absorb)
    ensures Inv(Take(w, Absorb)) && Take(w, Absorb).exec == w.exec
  {
    hide TableInv, NoneLost, Consistent, WellKept;
    TableIsSorted(w.exec, w.nodes, w.conds, w.dead);
  }

  /** Every step keeps the invariant and never reuses an attachment id. */
  lemma StepKeeps(w: World, step: Step)
    requires Inv(w) && Enabled(w, step)
    ensures Inv(Take(w, step)) && Extends(w.exec, Take(w, step).exec)
  {
    hide Inv, Enabled, Take;
    match step
    case AddNode(_, _, _) => ReconcileStep(w, step);
    case RemoveNode(_, _, _) => ReconcileStep(w, step);
    case Reconcile(_, _) => ReconcileStep(w, step);
    case Wake(ids) => WakeStep(w, ids); WakeKeepsTable(w, ids);
    case Process => ProcessKeeps(w);
    case Absorb => AbsorbStep(w);
    case CreateNode(_) => NodesStep(w, step);
    case AddEntity(_, _) => NodesStep(w, step);
    case RemoveEntity(_, _) => NodesStep(w, step);
    case TriggerChange(_) => NodesStep(w, step);
    case Vanish(_) => NodesStep(w, step);
    case Arrive(_) => NodesStep(w, step);
    case CancelFlag => CancelStep(w, step);
    case CancelTrigger => CancelStep(w, step);
    case TriggerWake => CancelStep(w, step);
    case _ => ControlStep(w, step);
  }

  lemma WakeKeepsTable(w: World, ids: seq<AttachId>)
    requires Enabled(w, Wake(ids))
    ensures Take(w, Wake(ids)).exec == w.exec
  {
  }

  /** The invariant holds throughout every run, and no run reuses an attachment id. */
  lemma {:induction false} RunKeeps(w: World, steps: seq<Step>)
    requires Inv(w) && IsRun(w, steps)
    ensures Inv(After(w, steps)) && Extends(w.exec, After(w, steps).exec)
    decreases |steps|
  {
    hide Inv, Enabled, Take;
    if steps != [] {
      StepKeeps(w, steps[0]);
      RunKeeps(Take(w, steps[0]), steps[1..]);
    }
  }

  lemma {:induction false} RunsConcatenate(w: World, first: seq<Step>, second: seq<Step>)
    ensures IsRun(w, first) && IsRun(After(w, first), second) <==> IsRun(w, first + second)
    ensures IsRun(w, first + second) ==> After(w, first + second) == After(After(w, first), second)
    decreases |first|
  {
    hide Enabled, Take;
    if first == [] {
      assert first + second == second;
    } else {
      assert (first + second)[0] == first[0] && (first + second)[1..] == first[1..] + second;
      if Enabled(w, first[0]) {
        RunsConcatenate(Take(w, first[0]), first[1..], second);
      }
    }
  }
}
