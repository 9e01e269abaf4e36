// The steps of a run add up to what the methods of Executor and Node do, and the counters of a run count its steps.
module ExecutorRounds {
  import opened Wrappers
  import opened ExecutorSpec
  import opened ExecutorRuns
  import opened ExecutorGuarantees
  import opened ExecutorCancel

  // --- one round of the executing thread ------------------------------------------------------

  predicate RoundStep(step: Step) {
    step.Wake? || step.Process? || step.SetFlag? || step.Absorb?
  }

  /** `steps` lead from `w` to `end` and belong to the executing thread. */
  ghost predicate Leads(w: World, steps: seq<Step>, end: World) {
    && IsRun(w, steps) && After(w, steps) == end
    && forall i :: 0 <= i < |steps| ==> RoundStep(steps[i])
  }

  lemma Follow(w: World, step: Step, steps: seq<Step>, end: World)
    requires Enabled(w, step) && RoundStep(step) && Leads(Take(w, step), steps, end)
    ensures Leads(w, [step] + steps, end)
  {
    hide Enabled, Take, RoundStep;
    assert ([step] + steps)[1..] == steps;
  }

  lemma Stay(w: World)
    ensures Leads(w, [], w)
  {
  }

  lemma Join(w: World, first: seq<Step>, middle: World, second: seq<Step>, end: World)
    requires Leads(w, first, middle) && Leads(middle, second, end)
    ensures Leads(w, first + second, end)
  {
    hide RoundStep;
    RunsConcatenate(w, first, second);
  }

  /** Absorbing takes every guard of the list, and ends the round. */
  lemma {:induction false} AbsorbSteps(w: World) returns (steps: seq<Step>, end: World)
    requires w.pc.Absorbing?
    ensures Leads(w, steps, end)
    ensures end == w.(pc := if w.spinning then Test else Idle, triggered := end.triggered)
    ensures forall g :: g in end.triggered <==> g in w.triggered && g !in w.pc.guards
    decreases |w.pc.guards|
  {
    hide Leads;
    var next := Take(w, Absorb);
    if w.pc.guards == [] {
      Stay(next);
      Follow(w, Absorb, [], next);
      steps, end := [Absorb] + [], next;
    } else {
      assert w.pc.guards == [w.pc.guards[0]] + w.pc.guards[1..];
      var rest: seq<Step>;
      rest, end := AbsorbSteps(next);
      Follow(w, Absorb, rest, end);
      steps := [Absorb] + rest;
    }
  }

  /** Everything a batch touches, as it is after the ids in `done`. */
  ghost predicate Worked(w: World, done: seq<AttachId>, now: World) {
    && (forall c :: c in now.ready <==>
          c in w.ready && !(c in w.exec.waitset && w.exec.waitset[c] in done))
    && (forall g :: g in now.triggered <==>
          g in w.triggered && !(g == w.exec.cancelGuard && CANCEL_ATTACHMENT in done)
                           && !(g == w.exec.wakeGuard && WAKE_ATTACHMENT in done))
    && now.cancelRequested == (w.cancelRequested || CANCEL_ATTACHMENT in done)
    && now == w.(pc := now.pc, ready := now.ready, triggered := now.triggered, cancelRequested := now.cancelRequested,
                 swallowed := now.swallowed)
  }

  lemma WorkedTwice(w: World, first: seq<AttachId>, middle: World, second: seq<AttachId>, end: World)
    requires Worked(w, first, middle) && Worked(middle, second, end)
    ensures Worked(w, first + second, end)
  {
  }

  lemma NothingWorked(w: World, now: World)
    requires now == w.(pc := now.pc)
    ensures Worked(w, [], now)
  {
  }

  /** Only the executor's own guards are attached under the two reserved ids. */
  lemma ReservedForGuards(w: World)
    requires Inv(w)
    ensures w.exec.cancelGuard != w.exec.wakeGuard
    ensures w.exec.cancelGuard in w.exec.waitset && w.exec.waitset[w.exec.cancelGuard] == CANCEL_ATTACHMENT
    ensures w.exec.wakeGuard in w.exec.waitset && w.exec.waitset[w.exec.wakeGuard] == WAKE_ATTACHMENT
    ensures forall c :: c in w.ready && c in w.exec.waitset ==> w.exec.waitset[c] > WAKE_ATTACHMENT
  {
    hide Watched, NoneLost, OwedInv, WellKept, BatchInv;
  }

  lemma DrainingTurn(w: World)
    requires Inv(w) && w.pc.Batch? && w.pc.rest != [] && w.pc.rest[0] > WAKE_ATTACHMENT
    ensures Worked(w, [w.pc.rest[0]], Processed(w)) && Processed(w).pc == Batch(w.pc.rest[1..], w.pc.at)
  {
    hide Inv;
    var id := w.pc.rest[0];
    forall c ensures c in Processed(w).ready <==> c in w.ready && !(c in w.exec.waitset && w.exec.waitset[c] in [id]) {
      DispatchedNow(w, c);
    }
  }

  lemma GuardTurn(w: World)
    requires Inv(w) && w.pc.Batch? && w.pc.rest != [] && w.pc.rest[0] <= WAKE_ATTACHMENT
    ensures var after := Processed(w);
            if w.pc.rest[0] == CANCEL_ATTACHMENT
            then after.pc == TookCancel(w.pc.rest[1..], w.pc.at)
                 && Worked(w, [w.pc.rest[0]], Take(after, SetFlag))
                 && Take(after, SetFlag).pc == Batch(w.pc.rest[1..], w.pc.at)
            else after.pc == Batch(w.pc.rest[1..], w.pc.at) && Worked(w, [w.pc.rest[0]], after)
  {
    hide Inv, EntityOf;
    ReservedForGuards(w);
  }

  /** One id of a batch: a turn of the loop, and the store of the flag behind the cancel guard. */
  lemma OneTurn(w: World) returns (steps: seq<Step>, next: World)
    requires Inv(w) && w.pc.Batch? && w.pc.rest != []
    ensures Leads(w, steps, next) && Inv(next)
    ensures next.pc == Batch(w.pc.rest[1..], w.pc.at) && Worked(w, [w.pc.rest[0]], next)
  {
    hide Inv, Leads, Worked, Processed;
    StepKeeps(w, Process);
    var after := Processed(w);
    if w.pc.rest[0] > WAKE_ATTACHMENT {
      DrainingTurn(w);
    } else {
      GuardTurn(w);
    }
    if w.pc.rest[0] == CANCEL_ATTACHMENT {
      StepKeeps(after, SetFlag);
      next := Take(after, SetFlag);
      Stay(next);
      Follow(after, SetFlag, [], next);
      Follow(w, Process, [SetFlag] + [], next);
      steps := [Process] + ([SetFlag] + []);
    } else {
      next := after;
      Stay(next);
      Follow(w, Process, [], next);
      steps := [Process] + [];
    }
  }

  /** The dispatch loop: what ProcessBatch does to the guards, the queues and the flag. */
  lemma {:induction false} BatchSteps(w: World) returns (steps: seq<Step>, end: World)
    requires Inv(w) && w.pc.Batch?
    ensures Leads(w, steps, end) && Inv(end)
    ensures end.pc == Absorbing(w.exec.nodes) && Worked(w, w.pc.rest, end)
    decreases |w.pc.rest|
  {
    hide Inv, Leads, Worked, Processed;
    if w.pc.rest == [] {
      StepKeeps(w, Process);
      end := Processed(w);
      assert end == w.(pc := Absorbing(w.exec.nodes)) by { LoopEnds(w); }
      NothingWorked(w, end);
      Stay(end);
      Follow(w, Process, [], end);
      steps := [Process] + [];
    } else {
      var first, next := OneTurn(w);
      assert next.exec == w.exec by { WorkedFrame(w, [w.pc.rest[0]], next); }
      var second: seq<Step>;
      second, end := BatchSteps(next);
      assert [w.pc.rest[0]] + w.pc.rest[1..] == w.pc.rest;
      WorkedTwice(w, [w.pc.rest[0]], next, w.pc.rest[1..], end);
      Join(w, first, next, second, end);
      steps := first + second;
    }
  }

  lemma LoopEnds(w: World)
    requires w.pc.Batch? && w.pc.rest == []
    ensures Processed(w) == w.(pc := Absorbing(w.exec.nodes))
  {
  }

  lemma WorkedFrame(w: World, done: seq<AttachId>, now: World)
    requires Worked(w, done, now)
    ensures now.exec == w.exec && now.spinning == w.spinning
  {
  }

  /** An undisturbed round from the wait on is a run, and does what RunBatch does: the reported read conditions are
      drained, the reported guards of the executor and every listed change guard are taken, and the flag is set iff the
      cancel guard was reported. */
  lemma RoundSteps(w: World, ids: seq<AttachId>) returns (steps: seq<Step>, end: World)
    requires Inv(w) && Enabled(w, Wake(ids))
    ensures IsRun(w, [Wake(ids)] + steps) && After(w, [Wake(ids)] + steps) == end
    ensures end.pc == if w.spinning then Test else Idle
    ensures forall c :: c in end.ready <==> c in w.ready && !(c in w.exec.waitset && w.exec.waitset[c] in ids)
    ensures forall g :: g in end.triggered <==>
              && g in w.triggered && g !in w.exec.nodes
              && !(g == w.exec.cancelGuard && CANCEL_ATTACHMENT in ids)
              && !(g == w.exec.wakeGuard && WAKE_ATTACHMENT in ids)
    ensures end.cancelRequested == (w.cancelRequested || CANCEL_ATTACHMENT in ids)
    ensures end.exec == w.exec && end.nodes == w.nodes && end.conds == w.conds && end.dead == w.dead
    ensures end.spinning == w.spinning && end.returned == w.returned
  {
    hide Inv, Leads, Worked;
    StepKeeps(w, Wake(ids));
    var woken := Take(w, Wake(ids));
    var batch, absorbing := BatchSteps(woken);
    var absorbed: seq<Step>;
    WorkedExplicitly(woken, ids, absorbing);
    absorbed, end := AbsorbSteps(absorbing);
    Join(woken, batch, absorbing, absorbed, end);
    Follow(w, Wake(ids), batch + absorbed, end);
    steps := batch + absorbed;
    LeadsIsRun(w, [Wake(ids)] + steps, end);
  }

  lemma LeadsIsRun(w: World, steps: seq<Step>, end: World)
    requires Leads(w, steps, end)
    ensures IsRun(w, steps) && After(w, steps) == end
  {
  }

  lemma WorkedExplicitly(w: World, done: seq<AttachId>, now: World)
    requires Worked(w, done, now)
    ensures forall c :: c in now.ready <==> c in w.ready && !(c in w.exec.waitset && w.exec.waitset[c] in done)
    ensures forall g :: g in now.triggered <==>
              g in w.triggered && !(g == w.exec.cancelGuard && CANCEL_ATTACHMENT in done)
                               && !(g == w.exec.wakeGuard && WAKE_ATTACHMENT in done)
    ensures now.cancelRequested == (w.cancelRequested || CANCEL_ATTACHMENT in done)
    ensures now.exec == w.exec && now.nodes == w.nodes && now.conds == w.conds && now.dead == w.dead
    ensures now.spinning == w.spinning && now.returned == w.returned
  {
  }

  // --- the counters of a run --------------------------------------------------------------------

  datatype Event = Flags | Triggers | Adds | Wakes | Changes(node: Handle) | Raises(node: Handle)

  predicate Is(step: Step, e: Event) {
    match e
    case Flags => step.CancelFlag?
    case Triggers => step.CancelTrigger?
    case Adds => step.AddNode?
    case Wakes => step.TriggerWake?
    case Changes(g) => (step.AddEntity? && step.guard == g) || (step.RemoveEntity? && step.guard == g)
    case Raises(g) => step == TriggerChange(g)
  }

  /** How often it occurs. */
  function Times(steps: seq<Step>, e: Event): nat {
    if steps == [] then 0 else Count(Is(steps[0], e)) + Times(steps[1..], e)
  }

  function EpochOf(w: World, g: Handle): nat {
    if g in w.nodes then w.nodes[g].epoch else 0
  }

  function RaisingOf(w: World, g: Handle): nat {
    if g in w.nodes then w.nodes[g].raising else 0
  }

  lemma CancelTally(w: World, step: Step)
    requires Enabled(w, step)
    ensures var after := Take(w, step);
            && after.issued == w.issued + Count(Is(step, Flags))
            && after.cancelling + Count(Is(step, Triggers)) == w.cancelling + Count(Is(step, Flags))
            && after.waking + Count(Is(step, Wakes)) == w.waking + Count(Is(step, Adds))
  {
    hide EntityOf, Bumped, Without, MayReconcile, Reportable, NeedsReconcile, TurnPc, TurnTriggered, TurnReady, Hears;
    match step
    case CreateNode(_) =>
    case AddEntity(_, _) =>
    case RemoveEntity(_, _) =>
    case TriggerChange(_) =>
    case AddNode(_, _, _) =>
    case RemoveNode(_, _, _) =>
    case LoadFlag =>
    case Process =>
    case Absorb =>
    case _ =>
  }

  lemma NodeTally(w: World, step: Step, g: Handle)
    requires Enabled(w, step)
    ensures var after := Take(w, step);
            && EpochOf(after, g) == EpochOf(w, g) + Count(Is(step, Changes(g)))
            && RaisingOf(after, g) + Count(Is(step, Raises(g))) == RaisingOf(w, g) + Count(Is(step, Changes(g)))
  {
    if step.CreateNode? || step.AddEntity? || step.RemoveEntity? || step.TriggerChange? {
      hide MayReconcile, Reportable, NeedsReconcile, Without;
    } else {
      hide EpochOf, RaisingOf;
      assert Take(w, step).nodes == w.nodes by { NodesUntouched(w, step); }
      hide Take, Enabled;
      SameNodes(w, Take(w, step), g);
    }
  }

  lemma SameNodes(w: World, after: World, g: Handle)
    requires after.nodes == w.nodes
    ensures EpochOf(after, g) == EpochOf(w, g) && RaisingOf(after, g) == RaisingOf(w, g)
  {
  }

  lemma NodesUntouched(w: World, step: Step)
    requires Enabled(w, step) && !step.CreateNode? && !step.AddEntity? && !step.RemoveEntity? && !step.TriggerChange?
    ensures Take(w, step).nodes == w.nodes
  {
    hide EntityOf, MayReconcile, Reportable, NeedsReconcile, TurnPc, TurnTriggered, TurnReady, Hears;
    match step
    case AddNode(_, _, _) =>
    case RemoveNode(_, _, _) =>
    case LoadFlag =>
    case Process =>
    case Absorb =>
    case _ =>
  }

  lemma {:induction false} TallyOn(w: World, steps: seq<Step>, g: Handle)
    requires IsRun(w, steps)
    ensures var end := After(w, steps);
            && end.issued == w.issued + Times(steps, Flags)
            && end.cancelling + Times(steps, Triggers) == w.cancelling + Times(steps, Flags)
            && end.waking + Times(steps, Wakes) == w.waking + Times(steps, Adds)
            && EpochOf(end, g) == EpochOf(w, g) + Times(steps, Changes(g))
            && RaisingOf(end, g) + Times(steps, Raises(g)) == RaisingOf(w, g) + Times(steps, Changes(g))
    decreases |steps|
  {
    hide Enabled, Take, Is, EpochOf, RaisingOf;
    if steps != [] {
      CancelTally(w, steps[0]);
      NodeTally(w, steps[0], g);
      TallyOn(Take(w, steps[0]), steps[1..], g);
    }
  }

  /** Over every run: the pending triggers are the bumps, cancels and additions not yet followed by their trigger, an
      epoch is the number of changes to its node. */
  lemma CountersCount(w: World, steps: seq<Step>, g: Handle)
    requires Initial(w) && IsRun(w, steps)
    ensures var end := After(w, steps);
            && end.issued == Times(steps, Flags)
            && end.cancelling == Times(steps, Flags) - Times(steps, Triggers)
            && end.waking == Times(steps, Adds) - Times(steps, Wakes)
            && (g in end.nodes ==>
                  && end.nodes[g].epoch == Times(steps, Changes(g))
                  && end.nodes[g].raising == Times(steps, Changes(g)) - Times(steps, Raises(g)))
  {
    hide IsRun, After, Times;
    TallyOn(w, steps, g);
  }

  // --- nodes ------------------------------------------------------------------------------------

  /** What the executor sees of a node. */
  function ViewOf(w: World, g: Handle): NodeView
    requires g in w.nodes
  {
    NodeView(g, w.nodes[g].entities, w.nodes[g].epoch)
  }

  /** Creating an entity is AddEntity of the node, up to the trigger that follows as a step of its own; other nodes do
      not change. */
  lemma AdditionIsACall(w: World, g: Handle, e: Handle, other: Handle)
    requires Enabled(w, AddEntity(g, e)) && other in w.nodes && other != g
    ensures var before, after := ViewOf(w, g), Take(w, AddEntity(g, e));
            && ViewOf(after, g) == NodeView(g, before.entities + [e], before.epoch + 1)
            && ViewOf(after, other) == ViewOf(w, other) && after.triggered == w.triggered && after.exec == w.exec
  {
  }

  /** Dropping an entity is RemoveEntity of the node, up to the trigger. */
  lemma RemovalIsACall(w: World, g: Handle, e: Handle, other: Handle)
    requires Enabled(w, RemoveEntity(g, e)) && other in w.nodes && other != g
    ensures var before, after := ViewOf(w, g), Take(w, RemoveEntity(g, e));
            && ViewOf(after, g) == NodeView(g, Without(before.entities, e), before.epoch + 1)
            && ViewOf(after, other) == ViewOf(w, other) && after.triggered == w.triggered && after.exec == w.exec
  {
  }

  lemma TriggerIsACall(w: World, g: Handle, other: Handle)
    requires Enabled(w, TriggerChange(g)) && other in w.nodes
    ensures var after := Take(w, TriggerChange(g));
            && ViewOf(after, g) == ViewOf(w, g) && ViewOf(after, other) == ViewOf(w, other)
            && after.triggered == w.triggered + {g} && after.exec == w.exec
  {
  }

  /** No state of the executor keeps another thread from creating a node or an entity, dropping one, delivering data or
      cancelling. */
  lemma OthersNeverBlock(w: World, g: Handle, e: Handle)
    ensures g !in w.nodes && g != w.exec.cancelGuard && g != w.exec.wakeGuard && g !in w.conds ==>
              && Enabled(w, CreateNode(g))
              && ViewOf(Take(w, CreateNode(g)), g) == NodeView(g, [], 0)
    ensures g in w.nodes && e !in w.nodes && e != w.exec.cancelGuard && e != w.exec.wakeGuard ==>
              Enabled(w, AddEntity(g, e)) && e in Take(w, AddEntity(g, e)).conds
    ensures g in w.nodes ==> Enabled(w, RemoveEntity(g, e))
    ensures e in w.conds ==> Enabled(w, Arrive(e)) && Take(w, Arrive(e)).ready == w.ready + {e}
    ensures e in w.conds ==> Enabled(w, Vanish(e)) && Take(w, Vanish(e)).dead == w.dead + {e}
    ensures Enabled(w, CancelFlag) && Take(w, CancelFlag).cancelRequested
  {
  }

  /** A node can be added and removed whenever no thread absorbs change guards. */
  lemma MembershipCanChange(w: World, g: Handle)
    requires Inv(w) && g in w.nodes && !w.pc.Absorbing?
    ensures exists next :: Enabled(w, AddNode(g, next, {}))
    ensures exists next :: Enabled(w, RemoveNode(g, next, {}))
  {
    hide Reconciled, Watched, NoneLost, OwedInv, RestInv, BatchInv, WellKept;
    ListingKeeps(w.exec, w.nodes, w.conds, w.dead, g);
    UnlistingKeeps(w.exec, w.nodes, w.conds, w.dead, g);
    var listed, unlisted := WithListed(w.exec, g), WithUnlisted(w.exec, g);
    var with := AReconciliation(listed, Views(w.nodes, listed.nodes));
    assert Enabled(w, AddNode(g, with, {}));
    var without := AReconciliation(unlisted, Views(w.nodes, unlisted.nodes));
    assert Enabled(w, RemoveNode(g, without, {}));
  }

  /** add_node lists the node once, behind the others, and watches it: its change guard and every entity that still
      exists are attached, whatever was recorded of it before. */
  lemma AddedIsServed(w: World, g: Handle, next: Exec, failed: set<Handle>)
    requires Inv(w) && Enabled(w, AddNode(g, next, failed))
    ensures var after := Take(w, AddNode(g, next, failed));
            && after.exec.nodes == (if g in w.exec.nodes then w.exec.nodes else w.exec.nodes + [g])
            && g in after.exec.waitset && Served(after.exec, after.nodes[g], after.dead)
            && after.nodes == w.nodes && after.ready == w.ready && after.triggered == w.triggered
  {
    hide Reconciled, Watched, NoneLost, OwedInv, RestInv, BatchInv, WellKept, Served, Tracked, Settled;
    var listed := WithListed(w.exec, g);
    ListingKeeps(w.exec, w.nodes, w.conds, w.dead, g);
    ReconciledTable(listed, next, w.nodes, w.conds, w.dead, w.triggered, failed);
    ReconciledFrame(listed, next, Views(w.nodes, listed.nodes), failed);
    var i :| 0 <= i < |listed.nodes| && listed.nodes[i] == g;
    ListedIsServed(listed, next, w.nodes, w.conds, w.dead, failed, i);
  }

  lemma ListedIsServed(before: Exec, next: Exec, nodes: map<Handle, NodeState>, conds: set<Handle>, dead: set<Handle>,
                       failed: set<Handle>, i: nat)
    requires Sorted(before, nodes, conds, dead) && TableInv(next, nodes, conds, dead) && failed <= dead
    requires Reconciled(before, next, Views(nodes, before.nodes), failed) && next.nodes == before.nodes
    requires i < |before.nodes|
    ensures before.nodes[i] in next.waitset && Served(next, nodes[before.nodes[i]], dead)
  {
    hide Reconciled, WellKept, Served, Tracked, Settled, Consistent;
    ReconciledSettles(before, next, Views(nodes, before.nodes), failed, dead, i);
    SettledIsServed(next, nodes, conds, dead, i);
  }

  /** remove_node leaves nothing of the node attached: not its change guard, nor an entity no listed node shares; the
      table entries of the others stay. */
  lemma RemovedIsGone(w: World, g: Handle, next: Exec, failed: set<Handle>, c: Handle)
    requires Inv(w) && Enabled(w, RemoveNode(g, next, failed))
    requires c == g || c in w.nodes[g].entities
    requires forall h :: h in w.exec.nodes && h != g ==> c !in w.nodes[h].entities
    ensures var after := Take(w, RemoveNode(g, next, failed));
            && after.exec.nodes == Without(w.exec.nodes, g)
            && c !in after.exec.waitset
            && after.triggered == w.triggered + {w.exec.wakeGuard} && after.ready == w.ready && after.nodes == w.nodes
  {
    hide Reconciled, Watched, NoneLost, OwedInv, RestInv, BatchInv, WellKept, Consistent;
    var unlisted := WithUnlisted(w.exec, g);
    var vs := Views(w.nodes, unlisted.nodes);
    ReconciledFrame(unlisted, next, vs, failed);
    forall i | 0 <= i < |vs| ensures c != vs[i].guard && c !in vs[i].entities {
      assert unlisted.nodes[i] in w.exec.nodes;
    }
    NothingRemains(unlisted, next, vs, failed, c);
  }
}
