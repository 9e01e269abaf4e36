// Cancelling: when a spinning executor is sure to return, when it may, and which cancels are lost.
module ExecutorCancel {
  import opened ExecutorSpec
  import opened ExecutorRuns
  import opened ExecutorGuarantees

  // --- safety ----------------------------------------------------------------------------------

  /** The wait is able to report the cancel guard. */
  ghost predicate CanHear(w: World) {
    exists ids :: Enabled(w, Wake(ids)) && CANCEL_ATTACHMENT in ids
  }

  /** While the executing thread waits after a completed cancel, the wait can report the cancel guard iff no single
      round has taken it since; and then, if all attachments fit the report, every report contains it. */
  lemma CancelIsHeard(w: World, steps: seq<Step>)
    requires Initial(w) && IsRun(w, steps) && After(w, steps).pc.Waiting? && After(w, steps).owed
    ensures var end := After(w, steps);
            && (CanHear(end) <==> !end.swallowed)
            && (!end.swallowed && |end.exec.waitset| <= MAX_TRIGGERS ==>
                  forall ids :: Enabled(end, Wake(ids)) ==> CANCEL_ATTACHMENT in ids)
  {
    hide Inv, Take, Initial, Enabled, CanHear;
    InitialInv(w);
    RunKeeps(w, steps);
    HearingMeansRaised(After(w, steps));
    RaisedMeansNotSwallowed(After(w, steps));
  }

  /** A wait can report the cancel guard iff it is triggered. */
  lemma HearingMeansRaised(w: World)
    requires Inv(w) && w.pc.Waiting?
    ensures CanHear(w) <==> w.exec.cancelGuard in w.triggered
    ensures w.exec.cancelGuard in w.triggered && |w.exec.waitset| <= MAX_TRIGGERS ==>
              forall ids :: Enabled(w, Wake(ids)) ==> CANCEL_ATTACHMENT in ids
  {
    hide Inv;
    CancelAttached(w);
    if w.exec.cancelGuard in w.triggered {
      var ids := WaitCanReport(w, w.exec.cancelGuard);
      assert Enabled(w, Wake(ids)) && CANCEL_ATTACHMENT in ids;
    }
    forall ids | Enabled(w, Wake(ids)) && CANCEL_ATTACHMENT in ids ensures w.exec.cancelGuard in w.triggered {
      var i :| 0 <= i < |ids| && ids[i] == CANCEL_ATTACHMENT;
      assert ReadyId(w, ids[i]);
      OnlyGuardIsReported(w);
    }
  }

  lemma OnlyGuardIsReported(w: World)
    requires Inv(w) && ReadyId(w, CANCEL_ATTACHMENT)
    ensures w.exec.cancelGuard in w.triggered
  {
    hide OwedInv, NoneLost, BatchInv, WellKept, Watched;
    ConsistentIsInjective(w.exec);
    ApartGuards(w);
    var c :| c in w.exec.waitset && w.exec.waitset[c] == CANCEL_ATTACHMENT && IsReady(w, c);
    assert c == w.exec.cancelGuard;
  }

  lemma RaisedMeansNotSwallowed(w: World)
    requires Inv(w) && w.pc.Waiting? && w.owed
    ensures w.exec.cancelGuard in w.triggered <==> !w.swallowed
  {
    hide TableInv, NoneLost, BatchInv, RestInv;
  }

  lemma CancelAttached(w: World)
    requires Inv(w)
    ensures Consistent(w.exec)
    ensures w.exec.cancelGuard in w.exec.waitset && w.exec.waitset[w.exec.cancelGuard] == CANCEL_ATTACHMENT
  {
    hide OwedInv, RestInv, NoneLost, BatchInv, WellKept;
  }

  /** A spin that heard of a cancel keeps going only until it next loads the flag. */
  lemma {:induction false} HeardSpinReturns(w: World, steps: seq<Step>)
    requires Inv(w) && IsRun(w, steps) && w.spinning && w.heard
    ensures var end := After(w, steps);
            end.returned > w.returned || (end.spinning && end.heard && !end.pc.Waiting? && !end.pc.Refresh?)
    decreases |steps|
  {
    hide TableInv, NoneLost, BatchInv, RestInv;
    if steps != [] {
      var next := Take(w, steps[0]);
      StepKeeps(w, steps[0]);
      HeardStep(w, steps[0]);
      if next.returned == w.returned {
        HeardSpinReturns(next, steps[1..]);
      } else {
        ReturnsGrow(next, steps[1..]);
      }
    }
  }

  lemma HeardStep(w: World, step: Step)
    requires OwedInv(w) && Enabled(w, step) && w.spinning && w.heard
    ensures var next := Take(w, step);
            next.returned > w.returned || (next.returned == w.returned && next.spinning && next.heard)
  {
    hide EntityOf, Bumped, Without, MayReconcile, Reportable, NeedsReconcile, Announced;
    match step
    case CancelFlag =>
    case CancelTrigger =>
    case SpinStart =>
    case OnceStart =>
    case LoadFlag =>
    case Process =>
    case Absorb =>
    case Wake(_) =>
    case CreateNode(_) =>
    case AddEntity(_, _) =>
    case RemoveEntity(_, _) =>
    case TriggerChange(_) =>
    case AddNode(_, _, _) =>
    case RemoveNode(_, _, _) =>
    case Reconcile(_, _) =>
    case _ =>
  }

  lemma {:induction false} ReturnsGrow(w: World, steps: seq<Step>)
    requires IsRun(w, steps)
    ensures After(w, steps).returned >= w.returned && After(w, steps).issued >= w.issued
    decreases |steps|
  {
    hide Enabled, Take;
    if steps != [] {
      StepGrows(w, steps[0]);
      ReturnsGrow(Take(w, steps[0]), steps[1..]);
    }
  }

  lemma StepGrows(w: World, step: Step)
    requires Enabled(w, step)
    ensures Take(w, step).returned >= w.returned && Take(w, step).issued >= w.issued
  {
    hide Enabled, EntityOf, Bumped, Without;
    match step
    case CancelFlag =>
    case LoadFlag =>
    case Process =>
    case Absorb =>
    case CreateNode(_) =>
    case AddEntity(_, _) =>
    case RemoveEntity(_, _) =>
    case TriggerChange(_) =>
    case AddNode(_, _, _) =>
    case RemoveNode(_, _, _) =>
    case Reconcile(_, _) =>
    case _ =>
  }

  /** A spin never waits twice for a completed cancel: it returns after the round that the cancel ends. */
  lemma CancelledSpinWaitsNoMore(w: World, first: seq<Step>, ids: seq<AttachId>, rest: seq<Step>)
    requires Initial(w) && IsRun(w, first)
    requires var now := After(w, first);
             now.pc.Waiting? && now.spinning && now.owed && !now.swallowed && |now.exec.waitset| <= MAX_TRIGGERS
             && IsRun(now, [Wake(ids)] + rest)
    ensures var now := After(w, first);
            var end := After(now, [Wake(ids)] + rest);
            end.returned > now.returned || (!end.pc.Waiting? && !end.pc.Refresh?)
  {
    hide Take, Initial, Enabled;
    var now := After(w, first);
    InitialInv(w);
    RunKeeps(w, first);
    assert ([Wake(ids)] + rest)[1..] == rest;
    assert Enabled(now, Wake(ids)) && IsRun(Take(now, Wake(ids)), rest);
    StepKeeps(now, Wake(ids));
    WakeHears(w, first, ids);
    HeardSpinReturns(Take(now, Wake(ids)), rest);
  }

  lemma WakeHears(w: World, first: seq<Step>, ids: seq<AttachId>)
    requires Initial(w) && IsRun(w, first)
    requires var now := After(w, first);
             now.pc.Waiting? && now.spinning && now.owed && !now.swallowed && |now.exec.waitset| <= MAX_TRIGGERS
             && Enabled(now, Wake(ids))
    ensures var now := After(w, first);
            Take(now, Wake(ids)).heard && Take(now, Wake(ids)).spinning && Take(now, Wake(ids)).returned == now.returned
  {
    hide Initial, IsRun, After, Reportable;
    CancelIsHeard(w, first);
  }

  /** Over every run a spin returns at most twice per cancel; so it returns only if some cancel was issued. */
  lemma ReturnsAreBounded(w: World, steps: seq<Step>)
    requires Initial(w) && IsRun(w, steps)
    ensures After(w, steps).returned <= 2 * After(w, steps).issued
  {
    hide Take, Enabled, Initial, TableInv, NoneLost, BatchInv, OwedInv, RestInv;
    InitialInv(w);
    RunKeeps(w, steps);
  }

  // --- a reconciliation can always be done --------------------------------------------------------

  /** The attach loop when no attachment is refused. */
  lemma {:induction false} AttachAll(cancelGuard: Handle, wakeGuard: Handle, desired: map<Handle, Attached>,
                                     held: set<Handle>, todo: set<Handle>, current: set<Handle>,
                                     before: map<AttachId, Attached>, oldId: AttachId,
                                     attached: map<AttachId, Attached>, nextId: AttachId, waitset: map<Handle, AttachId>)
    returns (allAttached: map<AttachId, Attached>, lastId: AttachId, full: map<Handle, AttachId>)
    requires Agree(cancelGuard, wakeGuard, attached, nextId, waitset)
    requires forall c :: c in desired ==> desired[c].cond == c
    requires Grown(desired, before, oldId, attached, nextId) && Attaching(desired, held, todo, current, {}, waitset)
    ensures Agree(cancelGuard, wakeGuard, allAttached, lastId, full)
    ensures Grown(desired, before, oldId, allAttached, lastId)
    ensures forall c :: c in desired ==> c in full
    decreases |todo|
  {
    hide Agree, Grown, Attaching;
    if todo == {} {
      AttachingEnds(desired, held, current, {}, waitset);
      allAttached, lastId, full := attached, nextId, waitset;
    } else {
      var c := SomeElement(todo);
      TodoIsDesired(desired, held, todo, current, {}, waitset, c);
      AttachedOne(desired, held, todo, current, {}, waitset, c, nextId + 1);
      if c in current {
        allAttached, lastId, full := AttachAll(cancelGuard, wakeGuard, desired, held, todo - {c}, current, before, oldId,
                                               attached, nextId, waitset);
      } else {
        AttachAgrees(cancelGuard, wakeGuard, attached, nextId, waitset, desired[c]);
        GrownOne(desired, before, oldId, attached, nextId, c);
        allAttached, lastId, full := AttachAll(cancelGuard, wakeGuard, desired, held, todo - {c}, current + {c}, before,
                                               oldId, attached[nextId + 1 := desired[c]], nextId + 1,
                                               waitset[c := nextId + 1]);
      }
    }
  }

  lemma KeepDesired(e: Exec, desired: map<Handle, Attached>)
    returns (kept: map<AttachId, Attached>, waitset: map<Handle, AttachId>)
    requires Consistent(e)
    ensures Agree(e.cancelGuard, e.wakeGuard, kept, e.nextId, waitset) && Trimmed(desired, e.attached, kept)
    ensures forall c :: c in desired ==> (c in waitset <==> c in e.waitset)
  {
    kept := map id | id in e.attached && e.attached[id].cond in desired :: e.attached[id];
    waitset := map c | c in e.waitset && (c == e.cancelGuard || c == e.wakeGuard || c in desired) :: e.waitset[c];
  }

  lemma AReconciliation(e: Exec, vs: seq<NodeView>) returns (next: Exec)
    requires Consistent(e)
    ensures Reconciled(e, next, vs, {})
  {
    hide Desired, RecordedEpochs, Agree, Grown, Attaching;
    var d := Desired(vs);
    forall c | c in d ensures d[c].cond == c {
      DesiredKeys(vs, c);
    }
    var kept, waitset := KeepDesired(e, d);
    var held := set c | c in d && c in waitset;
    AttachingStarts(d, held, waitset, kept, e.nextId);
    var attached, nextId, full := AttachAll(e.cancelGuard, e.wakeGuard, d, held, d.Keys, held, kept, e.nextId,
                                            kept, e.nextId, waitset);
    next := Exec(e.cancelGuard, e.wakeGuard, e.nodes, attached, RecordedEpochs(e.epochs, vs), nextId, full);
    assert Consistent(next);
    TrimThenGrow(e, kept, next, vs, {});
  }

  // --- a raised cancel guard ends a spin -------------------------------------------------------------

  /** A run of steps of the executing thread, apart from triggers of cancels already under way, that ends a spin. */
  ghost predicate Ends(w: World, steps: seq<Step>) {
    && IsRun(w, steps) && After(w, steps).returned > w.returned
    && forall i :: 0 <= i < |steps| ==> OwnStep(steps[i])
  }

  predicate OwnStep(step: Step) {
    || step.SpinStart? || step.LoadFlag? || step.Reconcile? || step.Wake? || step.Process? || step.SetFlag?
    || step.Absorb? || step.CancelTrigger?
  }

  lemma Prepend(w: World, step: Step, steps: seq<Step>)
    requires Enabled(w, step) && OwnStep(step) && Ends(Take(w, step), steps) && Take(w, step).returned == w.returned
    ensures Ends(w, [step] + steps)
  {
    hide Enabled, Take, OwnStep;
    assert ([step] + steps)[1..] == steps;
  }

  /** Spinning, with the flag set. */
  ghost predicate Flagged(w: World) {
    w.spinning && w.cancelRequested
  }

  lemma TestEnds(w: World) returns (steps: seq<Step>)
    requires w.pc == Test && Flagged(w)
    ensures Ends(w, steps)
  {
    steps := [LoadFlag];
    assert IsRun(Take(w, LoadFlag), []);
  }

  lemma {:induction false} AbsorbingEnds(w: World) returns (steps: seq<Step>)
    requires w.pc.Absorbing? && Flagged(w)
    ensures Ends(w, steps)
    decreases |w.pc.guards|
  {
    hide Ends;
    var next := Take(w, Absorb);
    var rest: seq<Step>;
    if w.pc.guards == [] {
      rest := TestEnds(next);
    } else {
      rest := AbsorbingEnds(next);
    }
    Prepend(w, Absorb, rest);
    steps := [Absorb] + rest;
  }

  lemma {:induction false} BatchEnds(w: World) returns (steps: seq<Step>)
    requires w.pc.Batch? && CANCEL_ATTACHMENT !in w.pc.rest && Flagged(w)
    ensures Ends(w, steps)
    decreases |w.pc.rest|
  {
    hide Ends;
    var next := Take(w, Process);
    var rest: seq<Step>;
    if w.pc.rest == [] {
      rest := AbsorbingEnds(next);
    } else {
      rest := BatchEnds(next);
    }
    Prepend(w, Process, rest);
    steps := [Process] + rest;
  }

  lemma WaitingEnds(w: World) returns (steps: seq<Step>)
    requires Inv(w) && w.pc.Waiting? && w.spinning && w.exec.cancelGuard in w.triggered
    ensures Ends(w, steps)
  {
    hide Ends, Inv;
    CancelAttached(w);
    var ids := WaitCanReport(w, w.exec.cancelGuard);
    var woken := Take(w, Wake(ids));
    RestOnce(ids);
    var took := Take(woken, Process);
    var flagged := Take(took, SetFlag);
    var rest := BatchEnds(flagged);
    Prepend(took, SetFlag, rest);
    Prepend(woken, Process, [SetFlag] + rest);
    Prepend(w, Wake(ids), [Process] + ([SetFlag] + rest));
    steps := [Wake(ids)] + ([Process] + ([SetFlag] + rest));
  }

  lemma TestOfRaisedEnds(w: World) returns (steps: seq<Step>)
    requires Inv(w) && w.pc == Test && w.spinning && w.exec.cancelGuard in w.triggered
    ensures Ends(w, steps)
  {
    hide Ends, Inv;
    if w.cancelRequested {
      steps := TestEnds(w);
    } else {
      assert Enabled(w, LoadFlag);
      var entered := Take(w, LoadFlag);
      assert entered == w.(pc := Refresh);
      StepKeeps(w, LoadFlag);
      var next := Refreshed(entered);
      var refreshed := Take(entered, Reconcile(next, {}));
      StepKeeps(entered, Reconcile(next, {}));
      var rest := WaitingEnds(refreshed);
      Prepend(entered, Reconcile(next, {}), rest);
      Prepend(w, LoadFlag, [Reconcile(next, {})] + rest);
      steps := [LoadFlag] + ([Reconcile(next, {})] + rest);
    }
  }

  /** The critical section before the wait can always be passed. */
  lemma Refreshed(w: World) returns (next: Exec)
    requires Inv(w) && w.pc == Refresh
    ensures Enabled(w, Reconcile(next, {}))
    ensures var after := Take(w, Reconcile(next, {}));
            after.pc.Waiting?
            && after == w.(pc := Waiting, exec := after.exec) && after.exec.cancelGuard == w.exec.cancelGuard
  {
    hide Reconciled, OwedInv, RestInv, BatchInv, NoneLost, WellKept, Consistent;
    next := w.exec;
    if NeedsReconcile(w.exec.attached, w.exec.epochs, Views(w.nodes, w.exec.nodes)) {
      next := AReconciliation(w.exec, Views(w.nodes, w.exec.nodes));
      ReconciledFrame(w.exec, next, Views(w.nodes, w.exec.nodes), {});
    }
  }

  // --- exactly when a spin returns without a cancel of its own ----------------------------------------

  ghost predicate NoNewCancel(steps: seq<Step>) {
    forall i :: 0 <= i < |steps| ==> !steps[i].CancelFlag?
  }

  /** A spin can return although no cancel() is called after it started, iff the cancel guard is still triggered from
      before or an earlier cancel() is still between its two steps. */
  lemma StaleCancelEndsSpin(w: World)
    requires Inv(w) && w.pc == Idle
    ensures (exists steps :: IsRun(w, [SpinStart] + steps) && NoNewCancel(steps)
                && After(w, [SpinStart] + steps).returned > w.returned)
            <==> w.exec.cancelGuard in w.triggered || w.cancelling > 0
  {
    hide Inv, IsRun, After;
    if w.exec.cancelGuard in w.triggered || w.cancelling > 0 {
      StaleCancelCan(w);
    }
    forall steps |
      IsRun(w, [SpinStart] + steps) && NoNewCancel(steps) && After(w, [SpinStart] + steps).returned > w.returned
      ensures w.exec.cancelGuard in w.triggered || w.cancelling > 0
    {
      StaleCancelMust(w, steps);
    }
  }

  lemma StaleCancelCan(w: World)
    requires Inv(w) && w.pc == Idle && (w.exec.cancelGuard in w.triggered || w.cancelling > 0)
    ensures exists steps :: IsRun(w, [SpinStart] + steps) && NoNewCancel(steps)
              && After(w, [SpinStart] + steps).returned > w.returned
  {
    hide Inv, Ends;
    var started := Take(w, SpinStart);
    StepKeeps(w, SpinStart);
    var steps: seq<Step>;
    if w.exec.cancelGuard in w.triggered {
      steps := TestOfRaisedEnds(started);
    } else {
      StepKeeps(started, CancelTrigger);
      var rest := TestOfRaisedEnds(Take(started, CancelTrigger));
      Prepend(started, CancelTrigger, rest);
      steps := [CancelTrigger] + rest;
    }
    Prepend(w, SpinStart, steps);
    EndsWithoutCancel(w, [SpinStart] + steps);
    EndsWithoutCancel(started, steps);
  }

  lemma EndsWithoutCancel(w: World, steps: seq<Step>)
    requires Ends(w, steps)
    ensures IsRun(w, steps) && NoNewCancel(steps) && After(w, steps).returned > w.returned
  {
  }

  /** The balance of cancels over returns never falls. */
  lemma {:induction false} BalanceGrows(w: World, steps: seq<Step>)
    requires Inv(w) && IsRun(w, steps)
    ensures 2 * After(w, steps).issued - Spent(After(w, steps)) >= 2 * w.issued - Spent(w)
    ensures NoNewCancel(steps) ==> After(w, steps).issued == w.issued
    decreases |steps|
  {
    hide Inv, Enabled, Take, Spent;
    if steps != [] {
      StepKeeps(w, steps[0]);
      StepBalance(w, steps[0]);
      BalanceGrows(Take(w, steps[0]), steps[1..]);
    }
  }

  lemma StepBalance(w: World, step: Step)
    requires Inv(w) && Enabled(w, step)
    ensures 2 * Take(w, step).issued - Spent(Take(w, step)) >= 2 * w.issued - Spent(w)
    ensures !step.CancelFlag? ==> Take(w, step).issued == w.issued
  {
    hide Inv, Spent, Enabled;
    match step
    case AddNode(_, _, _) => ExecBalance(w, step);
    case RemoveNode(_, _, _) => ExecBalance(w, step);
    case Reconcile(_, _) => ExecBalance(w, step);
    case Process => ThreadBalance(w, step);
    case Absorb => ThreadBalance(w, step);
    case _ => OtherBalance(w, step);
  }

  lemma ExecBalance(w: World, step: Step)
    requires Inv(w) && Enabled(w, step) && (step.AddNode? || step.RemoveNode? || step.Reconcile?)
    ensures Spent(Take(w, step)) == Spent(w) && Take(w, step).issued == w.issued
  {
    hide TableInv, NoneLost, BatchInv, OwedInv, RestInv;
    ApartGuards(w);
    ReconcileStep(w, step);
  }

  lemma ThreadBalance(w: World, step: Step)
    requires Inv(w) && Enabled(w, step) && (step.Process? || step.Absorb?)
    ensures Spent(Take(w, step)) <= Spent(w) && Take(w, step).issued == w.issued
  {
    ApartGuards(w);
    hide TableInv, NoneLost, BatchInv, OwedInv, RestInv, Spent, Processed;
    if step.Process? {
      ProcessBalance(w);
    } else {
      AbsorbBalance(w);
    }
  }

  lemma ProcessBalance(w: World)
    requires w.pc.Batch? && RestInv(w) && w.exec.cancelGuard != w.exec.wakeGuard
    ensures Spent(Processed(w)) <= Spent(w) && Processed(w).issued == w.issued
  {
    hide EntityOf, IdsOnce;
    if w.pc.rest != [] {
      assert w.pc.rest[0] == CANCEL_ATTACHMENT ==> Announced(w.pc);
    }
  }

  lemma AbsorbBalance(w: World)
    requires w.pc.Absorbing? && RestInv(w) && OwedInv(w) && w.exec.cancelGuard !in w.nodes
    ensures Spent(Take(w, Absorb)) <= Spent(w) && Take(w, Absorb).issued == w.issued
  {
    hide IdsOnce;
  }

  lemma OtherBalance(w: World, step: Step)
    requires Inv(w) && Enabled(w, step)
    requires !step.AddNode? && !step.RemoveNode? && !step.Reconcile? && !step.Process? && !step.Absorb?
    ensures 2 * Take(w, step).issued - Spent(Take(w, step)) >= 2 * w.issued - Spent(w)
    ensures !step.CancelFlag? ==> Take(w, step).issued == w.issued
  {
    hide TableInv, NoneLost, BatchInv, RestInv, Bumped, Without, Reportable, MayReconcile, NeedsReconcile, EntityOf;
    hide Processed;
    ApartGuards(w);
    match step
    case CreateNode(_) =>
    case AddEntity(_, _) =>
    case RemoveEntity(_, _) =>
    case TriggerChange(_) =>
    case CancelFlag =>
    case CancelTrigger =>
    case LoadFlag =>
    case Wake(_) =>
    case _ =>
  }

  lemma StaleCancelMust(w: World, steps: seq<Step>)
    requires Inv(w) && w.pc == Idle && IsRun(w, [SpinStart] + steps) && NoNewCancel(steps)
    requires After(w, [SpinStart] + steps).returned > w.returned
    ensures w.exec.cancelGuard in w.triggered || w.cancelling > 0
  {
    hide Inv;
    assert ([SpinStart] + steps)[1..] == steps;
    StepKeeps(w, SpinStart);
    BalanceGrows(Take(w, SpinStart), steps);
  }

  lemma RunOfTwo(w: World, first: Step, second: Step)
    requires Enabled(w, first) && Enabled(Take(w, first), second)
    ensures IsRun(w, [first, second]) && After(w, [first, second]) == Take(Take(w, first), second)
  {
    hide Enabled, Take;
    assert [first, second][1..] == [second] && [second][1..] == [];
    var middle := Take(w, first);
    var end := Take(middle, second);
    assert IsRun(end, []) && After(end, []) == end;
    assert IsRun(middle, [second]) && After(middle, [second]) == end;
  }

  lemma SpinStarts(w: World)
    requires w.pc == Idle
    ensures Enabled(w, SpinStart)
    ensures Take(w, SpinStart) == w.(pc := Test, spinning := true, cancelRequested := false, heard := false)
  {
  }

  lemma CancelFlags(w: World)
    ensures Enabled(w, CancelFlag)
    ensures Take(w, CancelFlag) == w.(cancelRequested := true, cancelling := w.cancelling + 1, issued := w.issued + 1)
  {
  }

  lemma CancelDuringStart(w: World)
    requires w.pc == Idle
    ensures IsRun(w, [SpinStart, CancelFlag])
    ensures After(w, [SpinStart, CancelFlag]) == w.(pc := Test, spinning := true, heard := false, cancelRequested := true,
                                                    cancelling := w.cancelling + 1, issued := w.issued + 1)
  {
    hide Enabled, Take, IsRun, After;
    SpinStarts(w);
    CancelFlags(Take(w, SpinStart));
    RunOfTwo(w, SpinStart, CancelFlag);
  }

  lemma ReturnThenTrigger(w: World)
    requires w.pc == Test && w.cancelRequested && w.cancelling > 0
    ensures IsRun(w, [LoadFlag, CancelTrigger])
    ensures After(w, [LoadFlag, CancelTrigger]) ==
              w.(pc := Idle, spinning := false, returned := w.returned + 1, cancelling := w.cancelling - 1,
                 triggered := w.triggered + {w.exec.cancelGuard}, owed := true, swallowed := false)
  {
    RunOfTwo(w, LoadFlag, CancelTrigger);
  }

  /** A cancel sets the flag while a spin is about to load it, and triggers the guard after that spin returned. */
  lemma OneReturn(w: World) returns (steps: seq<Step>)
    requires Initial(w)
    ensures IsRun(w, steps)
    ensures var end := After(w, steps);
            end.pc == Idle && end.issued == 1 && end.returned == 1 && end.exec.cancelGuard in end.triggered
  {
    hide IsRun, After;
    CancelDuringStart(w);
    ReturnThenTrigger(After(w, [SpinStart, CancelFlag]));
    RunsConcatenate(w, [SpinStart, CancelFlag], [LoadFlag, CancelTrigger]);
    steps := [SpinStart, CancelFlag] + [LoadFlag, CancelTrigger];
  }

  /** A spin started while the cancel guard is triggered can end without a new cancel. */
  lemma RaisedSpinEnds(w: World) returns (steps: seq<Step>)
    requires Inv(w) && w.pc == Idle && w.exec.cancelGuard in w.triggered
    ensures IsRun(w, steps) && After(w, steps).returned > w.returned && After(w, steps).issued == w.issued
  {
    hide Inv;
    StepKeeps(w, SpinStart);
    var rest := TestOfRaisedEnds(Take(w, SpinStart));
    Prepend(w, SpinStart, rest);
    steps := [SpinStart] + rest;
    BalanceGrows(w, steps);
  }

  /** Two returns for one cancel do occur: the flag ends the first spin, the guard the second. */
  lemma OneCancelEndsTwoSpins(w: World) returns (steps: seq<Step>)
    requires Initial(w)
    ensures IsRun(w, steps) && After(w, steps).issued == 1 && After(w, steps).returned == 2
  {
    hide Inv, IsRun, After;
    var first := OneReturn(w);
    InitialInv(w);
    RunKeeps(w, first);
    var second := RaisedSpinEnds(After(w, first));
    RunsConcatenate(w, first, second);
    steps := first + second;
    ReturnsAreBounded(w, steps);
  }

  // --- consequences ----------------------------------------------------------------------------------------

  /** From any reachable wait after a completed cancel that no single round took, the executing thread can return on its
      own. */
  lemma CancelledSpinCanReturn(w: World, first: seq<Step>) returns (steps: seq<Step>)
    requires Initial(w) && IsRun(w, first)
    requires After(w, first).pc.Waiting? && After(w, first).spinning && After(w, first).owed
    requires !After(w, first).swallowed
    ensures Ends(After(w, first), steps)
    ensures IsRun(After(w, first), steps) && After(After(w, first), steps).returned > After(w, first).returned
  {
    hide Ends, Initial, Enabled, Take, Inv;
    InitialInv(w);
    RunKeeps(w, first);
    RaisedMeansNotSwallowed(After(w, first));
    steps := WaitingEnds(After(w, first));
    EndsInReturn(After(w, first), steps);
  }

  lemma EndsInReturn(w: World, steps: seq<Step>)
    requires Ends(w, steps)
    ensures IsRun(w, steps) && After(w, steps).returned > w.returned
  {
  }

  /** Once every thread that changed a listed node has triggered its guard, the wait can report that node. */
  lemma ChangeIsReported(w: World, steps: seq<Step>, i: nat)
    requires Initial(w) && IsRun(w, steps)
    requires After(w, steps).pc.Waiting? && i < |After(w, steps).exec.nodes|
    ensures var end := After(w, steps);
            var g := end.exec.nodes[i];
            && g in end.nodes && g in end.exec.waitset
            && (end.nodes[g].raising == 0 && !(g in end.exec.epochs && end.exec.epochs[g] == end.nodes[g].epoch) ==>
                  exists ids :: Enabled(end, Wake(ids)) && ids[0] == end.exec.waitset[g])
  {
    hide Initial, Take, Consistent, Served, OwedInv, RestInv, NoneLost, BatchInv;
    NoEntityIsLost(w, steps, i);
    TableIsExact(w, steps);
    var end := After(w, steps);
    var g := end.exec.nodes[i];
    if g in end.triggered {
      var ids := WaitCanReport(end, g);
      assert Enabled(end, Wake(ids));
    }
  }
}
