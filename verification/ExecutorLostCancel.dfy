// Which completed cancels are lost: exactly those whose trigger a single round takes, and any single round may take it.
module ExecutorLostCancel {
  import opened ExecutorSpec
  import opened ExecutorRuns
  import opened ExecutorGuarantees
  import opened ExecutorCancel

  /** A round of spin_once or spin_some takes the cancel guard. */
  predicate TakesAlone(w: World, step: Step) {
    step.Process? && Hears(w) && !w.spinning
  }

  /** Some step of the run does. */
  ghost predicate TakenAlone(w: World, steps: seq<Step>)
    requires IsRun(w, steps)
    decreases |steps|
  {
    steps != [] && (TakesAlone(w, steps[0]) || TakenAlone(Take(w, steps[0]), steps[1..]))
  }

  ghost predicate NoTrigger(steps: seq<Step>) {
    forall i :: 0 <= i < |steps| ==> !steps[i].CancelTrigger?
  }

  lemma StepSwallows(w: World, step: Step)
    requires Enabled(w, step) && !step.CancelTrigger?
    ensures Take(w, step).swallowed <==> w.swallowed || TakesAlone(w, step)
    ensures Take(w, step).returned == w.returned ==> Take(w, step).owed == w.owed
  {
    hide EntityOf, Bumped, Without, Reportable, MayReconcile, NeedsReconcile;
    hide TurnPc, TurnTriggered, TurnReady, Hears;
    match step
    case Process =>
    case CancelFlag =>
    case SpinStart =>
    case OnceStart =>
    case LoadFlag =>
    case Absorb =>
    case Wake(_) =>
    case CreateNode(_) =>
    case AddEntity(_, _) =>
    case RemoveEntity(_, _) =>
    case TriggerChange(_) =>
    case AddNode(_, _, _) =>
    case RemoveNode(_, _, _) =>
    case Reconcile(_, _) =>
    case _ =>
  }

  /** Until the next trigger and return, a cancel stays owed, and it is swallowed iff some single round takes it. */
  lemma {:induction false} SwallowedMeansTaken(w: World, steps: seq<Step>)
    requires IsRun(w, steps) && NoTrigger(steps) && After(w, steps).returned == w.returned
    ensures After(w, steps).owed == w.owed
    ensures After(w, steps).swallowed <==> w.swallowed || TakenAlone(w, steps)
    decreases |steps|
  {
    hide Enabled, Take, TakesAlone;
    if steps != [] {
      var next := Take(w, steps[0]);
      StepSwallows(w, steps[0]);
      StepGrows(w, steps[0]);
      ReturnsGrow(next, steps[1..]);
      SwallowedMeansTaken(next, steps[1..]);
    }
  }

  /** From the completion of a cancel on, while no other completes and no spin returns: a wait can report the cancel iff
      no single round has taken its trigger. */
  lemma CancelIsLostIffTaken(w: World, steps: seq<Step>)
    requires Inv(w) && w.cancelling > 0
    requires IsRun(Take(w, CancelTrigger), steps) && NoTrigger(steps)
    requires var end := After(Take(w, CancelTrigger), steps);
             end.returned == w.returned && end.pc.Waiting?
    ensures CanHear(After(Take(w, CancelTrigger), steps)) <==> !TakenAlone(Take(w, CancelTrigger), steps)
  {
    hide Inv, CanHear, IsRun, After, TakenAlone;
    var done := Take(w, CancelTrigger);
    StepKeeps(w, CancelTrigger);
    RunKeeps(done, steps);
    SwallowedMeansTaken(done, steps);
    HearingMeansRaised(After(done, steps));
    RaisedMeansNotSwallowed(After(done, steps));
  }

  // --- and any completed cancel can be lost that way ---------------------------------------------------

  /** A run without cancels and without another single round that leaves a spin waiting, unable to hear of the cancel.
      */
  ghost predicate Strands(w: World, steps: seq<Step>) {
    && IsRun(w, steps)
    && (forall i :: 0 <= i < |steps| ==> OwnStep(steps[i]) && !steps[i].CancelTrigger?)
    && var end := After(w, steps);
       && end.pc.Waiting? && end.spinning && !CanHear(end)
       && end.returned == w.returned && end.issued == w.issued && end.cancelling == w.cancelling
  }

  lemma PrependQuiet(w: World, step: Step, steps: seq<Step>)
    requires Enabled(w, step) && OwnStep(step) && !step.CancelTrigger? && Strands(Take(w, step), steps)
    requires var next := Take(w, step);
             next.returned == w.returned && next.issued == w.issued && next.cancelling == w.cancelling
    ensures Strands(w, [step] + steps)
  {
    hide Enabled, Take, OwnStep, CanHear;
    assert ([step] + steps)[1..] == steps;
  }

  lemma IdleStrands(w: World) returns (steps: seq<Step>)
    requires Inv(w) && w.pc == Idle && w.exec.cancelGuard !in w.triggered
    ensures Strands(w, steps)
  {
    hide Inv, Strands, CanHear;
    StepKeeps(w, SpinStart);
    var started := Take(w, SpinStart);
    StepKeeps(started, LoadFlag);
    var entered := Take(started, LoadFlag);
    var next := Refreshed(entered);
    StepKeeps(entered, Reconcile(next, {}));
    var waiting := Take(entered, Reconcile(next, {}));
    HearingMeansRaised(waiting);
    assert Strands(waiting, []) by { WaitStrands(waiting); }
    PrependQuiet(entered, Reconcile(next, {}), []);
    PrependQuiet(started, LoadFlag, [Reconcile(next, {})] + []);
    PrependQuiet(w, SpinStart, [LoadFlag] + ([Reconcile(next, {})] + []));
    steps := [SpinStart] + ([LoadFlag] + ([Reconcile(next, {})] + []));
  }

  lemma WaitStrands(w: World)
    requires w.pc.Waiting? && w.spinning && !CanHear(w)
    ensures Strands(w, [])
  {
  }

  lemma {:induction false} AbsorbingStrands(w: World) returns (steps: seq<Step>)
    requires Inv(w) && w.pc.Absorbing? && !w.spinning && w.exec.cancelGuard !in w.triggered
    ensures Strands(w, steps)
    decreases |w.pc.guards|
  {
    hide Inv, Strands;
    StepKeeps(w, Absorb);
    var next := Take(w, Absorb);
    var rest: seq<Step>;
    if w.pc.guards == [] {
      rest := IdleStrands(next);
    } else {
      rest := AbsorbingStrands(next);
    }
    PrependQuiet(w, Absorb, rest);
    steps := [Absorb] + rest;
  }

  lemma {:induction false} BatchStrands(w: World) returns (steps: seq<Step>)
    requires Inv(w) && w.pc.Batch? && !w.spinning && w.exec.cancelGuard !in w.triggered
    requires CANCEL_ATTACHMENT !in w.pc.rest
    ensures Strands(w, steps)
    decreases |w.pc.rest|
  {
    hide Inv, Strands, Processed;
    StepKeeps(w, Process);
    var next := Take(w, Process);
    BatchGoesOn(w);
    var rest: seq<Step>;
    if w.pc.rest == [] {
      rest := AbsorbingStrands(next);
    } else {
      rest := BatchStrands(next);
    }
    PrependQuiet(w, Process, rest);
    steps := [Process] + rest;
  }

  lemma BatchGoesOn(w: World)
    requires w.pc.Batch? && CANCEL_ATTACHMENT !in w.pc.rest && w.exec.cancelGuard !in w.triggered
    ensures var next := Processed(w);
            && next == w.(pc := next.pc, triggered := next.triggered, ready := next.ready)
            && next.exec.cancelGuard !in next.triggered
            && if w.pc.rest == [] then next.pc.Absorbing?
               else next.pc.Batch? && |next.pc.rest| < |w.pc.rest| && CANCEL_ATTACHMENT !in next.pc.rest
  {
    hide EntityOf;
    if w.pc.rest != [] {
      assert w.pc.rest == [w.pc.rest[0]] + w.pc.rest[1..];
    }
  }

  lemma WaitingStrands(w: World) returns (steps: seq<Step>)
    requires Inv(w) && w.pc.Waiting? && !w.spinning && w.exec.cancelGuard in w.triggered
    ensures Strands(w, steps)
  {
    hide Inv, Strands;
    CancelAttached(w);
    var ids := WaitCanReport(w, w.exec.cancelGuard);
    StepKeeps(w, Wake(ids));
    var woken := Take(w, Wake(ids));
    RestOnce(ids);
    StepKeeps(woken, Process);
    var took := Take(woken, Process);
    StepKeeps(took, SetFlag);
    var rest := BatchStrands(Take(took, SetFlag));
    PrependQuiet(took, SetFlag, rest);
    PrependQuiet(woken, Process, [SetFlag] + rest);
    PrependQuiet(w, Wake(ids), [Process] + ([SetFlag] + rest));
    steps := [Wake(ids)] + ([Process] + ([SetFlag] + rest));
  }

  /** From every idle state with the cancel guard triggered, one single round can take the cancel and leave the next
      spin waiting without it, although no cancel was issued or completed since and no spin returned. */
  lemma SingleRoundSwallowsCancel(w: World) returns (steps: seq<Step>)
    requires Inv(w) && w.pc == Idle && w.exec.cancelGuard in w.triggered
    ensures Enabled(w, OnceStart) && Strands(Take(w, OnceStart), steps)
    ensures var end := After(Take(w, OnceStart), steps);
            && end.pc.Waiting? && end.spinning && !CanHear(end)
            && end.returned == w.returned && end.issued == w.issued && end.cancelling == w.cancelling
  {
    hide Inv, Strands;
    StepKeeps(w, OnceStart);
    var entered := Take(w, OnceStart);
    var next := Refreshed(entered);
    StepKeeps(entered, Reconcile(next, {}));
    var rest := WaitingStrands(Take(entered, Reconcile(next, {})));
    PrependQuiet(entered, Reconcile(next, {}), rest);
    steps := [Reconcile(next, {})] + rest;
    StrandsMeans(entered, steps);
  }

  lemma StrandsMeans(w: World, steps: seq<Step>)
    requires Strands(w, steps)
    ensures var end := After(w, steps);
            && end.pc.Waiting? && end.spinning && !CanHear(end)
            && end.returned == w.returned && end.issued == w.issued && end.cancelling == w.cancelling
  {
  }

  /** A cancel that completes is owed, untaken, and visible. */
  lemma CompletionIsOwed(w: World)
    requires w.cancelling > 0
    ensures Enabled(w, CancelTrigger)
    ensures var after := Take(w, CancelTrigger);
            after.owed && !after.swallowed && after.exec.cancelGuard in after.triggered && after.pc == w.pc
  {
  }
}
