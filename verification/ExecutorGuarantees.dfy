// What holds along every run of the executor: the table is exact, ids are never reused, no entity is lost, and a wait with
// something ready can report it.
module ExecutorGuarantees {
  import opened Wrappers
  import opened ExecutorSpec
  import opened ExecutorRuns

  // --- theorems: the table ------------------------------------------------------------------

  /** In every reachable state the waitset is the two guards plus the inverse of the table. */
  lemma TableIsExact(w: World, steps: seq<Step>)
    requires Initial(w) && IsRun(w, steps)
    ensures Consistent(After(w, steps).exec)
  {
    hide Enabled, Take, Initial, Consistent, OwedInv, RestInv, BatchInv, NoneLost;
    InitialInv(w);
    RunKeeps(w, steps);
  }

  /** ... entry by entry: a condition is attached under an id iff it is the executor's own guard for 1 or 2, or the
      table has it under that id; and the ids of the table lie between 2 and the last one allocated. */
  lemma TableIsInverse(w: World, steps: seq<Step>, c: Handle, id: AttachId)
    requires Initial(w) && IsRun(w, steps)
    ensures var e := After(w, steps).exec;
            && (c in e.waitset && e.waitset[c] == id <==>
                  || (c == e.cancelGuard && id == 1) || (c == e.wakeGuard && id == 2)
                  || (id in e.attached && e.attached[id].cond == c))
            && (id in e.attached ==> 2 < id <= e.nextId)
  {
    hide Initial, IsRun, After, Consistent;
    TableIsExact(w, steps);
    ConsistentMeans(After(w, steps).exec, c, id);
  }

  lemma ConsistentMeans(e: Exec, c: Handle, id: AttachId)
    requires Consistent(e)
    ensures c in e.waitset && e.waitset[c] == id <==>
              || (c == e.cancelGuard && id == 1) || (c == e.wakeGuard && id == 2)
              || (id in e.attached && e.attached[id].cond == c)
    ensures id in e.attached ==> 2 < id <= e.nextId
  {
  }

  /** An id present at two points of a run names the same entry at both, and an id once gone stays gone. */
  lemma IdsAreNeverReused(w: World, first: seq<Step>, second: seq<Step>, id: AttachId)
    requires Initial(w) && IsRun(w, first + second) && IsRun(w, first)
    requires id <= After(w, first).exec.nextId
    ensures var earlier, later := After(w, first).exec.attached, After(w, first + second).exec.attached;
            id in later ==> id in earlier && later[id] == earlier[id]
  {
    hide Inv, Enabled, Take, Initial;
    RunsConcatenate(w, first, second);
    InitialInv(w);
    RunKeeps(w, first);
    RunKeeps(After(w, first), second);
  }

  /** A lookup of a reported id finds the very entity attached under it when the batch was captured, or nothing. */
  lemma LookupsAreFaithful(w: World, steps: seq<Step>, i: nat)
    requires Initial(w) && IsRun(w, steps)
    requires After(w, steps).pc.Batch? && i < |After(w, steps).pc.rest|
    ensures var end := After(w, steps);
            var id := end.pc.rest[i];
            EntityOf(end.exec.attached, id).Some? ==> EntityOf(end.exec.attached, id) == EntityOf(end.pc.at.attached, id)
  {
    hide Enabled, Take, Initial, TableInv, OwedInv, RestInv, NoneLost;
    InitialInv(w);
    RunKeeps(w, steps);
  }

  /** A dispatch takes the data of exactly the read condition that is attached under the reported id now, and that was
      attached under it when the batch was captured; a condition detached or re-attached since is left alone. */
  lemma DispatchDrains(w: World, steps: seq<Step>, c: Handle)
    requires Initial(w) && IsRun(w, steps)
    requires var end := After(w, steps);
             end.pc.Batch? && end.pc.rest != [] && end.pc.rest[0] > WAKE_ATTACHMENT
    ensures var end := After(w, steps);
            var id, after := end.pc.rest[0], Take(end, Process).ready;
            && (c in after ==> c in end.ready)
            && (c in end.ready && c !in after <==> c in end.ready && c in end.exec.waitset && end.exec.waitset[c] == id)
            && (c in end.ready && c !in after ==> c in end.pc.at.waitset && end.pc.at.waitset[c] == id)
  {
    hide Take, Initial, TableInv, OwedInv, RestInv, NoneLost, BatchInv;
    InitialInv(w);
    RunKeeps(w, steps);
    DispatchedNow(After(w, steps), c);
  }

  lemma DispatchedNow(w: World, c: Handle)
    requires Inv(w) && w.pc.Batch? && w.pc.rest != [] && w.pc.rest[0] > WAKE_ATTACHMENT
    ensures var id, after := w.pc.rest[0], Take(w, Process).ready;
            && (c in after ==> c in w.ready)
            && (c in w.ready && c !in after <==> c in w.ready && c in w.exec.waitset && w.exec.waitset[c] == id)
            && (c in w.ready && c !in after ==> c in w.pc.at.waitset && w.pc.at.waitset[c] == id)
  {
    hide Watched, NoneLost, OwedInv;
    var id, guards := w.pc.rest[0], w.nodes.Keys + {w.exec.cancelGuard, w.exec.wakeGuard};
    if id in w.exec.attached {
      assert WellKept(guards, w.exec.attached[id]);
      assert id in w.pc.at.attached && w.pc.at.attached[id] == w.exec.attached[id];
    }
  }

  // --- theorems: no entity is lost ------------------------------------------------------------

  /** Its live entities are attached, each under an id that dispatches it. */
  ghost predicate Served(e: Exec, n: NodeState, dead: set<Handle>) {
    forall c :: c in n.entities && c !in dead ==>
      c in e.waitset && e.waitset[c] in e.attached && e.attached[e.waitset[c]].entity == Some(c)
  }

  lemma SettledIsServed(e: Exec, nodes: map<Handle, NodeState>, conds: set<Handle>, dead: set<Handle>, i: nat)
    requires Sorted(e, nodes, conds, dead) && i < |e.nodes|
    requires Settled(Views(nodes, e.nodes)[i], e.waitset, dead)
    ensures Served(e, nodes[e.nodes[i]], dead)
  {
    var v := Views(nodes, e.nodes)[i];
    var g := e.nodes[i];
    forall c | c in nodes[g].entities && c !in dead
      ensures c in e.waitset && e.waitset[c] in e.attached && e.attached[e.waitset[c]].entity == Some(c)
    {
      var j :| 0 <= j < |v.entities| && v.entities[j] == c;
      assert c in conds && v.entities[j] in e.waitset;
      var entry := e.attached[e.waitset[c]];
      assert entry.cond == c && WellKept(nodes.Keys + {e.cancelGuard, e.wakeGuard}, entry);
    }
  }

  /** At every wait each listed node is served in full, or its attached change guard is or is about to be triggered. */
  lemma NoEntityIsLost(w: World, steps: seq<Step>, i: nat)
    requires Initial(w) && IsRun(w, steps)
    requires After(w, steps).pc.Waiting? && i < |After(w, steps).exec.nodes|
    ensures var end := After(w, steps);
            var g := end.exec.nodes[i];
            && g in end.nodes && g in end.exec.waitset
            && (|| (g in end.exec.epochs && end.exec.epochs[g] == end.nodes[g].epoch
                    && forall c :: c in end.nodes[g].entities && c !in end.dead ==>
                         c in end.exec.waitset && end.exec.waitset[c] in end.exec.attached
                         && end.exec.attached[end.exec.waitset[c]].entity == Some(c))
                || g in end.triggered
                || end.nodes[g].raising > 0)
  {
    hide Enabled, Take, Initial, Consistent, OwedInv, RestInv, Settled, WellKept;
    InitialInv(w);
    RunKeeps(w, steps);
    var end := After(w, steps);
    var v := Views(end.nodes, end.exec.nodes)[i];
    assert NotLost(end.exec, end.nodes[end.exec.nodes[i]], v, end.dead, end.triggered);
    if !EpochMoved(end.exec.epochs, v) && Settled(v, end.exec.waitset, end.dead) {
      SettledIsServed(end.exec, end.nodes, end.conds, end.dead, i);
    }
  }

  // --- theorems: what a wait reports ------------------------------------------------------------

  lemma SomeElement<T>(s: set<T>) returns (x: T)
    requires s != {}
    ensures x in s
  {
    x :| x in s;
  }

  lemma {:induction false} Enumerate(cs: set<Handle>) returns (list: seq<Handle>)
    ensures |list| == |cs| && IdsOnce(list)
    ensures forall c :: c in cs <==> c in list
    decreases |cs|
  {
    if cs == {} {
      list := [];
    } else {
      var c := SomeElement(cs);
      var rest := Enumerate(cs - {c});
      list := [c] + rest;
    }
  }

  /** A wait with a ready attachment can report, and can report that one first. */
  lemma WaitCanReport(w: World, c: Handle) returns (ids: seq<AttachId>)
    requires Consistent(w.exec) && c in w.exec.waitset && IsReady(w, c)
    ensures Reportable(w, ids) && ids[0] == w.exec.waitset[c]
  {
    hide Consistent, IsReady;
    var ready := set d | d in w.exec.waitset && IsReady(w, d) && d != c;
    var rest := Enumerate(ready);
    var all := [c] + rest;
    forall d ensures d in all <==> d in w.exec.waitset && IsReady(w, d) {
      assert d in all <==> d == c || d in rest;
      assert d in ready <==> d in rest;
    }
    var some := if |all| <= MAX_TRIGGERS then all else all[..MAX_TRIGGERS];
    if |w.exec.waitset| <= MAX_TRIGGERS {
      Smaller(ready + {c}, w.exec.waitset.Keys);
      assert |ready + {c}| == |ready| + 1;
      assert some == all;
    }
    ids := ReportOf(w, some);
  }

  lemma ReportOf(w: World, list: seq<Handle>) returns (ids: seq<AttachId>)
    requires Consistent(w.exec) && 0 < |list| <= MAX_TRIGGERS && IdsOnce(list)
    requires forall i :: 0 <= i < |list| ==> list[i] in w.exec.waitset && IsReady(w, list[i])
    requires |w.exec.waitset| <= MAX_TRIGGERS ==>
               forall d :: d in w.exec.waitset && IsReady(w, d) ==> d in list
    ensures Reportable(w, ids) && ids[0] == w.exec.waitset[list[0]]
  {
    hide IsReady;
    ConsistentIsInjective(w.exec);
    hide Consistent;
    ids := seq(|list|, i requires 0 <= i < |list| => w.exec.waitset[list[i]]);
    forall d | d in list ensures w.exec.waitset[d] in ids {
      var i :| 0 <= i < |list| && list[i] == d;
      assert ids[i] == w.exec.waitset[d];
    }
    forall i, j | 0 <= i < j < |ids| ensures ids[i] != ids[j] {
      assert list[i] in w.exec.waitset && list[j] in w.exec.waitset;
    }
    forall i | 0 <= i < |ids| ensures ReadyId(w, ids[i]) {
      assert list[i] in w.exec.waitset;
    }
  }

  lemma {:induction false} Smaller(a: set<Handle>, b: set<Handle>)
    requires a <= b
    ensures |a| <= |b|
    decreases |a|
  {
    if a != {} {
      var x := SomeElement(a);
      Smaller(a - {x}, b - {x});
    }
  }
}
