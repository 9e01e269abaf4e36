// What the executor's bookkeeping means, on values: which conditions should be attached, what one
// reconciliation does, and when the attachment table and the waitset agree.
module ExecutorSpec {
  import opened Wrappers

  /** dds_entity_t. Handles are unique, so a condition handle also stands for the entity or node owning it. */
  type Handle = int
  type AttachId = nat

  const CANCEL_ATTACHMENT: AttachId := 1
  const WAKE_ATTACHMENT: AttachId := 2
  const MAX_TRIGGERS: nat := 64

  /** An attached condition, the node it belongs to, and the entity to dispatch (None for change guards). */
  datatype Attached = Attached(cond: Handle, node: Handle, entity: Option<Handle>)

  /** A node as the executor sees it; the change guard's handle identifies the node. */
  datatype NodeView = NodeView(guard: Handle, entities: seq<Handle>, epoch: nat)

  datatype Exec = Exec(
    cancelGuard: Handle,
    wakeGuard: Handle,
    nodes: seq<Handle>,
    attached: map<AttachId, Attached>,
    epochs: map<Handle, nat>,
    nextId: AttachId,
    waitset: map<Handle, AttachId>)        // the DDS side: condition -> attachment id

  /** The entities of a node on top of what is already desired; a later entry replaces an earlier one. */
  function WithEntities(d: map<Handle, Attached>, node: Handle, entities: seq<Handle>): map<Handle, Attached> {
    if entities == [] then d
    else
      var e := entities[|entities| - 1];
      WithEntities(d, node, entities[..|entities| - 1])[e := Attached(e, node, Some(e))]
  }

  function WithNode(d: map<Handle, Attached>, v: NodeView): map<Handle, Attached> {
    WithEntities(d[v.guard := Attached(v.guard, v.guard, None)], v.guard, v.entities)
  }

  /** The attachment set the current nodes call for, keyed by condition. */
  function Desired(vs: seq<NodeView>): map<Handle, Attached> {
    if vs == [] then map[] else WithNode(Desired(vs[..|vs| - 1]), vs[|vs| - 1])
  }

  function RecordedEpochs(epochs: map<Handle, nat>, vs: seq<NodeView>): map<Handle, nat> {
    if vs == [] then epochs
    else RecordedEpochs(epochs, vs[..|vs| - 1])[vs[|vs| - 1].guard := vs[|vs| - 1].epoch]
  }

  lemma {:induction false} EntityKeys(d: map<Handle, Attached>, node: Handle, es: seq<Handle>, c: Handle)
    requires forall x :: x in d ==> d[x].cond == x
    ensures c in WithEntities(d, node, es) <==> c in d || c in es
    ensures c in WithEntities(d, node, es) ==> WithEntities(d, node, es)[c].cond == c
    ensures c in es ==> WithEntities(d, node, es)[c] == Attached(c, node, Some(c))
    ensures c in d && c !in es ==> WithEntities(d, node, es)[c] == d[c]
  {
    if es != [] {
      assert es == es[..|es| - 1] + [es[|es| - 1]];
      EntityKeys(d, node, es[..|es| - 1], c);
    }
  }

  /** A condition is desired iff it is the change guard or an entity of some current node. */
  lemma {:induction false} DesiredKeys(vs: seq<NodeView>, c: Handle)
    ensures c in Desired(vs) <==> exists i :: 0 <= i < |vs| && (c == vs[i].guard || c in vs[i].entities)
    ensures c in Desired(vs) ==> Desired(vs)[c].cond == c
  {
    if vs != [] {
      var most, last := vs[..|vs| - 1], vs[|vs| - 1];
      forall x ensures x in Desired(most) ==> Desired(most)[x].cond == x {
        DesiredKeys(most, x);
      }
      DesiredKeys(most, c);
      EntityKeys(Desired(most)[last.guard := Attached(last.guard, last.guard, None)], last.guard, last.entities, c);
      if c in Desired(most) {
        var i :| 0 <= i < |most| && (c == most[i].guard || c in most[i].entities);
        assert vs[i] == most[i];
      }
      if exists i :: 0 <= i < |vs| && (c == vs[i].guard || c in vs[i].entities) {
        var i :| 0 <= i < |vs| && (c == vs[i].guard || c in vs[i].entities);
        if i < |most| {
          assert vs[i] == most[i];
        }
      }
    }
  }

  lemma {:induction false} EpochKeys(epochs: map<Handle, nat>, vs: seq<NodeView>, g: Handle)
    ensures g in RecordedEpochs(epochs, vs) <==> g in epochs || exists i :: 0 <= i < |vs| && vs[i].guard == g
    ensures (forall i :: 0 <= i < |vs| ==> vs[i].guard != g) && g in epochs ==> RecordedEpochs(epochs, vs)[g] == epochs[g]
  {
    if vs != [] {
      var most := vs[..|vs| - 1];
      EpochKeys(epochs, most, g);
      if g in RecordedEpochs(epochs, most) && g !in epochs {
        var i :| 0 <= i < |most| && most[i].guard == g;
        assert vs[i].guard == g;
      }
      if exists i :: 0 <= i < |vs| && vs[i].guard == g {
        var i :| 0 <= i < |vs| && vs[i].guard == g;
        if i < |most| {
          assert most[i].guard == g;
        }
      }
    }
  }

  ghost predicate DistinctGuards(vs: seq<NodeView>) {
    forall i, j :: 0 <= i < j < |vs| ==> vs[i].guard != vs[j].guard
  }

  lemma {:induction false} EpochsRecorded(epochs: map<Handle, nat>, vs: seq<NodeView>, i: nat)
    requires i < |vs| && DistinctGuards(vs)
    ensures vs[i].guard in RecordedEpochs(epochs, vs) && RecordedEpochs(epochs, vs)[vs[i].guard] == vs[i].epoch
  {
    if i < |vs| - 1 {
      EpochsRecorded(epochs, vs[..|vs| - 1], i);
    }
  }

  // --- agreement of the table and the waitset ------------------------------------------

  /** Attachment ids are above 2, already allocated, and the waitset is the two guards plus the inverse of the table. */
  ghost predicate Agree(cancelGuard: Handle, wakeGuard: Handle, attached: map<AttachId, Attached>, nextId: AttachId,
                        waitset: map<Handle, AttachId>)
  {
    && cancelGuard != wakeGuard
    && nextId >= WAKE_ATTACHMENT
    && cancelGuard in waitset && waitset[cancelGuard] == CANCEL_ATTACHMENT
    && wakeGuard in waitset && waitset[wakeGuard] == WAKE_ATTACHMENT
    && (forall id :: id in attached ==>
          WAKE_ATTACHMENT < id <= nextId && attached[id].cond in waitset && waitset[attached[id].cond] == id)
    && (forall c :: c in waitset && c != cancelGuard && c != wakeGuard ==>
          waitset[c] in attached && attached[waitset[c]].cond == c)
  }

  ghost predicate Consistent(e: Exec) {
    Agree(e.cancelGuard, e.wakeGuard, e.attached, e.nextId, e.waitset)
  }

  /** No two conditions share an attachment id, and no two ids share a condition. */
  lemma ConsistentIsInjective(e: Exec)
    requires Consistent(e)
    ensures forall c, d :: c in e.waitset && d in e.waitset && e.waitset[c] == e.waitset[d] ==> c == d
    ensures forall i, j :: i in e.attached && j in e.attached && e.attached[i].cond == e.attached[j].cond ==> i == j
  {
    forall c, d | c in e.waitset && d in e.waitset && e.waitset[c] == e.waitset[d] ensures c == d {
      if c != e.cancelGuard && c != e.wakeGuard {
        assert e.attached[e.waitset[c]].cond == c;
      }
      if d != e.cancelGuard && d != e.wakeGuard {
        assert e.attached[e.waitset[d]].cond == d;
      }
    }
  }

  /** No node uses the executor's own guards. */
  ghost predicate HandlesApart(cancelGuard: Handle, wakeGuard: Handle, vs: seq<NodeView>) {
    forall i :: 0 <= i < |vs| ==>
      && vs[i].guard != cancelGuard && cancelGuard !in vs[i].entities
      && vs[i].guard != wakeGuard && wakeGuard !in vs[i].entities
  }

  lemma ApartFromDesired(cancelGuard: Handle, wakeGuard: Handle, vs: seq<NodeView>)
    requires HandlesApart(cancelGuard, wakeGuard, vs)
    ensures cancelGuard !in Desired(vs) && wakeGuard !in Desired(vs)
  {
    hide Desired;
    DesiredKeys(vs, cancelGuard);
    DesiredKeys(vs, wakeGuard);
  }

  /** Every condition of the node is attached, unless it no longer exists. */
  ghost predicate Settled(v: NodeView, waitset: map<Handle, AttachId>, dead: set<Handle>) {
    && (v.guard in waitset || v.guard in dead)
    && forall i :: 0 <= i < |v.entities| ==> v.entities[i] in waitset || v.entities[i] in dead
  }

  /** The recorded epoch is not ahead of the node, and where it is current, the node is settled. */
  ghost predicate Tracked(v: NodeView, epochs: map<Handle, nat>, waitset: map<Handle, AttachId>, dead: set<Handle>) {
    && v.guard in epochs && epochs[v.guard] <= v.epoch
    && (epochs[v.guard] == v.epoch ==> Settled(v, waitset, dead))
  }

  /** One reconciliation against `vs`; attaching the conditions in `failed` was refused. */
  ghost predicate Reconciled(before: Exec, after: Exec, vs: seq<NodeView>, failed: set<Handle>) {
    var d := Desired(vs);
    && Consistent(after)
    && after.cancelGuard == before.cancelGuard && after.wakeGuard == before.wakeGuard
    && after.nodes == before.nodes
    && after.nextId >= before.nextId
    && after.epochs == RecordedEpochs(before.epochs, vs)
    // a surviving id keeps its entry; every new id is larger than any id before
    && (forall id :: id in after.attached ==>
          && after.attached[id].cond in d
          && (if id <= before.nextId then id in before.attached && after.attached[id] == before.attached[id]
              else after.attached[id] == d[after.attached[id].cond]))
    && (forall id :: id in before.attached && before.attached[id].cond in d ==> id in after.attached)
    && failed <= d.Keys - before.waitset.Keys
    && (forall c :: c in d && c !in failed ==> c in after.waitset)
  }

  /** With no refused attachment, exactly the guards and entities of the current nodes are attached. */
  lemma ReconciledIsExact(before: Exec, after: Exec, vs: seq<NodeView>)
    requires Reconciled(before, after, vs, {})
    ensures after.waitset.Keys == {after.cancelGuard, after.wakeGuard} + Desired(vs).Keys
  {
    hide Desired;
    var expected := {after.cancelGuard, after.wakeGuard} + Desired(vs).Keys;
    forall c ensures c in after.waitset.Keys <==> c in expected {
      if c in Desired(vs) {
        assert c in after.waitset;
      }
      if c in after.waitset && c != after.cancelGuard && c != after.wakeGuard {
        assert after.attached[after.waitset[c]].cond in Desired(vs);
      }
    }
  }

  /** ... so nothing of a node that is not in the list remains attached. */
  lemma NothingRemains(before: Exec, after: Exec, vs: seq<NodeView>, failed: set<Handle>, c: Handle)
    requires Reconciled(before, after, vs, failed)
    requires c != after.cancelGuard && c != after.wakeGuard
    requires forall i :: 0 <= i < |vs| ==> c != vs[i].guard && c !in vs[i].entities
    ensures c !in after.waitset
  {
    hide Desired;
    DesiredKeys(vs, c);
  }

  /** A reconciliation settles every node and records its epoch. */
  lemma ReconciledSettles(before: Exec, after: Exec, vs: seq<NodeView>, failed: set<Handle>, dead: set<Handle>, i: nat)
    requires Reconciled(before, after, vs, failed) && failed <= dead && DistinctGuards(vs) && i < |vs|
    ensures Tracked(vs[i], after.epochs, after.waitset, dead) && !EpochMoved(after.epochs, vs[i])
    ensures Settled(vs[i], after.waitset, dead)
  {
    hide Desired, RecordedEpochs;
    EpochsRecorded(before.epochs, vs, i);
    DesiredKeys(vs, vs[i].guard);
    forall j | 0 <= j < |vs[i].entities| ensures vs[i].entities[j] in after.waitset || vs[i].entities[j] in dead {
      DesiredKeys(vs, vs[i].entities[j]);
    }
  }

  /** Whether wait_and_process reconciles before it waits. */
  predicate NeedsReconcile(attached: map<AttachId, Attached>, epochs: map<Handle, nat>, vs: seq<NodeView>) {
    (attached == map[] && vs != []) || exists i :: 0 <= i < |vs| && EpochMoved(epochs, vs[i])
  }

  predicate EpochMoved(epochs: map<Handle, nat>, v: NodeView) {
    v.guard !in epochs || epochs[v.guard] != v.epoch
  }

  // --- the attach loop of a reconciliation ---------------------------------------------

  /** Where the loop stands: `todo` is not yet visited, `held` was attached before it started. */
  ghost predicate Attaching(desired: map<Handle, Attached>, held: set<Handle>, todo: set<Handle>, current: set<Handle>,
                            failed: set<Handle>, waitset: map<Handle, AttachId>)
  {
    && todo <= desired.Keys
    && failed <= desired.Keys - held - todo
    && (forall c :: c in desired ==> (c in current <==> c in waitset))
    && (forall c :: c in todo ==> (c in current <==> c in held))
    && (forall c :: c in desired && c !in todo && c !in failed ==> c in waitset)
  }

  /** The table grew by entries of `desired` under fresh ids. */
  ghost predicate Grown(desired: map<Handle, Attached>, before: map<AttachId, Attached>, oldId: AttachId,
                        after: map<AttachId, Attached>, newId: AttachId)
  {
    && newId >= oldId
    && (forall id :: id in before ==> id in after && after[id] == before[id])
    && (forall id :: id in after && id !in before ==>
          oldId < id <= newId && after[id].cond in desired && after[id] == desired[after[id].cond])
  }

  lemma WaitsetIsInjective(cancelGuard: Handle, wakeGuard: Handle, attached: map<AttachId, Attached>, nextId: AttachId,
                           waitset: map<Handle, AttachId>)
    requires Agree(cancelGuard, wakeGuard, attached, nextId, waitset)
    ensures forall c, d :: c in waitset && d in waitset && waitset[c] == waitset[d] ==> c == d
  {
    ConsistentIsInjective(Exec(cancelGuard, wakeGuard, [], attached, map[], nextId, waitset));
  }

  lemma AttachingStarts(desired: map<Handle, Attached>, held: set<Handle>, waitset: map<Handle, AttachId>,
                        attached: map<AttachId, Attached>, id: AttachId)
    requires forall c :: c in desired ==> (c in held <==> c in waitset)
    ensures Attaching(desired, held, desired.Keys, held, {}, waitset) && Grown(desired, attached, id, attached, id)
  {
  }

  lemma AttachingEnds(desired: map<Handle, Attached>, held: set<Handle>, current: set<Handle>, failed: set<Handle>,
                      waitset: map<Handle, AttachId>)
    requires Attaching(desired, held, {}, current, failed, waitset)
    ensures failed <= desired.Keys - held
    ensures forall c :: c in desired && c !in failed ==> c in waitset
  {
  }

  lemma AttachAgrees(cancelGuard: Handle, wakeGuard: Handle, attached: map<AttachId, Attached>, nextId: AttachId,
                     waitset: map<Handle, AttachId>, a: Attached)
    requires Agree(cancelGuard, wakeGuard, attached, nextId, waitset) && a.cond !in waitset
    ensures nextId + 1 !in attached
    ensures Agree(cancelGuard, wakeGuard, attached, nextId + 1, waitset)
    ensures Agree(cancelGuard, wakeGuard, attached[nextId + 1 := a], nextId + 1, waitset[a.cond := nextId + 1])
  {
  }

  lemma GrownOne(desired: map<Handle, Attached>, before: map<AttachId, Attached>, oldId: AttachId,
                 now: map<AttachId, Attached>, id: AttachId, c: Handle)
    requires Grown(desired, before, oldId, now, id) && id + 1 !in now && c in desired && desired[c].cond == c
    ensures Grown(desired, before, oldId, now, id + 1)
    ensures Grown(desired, before, oldId, now[id + 1 := desired[c]], id + 1)
  {
  }

  /** The waitset after the conditions of the ids in `stale` were detached. */
  ghost predicate Detaching(desired: map<Handle, Attached>, attached: map<AttachId, Attached>, todo: set<AttachId>,
                            stale: set<AttachId>, original: map<Handle, AttachId>, waitset: map<Handle, AttachId>)
  {
    && todo <= attached.Keys
    && (forall id :: id in stale <==> id in attached && id !in todo && attached[id].cond !in desired)
    && (forall c :: c in waitset <==> c in original && original[c] !in stale)
    && (forall c :: c in waitset ==> waitset[c] == original[c])
  }

  lemma DetachedOne(cancelGuard: Handle, wakeGuard: Handle, nextId: AttachId, desired: map<Handle, Attached>,
                    attached: map<AttachId, Attached>, todo: set<AttachId>, stale: set<AttachId>,
                    original: map<Handle, AttachId>, waitset: map<Handle, AttachId>, id: AttachId)
    requires Agree(cancelGuard, wakeGuard, attached, nextId, original)
    requires Detaching(desired, attached, todo, stale, original, waitset) && id in todo
    ensures id in attached
    ensures attached[id].cond in desired ==>
              Detaching(desired, attached, todo - {id}, stale, original, waitset)
    ensures attached[id].cond !in desired ==>
              Detaching(desired, attached, todo - {id}, stale + {id}, original, waitset - {attached[id].cond})
  {
    var c := attached[id].cond;
    forall d | d in original && original[d] == id ensures d == c {
    }
  }

  lemma AllDetached(cancelGuard: Handle, wakeGuard: Handle, nextId: AttachId, desired: map<Handle, Attached>,
                    attached: map<AttachId, Attached>, stale: set<AttachId>,
                    original: map<Handle, AttachId>, waitset: map<Handle, AttachId>)
    requires Agree(cancelGuard, wakeGuard, attached, nextId, original)
    requires Detaching(desired, attached, {}, stale, original, waitset)
    ensures Agree(cancelGuard, wakeGuard, attached - stale, nextId, waitset)
    ensures forall c :: c in desired ==> (c in waitset <==> c in original)
  {
    forall c | c in desired && c in original ensures c in waitset {
      if c != cancelGuard && c != wakeGuard {
        assert attached[original[c]].cond == c;
      }
    }
  }

  lemma AttachedOne(desired: map<Handle, Attached>, held: set<Handle>, todo: set<Handle>, current: set<Handle>,
                    failed: set<Handle>, waitset: map<Handle, AttachId>, c: Handle, id: AttachId)
    requires Attaching(desired, held, todo, current, failed, waitset) && c in todo
    ensures c in current ==> Attaching(desired, held, todo - {c}, current, failed, waitset)
    ensures c !in current ==> Attaching(desired, held, todo - {c}, current, failed + {c}, waitset)
    ensures c !in current ==> Attaching(desired, held, todo - {c}, current + {c}, failed, waitset[c := id])
  {
  }

  lemma TodoIsDesired(desired: map<Handle, Attached>, held: set<Handle>, todo: set<Handle>, current: set<Handle>,
                      failed: set<Handle>, waitset: map<Handle, AttachId>, c: Handle)
    requires Attaching(desired, held, todo, current, failed, waitset) && c in todo
    ensures c in desired && (c in current <==> c in waitset)
  {
  }

  /** The table between the two loops: what is left of it is still desired. */
  ghost predicate Trimmed(desired: map<Handle, Attached>, before: map<AttachId, Attached>, after: map<AttachId, Attached>) {
    && (forall id :: id in after ==> id in before && after[id] == before[id] && after[id].cond in desired)
    && (forall id :: id in before && before[id].cond in desired ==> id in after)
  }

  /** Trim, then grow, is a reconciliation. */
  lemma TrimThenGrow(before: Exec, trimmed: map<AttachId, Attached>, after: Exec, vs: seq<NodeView>, failed: set<Handle>)
    requires Consistent(before) && Consistent(after) && Trimmed(Desired(vs), before.attached, trimmed)
    requires Grown(Desired(vs), trimmed, before.nextId, after.attached, after.nextId)
    requires after == before.(attached := after.attached, nextId := after.nextId, waitset := after.waitset,
                              epochs := RecordedEpochs(before.epochs, vs))
    requires failed <= Desired(vs).Keys - before.waitset.Keys
    requires forall c :: c in Desired(vs) && c !in failed ==> c in after.waitset
    ensures Reconciled(before, after, vs, failed)
  {
    hide Desired, RecordedEpochs;
    var d := Desired(vs);
    forall id | id in after.attached
      ensures after.attached[id].cond in d
      ensures id <= before.nextId ==> id in before.attached && after.attached[id] == before.attached[id]
      ensures id > before.nextId ==> after.attached[id] == d[after.attached[id].cond]
    {
      if id in trimmed {
        assert id <= before.nextId;
      }
    }
  }

  /** What a lookup of a reported id finds to dispatch. */
  function EntityOf(attached: map<AttachId, Attached>, id: AttachId): Option<Handle> {
    if id in attached then attached[id].entity else None
  }

  /** `erase(remove(begin, end, x), end)`. */
  function Without<T(==)>(s: seq<T>, x: T): (r: seq<T>)
    ensures x !in r
    ensures forall i :: 0 <= i < |r| ==> r[i] in s
    ensures forall i :: 0 <= i < |s| && s[i] != x ==> s[i] in r
  {
    if s == [] then []
    else
      var rest := Without(s[1..], x);
      if s[0] == x then rest else [s[0]] + rest
  }

  /** Removal treats every element on its own and keeps the order of the rest. */
  lemma {:induction false} WithoutFilters<T>(a: seq<T>, b: seq<T>, x: T, y: T)
    ensures Without(a + b, x) == Without(a, x) + Without(b, x)
    ensures Without([y], x) == if y == x then [] else [y]
  {
    if a == [] {
      assert a + b == b && [y][1..] == [];
    } else {
      assert (a + b)[1..] == a[1..] + b;
      WithoutFilters(a[1..], b, x, y);
    }
  }

  /** The last node that names a condition decides what is attached for it: the node itself or one of its entities. */
  lemma {:induction false} DesiredEntry(vs: seq<NodeView>, i: nat, c: Handle)
    requires i < |vs| && (c == vs[i].guard || c in vs[i].entities)
    requires forall j :: i < j < |vs| ==> c != vs[j].guard && c !in vs[j].entities
    ensures c in Desired(vs)
    ensures Desired(vs)[c] == Attached(c, vs[i].guard, if c in vs[i].entities then Some(c) else None)
  {
    var most, last := vs[..|vs| - 1], vs[|vs| - 1];
    var d := Desired(most)[last.guard := Attached(last.guard, last.guard, None)];
    forall x ensures x in d ==> d[x].cond == x {
      DesiredKeys(most, x);
    }
    EntityKeys(d, last.guard, last.entities, c);
    if i < |most| {
      forall j | i < j < |most| ensures c != most[j].guard && c !in most[j].entities {
        assert most[j] == vs[j];
      }
      DesiredEntry(most, i, c);
    }
  }

  /** Guards are guard conditions, entities are not: what handle uniqueness gives for a table entry. */
  ghost predicate WellKept(guards: set<Handle>, a: Attached) {
    a.entity == if a.cond in guards then None else Some(a.cond)
  }

  ghost predicate ProperNodes(guards: set<Handle>, vs: seq<NodeView>) {
    forall i :: 0 <= i < |vs| ==>
      vs[i].guard in guards && forall j :: 0 <= j < |vs[i].entities| ==> vs[i].entities[j] !in guards
  }

  lemma {:induction false} DesiredWellKept(guards: set<Handle>, vs: seq<NodeView>, c: Handle)
    requires ProperNodes(guards, vs)
    ensures c in Desired(vs) ==> WellKept(guards, Desired(vs)[c])
  {
    if vs != [] {
      var most, last := vs[..|vs| - 1], vs[|vs| - 1];
      DesiredWellKept(guards, most, c);
      var d := Desired(most)[last.guard := Attached(last.guard, last.guard, None)];
      forall x ensures x in d ==> d[x].cond == x {
        DesiredKeys(most, x);
      }
      EntityKeys(d, last.guard, last.entities, c);
    }
  }

  /** The executor may take on these nodes: handles are unique. */
  ghost predicate Admissible(guards: set<Handle>, cancelGuard: Handle, wakeGuard: Handle, vs: seq<NodeView>) {
    HandlesApart(cancelGuard, wakeGuard, vs) && DistinctGuards(vs) && ProperNodes(guards, vs)
  }
}
