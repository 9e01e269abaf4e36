// The DDS operations the executor and the readers use, as the repository's mock provides them: one waitset, guard
// conditions, and per read condition a queue of samples. Nothing here blocks; a wait reports what is ready.
module Transport {
  import opened Bytes
  import opened Wrappers
  import opened ExecutorSpec

  const TAKE_BATCH: nat := 16

  datatype Sample = Sample(payload: seq<byte>, valid: bool)

  /** What one reader has queued, has handed to its callback, and has released. */
  datatype Flow = Flow(queue: seq<Sample>, handed: seq<seq<byte>>, released: seq<Sample>)

  function ValidPayloads(samples: seq<Sample>): seq<seq<byte>> {
    if samples == [] then []
    else
      var most, last := samples[..|samples| - 1], samples[|samples| - 1];
      ValidPayloads(most) + if last.valid then [last.payload] else []
  }

  lemma {:induction false} ValidPayloadsAppend(a: seq<Sample>, b: seq<Sample>)
    ensures ValidPayloads(a + b) == ValidPayloads(a) + ValidPayloads(b)
    decreases |b|
  {
    if b == [] {
      assert a + b == a;
    } else {
      var most := b[..|b| - 1];
      assert (a + b)[..|a + b| - 1] == a + most;
      ValidPayloadsAppend(a, most);
    }
  }

  lemma OneSample(s: Sample)
    ensures ValidPayloads([s]) == if s.valid then [s.payload] else []
  {
    assert [s][..0] == [] && ValidPayloads([]) == [];
  }

  /** A reader after everything queued was taken: valid samples handed over in queue order, each sample released once.
      */
  function Drained(f: Flow): Flow {
    Flow([], f.handed + ValidPayloads(f.queue), f.released + f.queue)
  }

  class Dds {
    var attached: map<Handle, AttachId>
    var guards: map<Handle, bool>
    var flows: map<Handle, Flow>
    /** Conditions that no longer exist; attaching them is refused. */
    var dead: set<Handle>

    constructor ()
      ensures attached == map[] && guards == map[] && flows == map[] && dead == {}
    {
      attached, guards, flows, dead := map[], map[], map[], {};
    }

    function FlowOf(c: Handle): Flow
      reads this`flows
    {
      if c in flows then flows[c] else Flow([], [], [])
    }

    predicate Ready(c: Handle)
      reads this`flows, this`guards
    {
      if c in guards then guards[c] else FlowOf(c).queue != []
    }

    function NonEmpty(): (r: set<Handle>)
      reads this`flows
      ensures forall c :: c in r <==> FlowOf(c).queue != []
    {
      set c | c in flows && flows[c].queue != []
    }

    method Attach(c: Handle, id: AttachId) returns (ok: bool)
      modifies this`attached
      ensures ok == (c !in dead)
      ensures attached == if ok then old(attached)[c := id] else old(attached)
    {
      ok := c !in dead;
      if ok {
        attached := attached[c := id];
      }
    }

    method Detach(c: Handle)
      modifies this`attached
      ensures attached == old(attached) - {c}
    {
      attached := attached - {c};
    }

    method SetGuard(g: Handle)
      modifies this`guards
      ensures guards == if g in old(guards) then old(guards)[g := true] else old(guards)
    {
      if g in guards {
        guards := guards[g := true];
      }
    }

    method TakeGuard(g: Handle) returns (triggered: bool)
      modifies this`guards
      ensures triggered == (g in old(guards) && old(guards)[g])
      ensures guards == if g in old(guards) then old(guards)[g := false] else old(guards)
    {
      triggered := false;
      if g in guards {
        triggered := guards[g];
        guards := guards[g := false];
      }
    }

    /** Reports up to `max` attachments that are ready now, in any order. */
    method Wait(max: nat) returns (ids: seq<AttachId>)
      requires forall c, d :: c in attached && d in attached && attached[c] == attached[d] ==> c == d
      ensures |ids| <= max
      ensures forall i, j :: 0 <= i < j < |ids| ==> ids[i] != ids[j]
      ensures forall i :: 0 <= i < |ids| ==> exists c :: c in attached && attached[c] == ids[i] && Ready(c)
      ensures |attached| <= max ==> forall c :: c in attached && Ready(c) ==> attached[c] in ids
      ensures ids == [] && max > 0 ==> forall c :: c in attached ==> !Ready(c)
    {
      ids := [];
      ghost var conds: seq<Handle> := [];
      var left := attached.Keys;
      while left != {}
        invariant left <= attached.Keys && |ids| == |conds| <= max
        invariant |ids| + |left| <= |attached.Keys|
        invariant forall i :: 0 <= i < |ids| ==>
                    && conds[i] in attached && conds[i] !in left && attached[conds[i]] == ids[i] && Ready(conds[i])
        invariant forall i, j :: 0 <= i < j < |ids| ==> ids[i] != ids[j]
        invariant forall c :: c in attached && c !in left && Ready(c) ==> attached[c] in ids
        decreases left
      {
        var c := Pick(left);
        if |ids| == max {
          assert |attached| == |attached.Keys|;
          return;
        }
        left := left - {c};
        if Ready(c) {
          ids, conds := ids + [attached[c]], conds + [c];
        }
      }
    }

    /** Takes up to `max` samples off a queue. */
    method TakeCdr(c: Handle, max: nat) returns (batch: seq<Sample>)
      modifies this`flows
      ensures var f := old(FlowOf(c));
              && |batch| == (if |f.queue| < max then |f.queue| else max)
              && f.queue == batch + FlowOf(c).queue
              && FlowOf(c) == f.(queue := FlowOf(c).queue)
      ensures forall d :: d != c ==> FlowOf(d) == old(FlowOf(d))
    {
      var f := FlowOf(c);
      var n := if |f.queue| < max then |f.queue| else max;
      batch := f.queue[..n];
      flows := flows[c := f.(queue := f.queue[n..])];
    }

    /** Pass a sample to the callback of its reader, if it carries data, and release it. */
    method Consume(c: Handle, s: Sample)
      modifies this`flows
      ensures var f := old(FlowOf(c));
              FlowOf(c) == Flow(f.queue, f.handed + (if s.valid then [s.payload] else []), f.released + [s])
      ensures forall d :: d != c ==> FlowOf(d) == old(FlowOf(d))
    {
      var f := FlowOf(c);
      flows := flows[c := Flow(f.queue, f.handed + (if s.valid then [s.payload] else []), f.released + [s])];
    }
  }

  /** The body of the batch loop: callback and release, sample by sample. */
  method ConsumeBatch(dds: Dds, c: Handle, batch: seq<Sample>)
    modifies dds`flows
    ensures Underway(old(dds.FlowOf(c)), dds.FlowOf(c), batch, old(dds.FlowOf(c)).queue)
    ensures forall d :: d != c ==> dds.FlowOf(d) == old(dds.FlowOf(d))
  {
    ghost var start := dds.FlowOf(c);
    for i := 0 to |batch|
      invariant Underway(start, dds.FlowOf(c), batch[..i], start.queue)
      invariant forall d :: d != c ==> dds.FlowOf(d) == old(dds.FlowOf(d))
    {
      ghost var f := dds.FlowOf(c);
      dds.Consume(c, batch[i]);
      assert batch[..i + 1] == batch[..i] + [batch[i]];
      UnderwayStep(start, f, dds.FlowOf(c), batch[..i], batch[i], start.queue);
    }
    assert batch[..|batch|] == batch;
  }

  /** `Reader::take`: batches of 16 until a batch comes back short. */
  method Take(dds: Dds, c: Handle) returns (taken: nat)
    modifies dds`flows
    ensures dds.FlowOf(c) == Drained(old(dds.FlowOf(c))) && taken == |old(dds.FlowOf(c)).queue|
    ensures var before, after := old(dds.FlowOf(c)), dds.FlowOf(c);
            && after.queue == [] && after.released == before.released + before.queue
            && after.handed == before.handed + ValidPayloads(before.queue)
    ensures forall d :: d != c ==> dds.FlowOf(d) == old(dds.FlowOf(d))
  {
    ghost var start := dds.FlowOf(c);
    ghost var done: seq<Sample> := [];
    taken := 0;
    var more := true;
    while more
      invariant start.queue == done + dds.FlowOf(c).queue && taken == |done|
      invariant Underway(start, dds.FlowOf(c), done, dds.FlowOf(c).queue)
      invariant !more ==> dds.FlowOf(c).queue == []
      invariant forall d :: d != c ==> dds.FlowOf(d) == old(dds.FlowOf(d))
      decreases more, |dds.FlowOf(c).queue|
    {
      ghost var before := dds.FlowOf(c);
      var batch := dds.TakeCdr(c, TAKE_BATCH);
      ghost var rest := dds.FlowOf(c);
      ConsumeBatch(dds, c, batch);
      UnderwayBatch(start, before, rest, dds.FlowOf(c), done, batch);
      done := done + batch;
      taken := taken + |batch|;
      if |batch| < TAKE_BATCH {
        more := false;
      }
    }
    assert done + [] == done;
  }

  lemma UnderwayBatch(start: Flow, before: Flow, taken: Flow, after: Flow, done: seq<Sample>, batch: seq<Sample>)
    requires start.queue == done + before.queue && Underway(start, before, done, before.queue)
    requires before.queue == batch + taken.queue && taken == before.(queue := taken.queue)
    requires Underway(taken, after, batch, taken.queue)
    ensures start.queue == (done + batch) + after.queue && Underway(start, after, done + batch, after.queue)
  {
    ValidPayloadsAppend(done, batch);
  }

  /** `done` has been consumed and `rest` is still queued; the batch in between is being worked off. */
  ghost predicate Underway(start: Flow, now: Flow, done: seq<Sample>, rest: seq<Sample>) {
    && now.queue == rest
    && now.handed == start.handed + ValidPayloads(done)
    && now.released == start.released + done
  }

  lemma UnderwayStep(start: Flow, before: Flow, after: Flow, done: seq<Sample>, s: Sample, rest: seq<Sample>)
    requires Underway(start, before, done, rest)
    requires after == Flow(before.queue, before.handed + (if s.valid then [s.payload] else []), before.released + [s])
    ensures Underway(start, after, done + [s], rest)
  {
    assert (done + [s])[..|done|] == done;
  }
}
