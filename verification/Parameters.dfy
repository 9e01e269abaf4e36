// The parameter store of a node: what its operations do to the values and to the published event log, and the listing.
module Parameters {
  import opened Wrappers

  const NOT_SET: nat := 0

  /** rcl_interfaces/msg/ParameterValue: a type tag (any octet when it comes off the wire) and one field per type. */
  datatype Value = Value(kind: nat, boolValue: bool, integerValue: int, doubleBits: nat, stringValue: string,
                         byteArray: seq<nat>, boolArray: seq<bool>, integerArray: seq<int>, doubleArray: seq<nat>,
                         stringArray: seq<string>)

  datatype Parameter = Parameter(name: string, value: Value)

  /** One message on /parameter_events; each carries one parameter, in its new or in its changed list. */
  datatype Event = Event(name: string, value: Value, isNew: bool)

  datatype Store = Store(values: map<string, Value>, events: seq<Event>)

  const EMPTY: Store := Store(map[], [])

  /** Declaring or setting a parameter, locally or through a service. */
  datatype Op = Declare(name: string, value: Value) | Set(name: string, value: Value)

  predicate Accepted(values: map<string, Value>, op: Op) {
    match op
    case Declare(name, _) => name != "" && name !in values
    case Set(name, _) => name in values
  }

  /** The parameter has no value to observers: undeclared, or declared without one. */
  predicate Unset(values: map<string, Value>, name: string) {
    name in values ==> values[name].kind == NOT_SET
  }

  function Apply(s: Store, op: Op): Store {
    if !Accepted(s.values, op) then s
    else
      Store(s.values[op.name := op.value],
            s.events + if op.value.kind == NOT_SET then [] else [Event(op.name, op.value, Unset(s.values, op.name))])
  }

  function ApplyAll(s: Store, ops: seq<Op>): Store {
    if ops == [] then s else Apply(ApplyAll(s, ops[..|ops| - 1]), ops[|ops| - 1])
  }

  lemma {:induction false} ApplyAllSplits(s: Store, first: seq<Op>, second: seq<Op>)
    ensures ApplyAll(s, first + second) == ApplyAll(ApplyAll(s, first), second)
    decreases |second|
  {
    if second == [] {
      assert first + second == first;
    } else {
      var most := second[..|second| - 1];
      assert (first + second)[..|first + second| - 1] == first + most;
      ApplyAllSplits(s, first, most);
    }
  }

  // --- observing the events --------------------------------------------------------------

  /** What a subscriber to the events believes. */
  function Replay(events: seq<Event>): map<string, Value> {
    if events == [] then map[]
    else
      var last := events[|events| - 1];
      Replay(events[..|events| - 1])[last.name := last.value]
  }

  lemma ReplayAppend(events: seq<Event>, e: Event)
    ensures Replay(events + [e]) == Replay(events)[e.name := e.value]
  {
    assert (events + [e])[..|events|] == events;
  }

  /** Over every run, the replayed events agree with the store on a declared parameter iff its type is not NotSet. */
  lemma {:induction false} ReplayReproduces(ops: seq<Op>, name: string)
    ensures var s := ApplyAll(EMPTY, ops);
            && (name in Replay(s.events) ==> name in s.values && Replay(s.events)[name].kind != NOT_SET)
            && (name in s.values ==>
                  (s.values[name].kind != NOT_SET <==>
                   name in Replay(s.events) && Replay(s.events)[name] == s.values[name]))
  {
    if ops != [] {
      var most, op := ops[..|ops| - 1], ops[|ops| - 1];
      ReplayReproduces(most, name);
      var s := ApplyAll(EMPTY, most);
      if Accepted(s.values, op) {
        if op.value.kind != NOT_SET {
          ReplayAppend(s.events, Event(op.name, op.value, Unset(s.values, op.name)));
        } else {
          assert s.events + [] == s.events;
        }
      }
    }
  }

  /** Every event of a run was published by one accepted operation that gave a value, and is marked new iff the
      parameter was undeclared or NotSet just before it. */
  lemma {:induction false} EventOrigin(ops: seq<Op>, k: nat)
    requires k < |ApplyAll(EMPTY, ops).events|
    ensures exists i :: 0 <= i < |ops| && Published(ops, i, k, ApplyAll(EMPTY, ops).events[k])
  {
    var most, op := ops[..|ops| - 1], ops[|ops| - 1];
    var s, t := ApplyAll(EMPTY, most), ApplyAll(EMPTY, ops);
    if k < |s.events| {
      EventOrigin(most, k);
      var i :| 0 <= i < |most| && Published(most, i, k, s.events[k]);
      assert most[..i] == ops[..i] && t.events[k] == s.events[k];
      assert Published(ops, i, k, t.events[k]);
    } else {
      assert Published(ops, |most|, k, t.events[k]);
    }
  }

  ghost predicate Published(ops: seq<Op>, i: nat, k: nat, e: Event)
    requires i < |ops|
  {
    var before := ApplyAll(EMPTY, ops[..i]);
    && |before.events| == k && Accepted(before.values, ops[i])
    && e.name == ops[i].name && e.value == ops[i].value && e.value.kind != NOT_SET
    && (e.isNew <==> Unset(before.values, e.name))
  }

  ghost predicate Seen(events: seq<Event>, name: string) {
    exists j :: 0 <= j < |events| && events[j].name == name
  }

  /** An event is new iff it is the first of its parameter; a parameter has an event iff it has a value. */
  ghost predicate NewIsFirst(s: Store) {
    && (forall name :: Seen(s.events, name) <==> !Unset(s.values, name))
    && forall k :: 0 <= k < |s.events| ==> NewIffFirst(s.events, k)
  }

  ghost predicate NewIffFirst(events: seq<Event>, k: nat)
    requires k < |events|
  {
    events[k].isNew <==> !Seen(events[..k], events[k].name)
  }

  /** In a run that never takes a value away, an event is new iff it is the first of its parameter. */
  lemma {:induction false} NewMeansFirst(ops: seq<Op>)
    requires forall i :: 0 <= i < |ops| && ops[i].Set? ==> ops[i].value.kind != NOT_SET
    ensures NewIsFirst(ApplyAll(EMPTY, ops))
  {
    if ops != [] {
      NewMeansFirst(ops[..|ops| - 1]);
      NewStaysFirst(ApplyAll(EMPTY, ops[..|ops| - 1]), ops[|ops| - 1]);
    }
  }

  lemma NewStaysFirst(s: Store, op: Op)
    requires NewIsFirst(s) && (op.Set? ==> op.value.kind != NOT_SET)
    ensures NewIsFirst(Apply(s, op))
  {
    hide Seen;
    var t := Apply(s, op);
    assert s.events <= t.events;
    forall k | 0 <= k < |t.events| ensures NewIffFirst(t.events, k) {
      if k < |s.events| {
        assert NewIffFirst(s.events, k);
        assert t.events[..k] == s.events[..k] && t.events[k] == s.events[k];
      } else {
        assert t.events[..k] == s.events && t.events[k].isNew == Unset(s.values, op.name);
      }
    }
    forall name ensures Seen(t.events, name) <==> !Unset(t.values, name) {
      SeenGrows(s.events, t.events, name);
    }
  }

  lemma SeenGrows(before: seq<Event>, after: seq<Event>, name: string)
    requires before <= after && |after| <= |before| + 1
    ensures Seen(after, name) <==> Seen(before, name) || (|after| > |before| && after[|before|].name == name)
  {
    if Seen(before, name) {
      var j :| 0 <= j < |before| && before[j].name == name;
      assert after[j] == before[j];
    }
    if Seen(after, name) {
      var j :| 0 <= j < |after| && after[j].name == name;
      if j < |before| {
        assert before[j] == after[j];
      }
    }
  }

  // --- setting several parameters -----------------------------------------------------------

  function SetOps(ps: seq<Parameter>): (ops: seq<Op>)
    ensures |ops| == |ps| && forall i :: 0 <= i < |ops| ==> ops[i] == Set(ps[i].name, ps[i].value)
  {
    seq(|ps|, i requires 0 <= i < |ps| => Set(ps[i].name, ps[i].value))
  }

  predicate AllDeclared(values: map<string, Value>, ps: seq<Parameter>) {
    forall i :: 0 <= i < |ps| ==> ps[i].name in values
  }

  /** No operation undeclares a parameter. */
  lemma {:induction false} KeysGrow(s: Store, ops: seq<Op>)
    ensures s.values.Keys <= ApplyAll(s, ops).values.Keys && s.events <= ApplyAll(s, ops).events
    ensures (forall i :: 0 <= i < |ops| ==> ops[i].Set?) ==> ApplyAll(s, ops).values.Keys == s.values.Keys
  {
    if ops != [] {
      KeysGrow(s, ops[..|ops| - 1]);
    }
  }

  /** The writes of an atomic set, with the operations other threads get in before each. */
  function Interleaved(s: Store, ps: seq<Parameter>, others: seq<seq<Op>>): Store
    requires |others| == |ps|
    decreases |ps|
  {
    if ps == [] then s
    else Interleaved(Apply(ApplyAll(s, others[0]), Set(ps[0].name, ps[0].value)), ps[1..], others[1..])
  }

  predicate AllAccepted(s: Store, ps: seq<Parameter>, others: seq<seq<Op>>)
    requires |others| == |ps|
    decreases |ps|
  {
    ps == [] ||
    (Accepted(ApplyAll(s, others[0]).values, Set(ps[0].name, ps[0].value))
     && AllAccepted(Apply(ApplyAll(s, others[0]), Set(ps[0].name, ps[0].value)), ps[1..], others[1..]))
  }

  /** Once the check has passed, every single set succeeds, whatever other threads do in between. */
  lemma {:induction false} AtomicSetSucceeds(s: Store, ps: seq<Parameter>, others: seq<seq<Op>>)
    requires |others| == |ps| && AllDeclared(s.values, ps)
    ensures AllAccepted(s, ps, others)
    decreases |ps|
  {
    if ps != [] {
      KeysGrow(s, others[0]);
      var mid := ApplyAll(s, others[0]);
      var next := Apply(mid, Set(ps[0].name, ps[0].value));
      assert AllDeclared(next.values, ps[1..]) by {
        forall i | 0 <= i < |ps[1..]| ensures ps[1..][i].name in next.values {
          assert ps[1..][i] == ps[i + 1];
          assert ps[i + 1].name in s.values.Keys;
        }
      }
      AtomicSetSucceeds(next, ps[1..], others[1..]);
    }
  }

  /** Nobody gets in between. */
  function Undisturbed(n: nat): (others: seq<seq<Op>>)
    ensures |others| == n
  {
    if n == 0 then [] else [[]] + Undisturbed(n - 1)
  }

  /** The check is exact: without interference all single sets succeed iff it passes. */
  lemma {:induction false} CheckIsExact(s: Store, ps: seq<Parameter>)
    ensures AllAccepted(s, ps, Undisturbed(|ps|)) <==> AllDeclared(s.values, ps)
    decreases |ps|
  {
    if ps != [] {
      var others := Undisturbed(|ps|);
      assert others[0] == [] && others[1..] == Undisturbed(|ps| - 1);
      var next := Apply(s, Set(ps[0].name, ps[0].value));
      CheckIsExact(next, ps[1..]);
      assert ps == [ps[0]] + ps[1..];
      if ps[0].name in s.values {
        assert next.values.Keys == s.values.Keys;
        assert AllDeclared(next.values, ps[1..]) <==> AllDeclared(s.values, ps[1..]);
      }
    }
  }

  /** The last value assigned to a name, if any. */
  function LastOf(ps: seq<Parameter>, name: string): (r: Option<Value>)
    ensures r.None? <==> forall i :: 0 <= i < |ps| ==> ps[i].name != name
  {
    if ps == [] then None
    else if ps[|ps| - 1].name == name then Some(ps[|ps| - 1].value)
    else LastOf(ps[..|ps| - 1], name)
  }

  /** Without interference the last assignment to each name wins and nothing else changes. */
  lemma {:induction false} LastAssignmentWins(s: Store, ps: seq<Parameter>, name: string)
    requires AllDeclared(s.values, ps)
    ensures var after := ApplyAll(s, SetOps(ps)).values;
            && after.Keys == s.values.Keys
            && (name in after ==>
                  after[name] == if LastOf(ps, name).Some? then LastOf(ps, name).value else s.values[name])
  {
    KeysGrow(s, SetOps(ps));
    if ps != [] {
      var most := ps[..|ps| - 1];
      assert SetOps(ps)[..|ps| - 1] == SetOps(most);
      LastAssignmentWins(s, most, name);
      assert ps[|ps| - 1].name in s.values.Keys;
    }
  }

  /** The names an atomic set complains about. */
  function Missing(values: map<string, Value>, ps: seq<Parameter>): string {
    if ps == [] then ""
    else
      var before, name := Missing(values, ps[..|ps| - 1]), ps[|ps| - 1].name;
      if name in values then before else before + (if before == "" then "" else ", ") + name
  }

  /** What the reason says of the first i + 1 parameters starts what it says of all: every undeclared name is in it, in
      the order of the request, behind the names before it. */
  lemma {:induction false} MissingNames(values: map<string, Value>, ps: seq<Parameter>, i: nat)
    requires i < |ps|
    ensures var before, now := Missing(values, ps[..i]), Missing(values, ps[..i + 1]);
            && (i == 0 ==> before == "")
            && (ps[i].name in values ==> now == before)
            && (ps[i].name !in values && before == "" ==> now == ps[i].name)
            && (ps[i].name !in values && before != "" ==> now == before + ", " + ps[i].name)
            && now <= Missing(values, ps)
    decreases |ps|
  {
    if i == |ps| - 1 {
      assert ps[..i + 1] == ps;
    } else {
      var most := ps[..|ps| - 1];
      assert most[..i] == ps[..i] && most[..i + 1] == ps[..i + 1];
      MissingNames(values, most, i);
    }
  }
}
