// The operations of the parameter store and its services, as one critical section each where the store locks per call.
module ParameterCore {
  import opened Wrappers
  import opened Text
  import opened Parameters
  import opened Hierarchy

  datatype DeclareError = EmptyName | AlreadyDeclared

  datatype SetResult = SetResult(successful: bool, reason: string)

  /** `cut` is what precedes some dot of the name. */
  ghost predicate IsCut(name: string, cut: string) {
    exists k :: 0 <= k < |name| && name[k] == DOT && cut == name[..k]
  }

  class ParameterCore {
    var values: map<string, Value>
    var events: seq<Event>

    function State(): Store
      reads this
    {
      Store(values, events)
    }

    constructor ()
      ensures State() == EMPTY
    {
      values, events := map[], [];
    }

    /** `publish_event_locked`. */
    method Publish(name: string, value: Value, isNew: bool)
      modifies this`events
      ensures events == old(events) + [Event(name, value, isNew)]
    {
      events := events + [Event(name, value, isNew)];
    }

    method Declare(name: string, value: Value) returns (error: Option<DeclareError>)
      modifies this
      ensures State() == Apply(old(State()), Op.Declare(name, value))
      ensures values == if error == None then old(values)[name := value] else old(values)
      ensures events == old(events) + if error == None && value.kind != 0 then [Event(name, value, true)] else []
      ensures error == if name == "" then Some(EmptyName) else if name in old(values) then Some(AlreadyDeclared) else None
    {
      if name == "" {
        return Some(EmptyName);
      }
      if name in values {
        return Some(AlreadyDeclared);
      }
      values := values[name := value];
      if value.kind != NOT_SET {
        Publish(name, value, true);
      }
      error := None;
    }

    method Set(name: string, value: Value) returns (ok: bool)
      modifies this
      ensures State() == Apply(old(State()), Op.Set(name, value)) && ok == (name in old(values))
      ensures values == if ok then old(values)[name := value] else old(values)
      ensures events == old(events) + if ok && value.kind != 0
                                      then [Event(name, value, old(values)[name].kind == 0)] else []
    {
      if name !in values {
        return false;
      }
      var wasNotSet := values[name].kind == NOT_SET;
      values := values[name := value];
      if value.kind != NOT_SET {
        Publish(name, value, wasNotSet);
      }
      ok := true;
    }

    /** `handle_set`: one result per parameter, telling whether it was declared before the request. */
    method HandleSet(ps: seq<Parameter>) returns (results: seq<SetResult>)
      modifies this
      ensures State() == ApplyAll(old(State()), SetOps(ps))
      ensures |results| == |ps|
      ensures forall i :: 0 <= i < |ps| ==>
                results[i] == if ps[i].name in old(values) then SetResult(true, "")
                              else SetResult(false, "parameter not declared")
    {
      results := [];
      for i := 0 to |ps|
        invariant State() == ApplyAll(old(State()), SetOps(ps[..i])) && |results| == i
        invariant forall j :: 0 <= j < i ==>
                    results[j] == if ps[j].name in old(values) then SetResult(true, "")
                                  else SetResult(false, "parameter not declared")
      {
        KeysGrow(old(State()), SetOps(ps[..i]));
        assert ps[i].name in values.Keys <==> ps[i].name in old(values).Keys;
        SetOpsGrow(old(State()), ps, i);
        var ok := Set(ps[i].name, ps[i].value);
        results := results + [if ok then SetResult(true, "") else SetResult(false, "parameter not declared")];
      }
      assert ps[..|ps|] == ps;
    }

    /** `handle_set_atomically`, without interference between the check and the writes. */
    method HandleSetAtomically(ps: seq<Parameter>) returns (result: SetResult)
      modifies this
      ensures result.successful == AllDeclared(old(values), ps)
      ensures State() == if result.successful then ApplyAll(old(State()), SetOps(ps)) else old(State())
      ensures result.reason ==
                if result.successful then "" else "parameters not declared: " + Missing(old(values), ps)
    {
      var allDeclared := true;
      var reason := "";
      for i := 0 to |ps|
        invariant allDeclared == AllDeclared(values, ps[..i]) && reason == Missing(values, ps[..i])
        invariant State() == old(State())
      {
        assert ps[..i + 1][..i] == ps[..i] && ps[..i + 1][i] == ps[i];
        DeclaredGrows(values, ps, i);
        if ps[i].name !in values {
          allDeclared := false;
          reason := reason + (if reason == "" then "" else ", ") + ps[i].name;
        }
      }
      assert ps[..|ps|] == ps;
      if !allDeclared {
        return SetResult(false, "parameters not declared: " + reason);
      }
      for i := 0 to |ps|
        invariant State() == ApplyAll(old(State()), SetOps(ps[..i]))
      {
        SetOpsGrow(old(State()), ps, i);
        var _ := Set(ps[i].name, ps[i].value);
      }
      result := SetResult(true, "");
    }

    /** The loop over the requested prefixes for one name. */
    method IsListed(name: string, prefixes: seq<string>, depth: nat) returns (ok: bool)
      ensures ok == Selected(name, prefixes, depth)
    {
      var parts := Tokenize(name, DOT);
      if prefixes == [] {
        return depth == 0 || |parts| <= depth;
      }
      ok := false;
      for i := 0 to |prefixes|
        invariant !ok && Within(name, prefixes, depth) == Within(name, prefixes[i..], depth)
      {
        var pp := Tokenize(prefixes[i], DOT);
        assert prefixes[i..][0] == prefixes[i] && prefixes[i..][1..] == prefixes[i + 1..];
        if |parts| < |pp| {
          continue;
        }
        if pp == parts[..|pp|] {
          ok := depth == 0 || |parts| - |pp| <= depth;
          break;
        }
      }
    }

    /** The dot loop of one name. */
    method CollectCuts(name: string, before: set<string>) returns (cuts: set<string>)
      ensures forall p :: p in cuts <==> p in before || IsCut(name, p)
      ensures forall p :: p in cuts <==>
                p in before || exists k :: 0 <= k < |name| && name[k] == '.' && p == name[..k]
    {
      cuts := before;
      var dot := Find(name, DOT, 0);
      while dot < |name|
        invariant 0 <= dot <= |name| && (dot < |name| ==> name[dot] == DOT)
        invariant forall p :: p in cuts <==>
                    p in before || exists k :: 0 <= k < dot && name[k] == DOT && p == name[..k]
        decreases |name| - dot
      {
        cuts := cuts + {name[..dot]};
        dot := Find(name, DOT, dot + 1);
      }
    }

    /** `handle_list`: exactly the selected names, and exactly their dot-cut proper prefixes, both strictly ascending.
        */
    method HandleList(prefixes: seq<string>, depth: nat) returns (names: seq<string>, cuts: seq<string>)
      ensures Ascending(names) && forall n :: n in names <==> n in values && Selected(n, prefixes, depth)
      ensures Ascending(cuts)
      ensures forall p :: p in cuts <==> exists n :: n in names && exists k :: 0 <= k < |n| && n[k] == '.' && p == n[..k]
    {
      var keys := InOrder(values.Keys);
      var matched: set<string> := {};
      for i := 0 to |keys|
        invariant forall n :: n in matched <==> n in keys[..i] && Selected(n, prefixes, depth)
      {
        assert keys[..i + 1] == keys[..i] + [keys[i]];
        var ok := IsListed(keys[i], prefixes, depth);
        if ok {
          matched := matched + {keys[i]};
        }
      }
      assert keys[..|keys|] == keys;
      names := InOrder(matched);
      var found: set<string> := {};
      for i := 0 to |names|
        invariant forall p :: p in found <==> exists n :: n in names[..i] && IsCut(n, p)
      {
        assert names[..i + 1] == names[..i] + [names[i]];
        found := CollectCuts(names[i], found);
      }
      assert names[..|names|] == names;
      cuts := InOrder(found);
    }
  }

  lemma SetOpsGrow(s: Store, ps: seq<Parameter>, i: nat)
    requires i < |ps|
    ensures ApplyAll(s, SetOps(ps[..i + 1])) == Apply(ApplyAll(s, SetOps(ps[..i])), Op.Set(ps[i].name, ps[i].value))
  {
    assert SetOps(ps[..i + 1])[..i] == SetOps(ps[..i]);
  }

  lemma DeclaredGrows(values: map<string, Value>, ps: seq<Parameter>, i: nat)
    requires i < |ps|
    ensures AllDeclared(values, ps[..i + 1]) <==> AllDeclared(values, ps[..i]) && ps[i].name in values
  {
    assert ps[..i + 1] == ps[..i] + [ps[i]];
  }
}
