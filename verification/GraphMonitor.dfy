// The observer as an object: polls that update what it knows, and the snapshot's join of endpoints into edges.
module GraphMonitor {
  import opened Bytes
  import opened Wrappers
  import opened Schema
  import opened Encoding
  import opened Decoding
  import opened Acceptance
  import opened LengthGuard
  import opened Cdr
  import opened Generated
  import opened Blobs
  import opened Names
  import opened Graph

  datatype ParticipantSample = ParticipantSample(key: Guid, alive: bool, userData: Option<string>)
  datatype EndpointSample = EndpointSample(key: Guid, alive: bool, info: Endpoint)

  /** ros_discovery_info as decoded; the key is the start of its 24-octet gid. */
  datatype DiscoveryMessage = DiscoveryMessage(gid: seq<byte>, nodes: seq<NodeInfo>)

  /** The two message types, generated from definitions outside the repository: their schemas and field accessors. */
  datatype ObserverTypes = ObserverTypes(discovery: Fields, readDiscovery: Members -> DiscoveryMessage,
                                         log: Fields, readLog: Members -> Log)

  /** What constructing a reader and deserializing from it comes to. */
  function Deserialized(fs: Fields, payload: seq<byte>): (d: Decoded<Members>)
    ensures d.Ok? ==> TypedFields(fs, d.value)
  {
    if OpenError(payload) != None then Thrown(OpenError(payload).value)
    else
      var d := DecFields(fs, payload, 4);
      if d.Ok? then
        FieldsAccepted(fs, payload, 4);
        d
      else d
  }

  method DeserializePayload(fs: Fields, payload: seq<byte>) returns (d: Decoded<Members>)
    ensures d == Deserialized(fs, payload)
  {
    if OpenError(payload) != None {
      return Thrown(OpenError(payload).value);
    }
    var r := new CdrReader(payload);
    d := Deserialize(fs, r);
  }

  function DiscoveryEvent(types: ObserverTypes, ms: Members): (e: Event)
    requires |types.readDiscovery(ms).gid| >= GUID_SIZE
    ensures e.Discovered? && e.nodes == types.readDiscovery(ms).nodes
    ensures |e.key| == 16 && e.key <= types.readDiscovery(ms).gid
  {
    Discovered(types.readDiscovery(ms).gid[..GUID_SIZE], types.readDiscovery(ms).nodes)
  }

  /** What was serialized and padded in transit is what the observer learns. */
  lemma AnnouncedIsLearned(fs: Fields, ms: Members)
    requires Solid(fs) && WellFormed(fs, ms)
    ensures var payload := HEADER + EncFields(fs, ms, 0);
            Deserialized(fs, Padded(payload)) == Ok(ms, |payload|)
  {
    hide EncFields, DecFields, Solid, WellFormed;
    var payload := HEADER + EncFields(fs, ms, 0);
    SentIsDecoded(HEADER, fs, ms);
    PaddingKeepsMessage(fs, payload);
    assert Padded(payload)[..2] == HEADER[..2];
  }

  function ParticipantEvent(s: ParticipantSample): (e: Event)
    ensures e.ParticipantAlive? == s.alive && e.ParticipantGone? == !s.alive
    ensures e.key == s.key && (s.alive ==> e.userData == s.userData)
  {
    if s.alive then ParticipantAlive(s.key, s.userData) else ParticipantGone(s.key)
  }

  function EndpointEvent(s: EndpointSample): (e: Event)
    ensures e.EndpointAlive? == s.alive && e.EndpointGone? == !s.alive
    ensures e.key == s.key && (s.alive ==> e.info == s.info)
  {
    if s.alive then EndpointAlive(s.key, s.info) else EndpointGone(s.key)
  }

  function EventsOf<T>(samples: seq<T>, event: T -> Event): (es: seq<Event>)
    ensures |es| == |samples| && forall i :: 0 <= i < |es| ==> es[i] == event(samples[i])
  {
    seq(|samples|, i requires 0 <= i < |samples| => event(samples[i]))
  }

  datatype Edge = Edge(source: string, target: string, name: string, kind: EdgeKind)

  datatype TopicNodes = TopicNodes(writers: set<string>, readers: set<string>)

  datatype Attributed = Attributed(info: Endpoint, node: string, source: Source)

  datatype Snapshot = Snapshot(nodes: map<string, Source>, topics: map<string, TopicNodes>, edges: set<Edge>)

  class GraphMonitor {
    const self: Guid
    const types: ObserverTypes
    var participants: map<Guid, string>
    var endpoints: map<Guid, Endpoint>
    var discovery: map<Guid, seq<NodeInfo>>
    var logs: seq<Log>

    constructor (self: Guid, types: ObserverTypes)
      ensures State() == NOTHING && this.self == self && this.types == types
    {
      this.self, this.types, participants, endpoints, discovery, logs := self, types, map[], map[], map[], [];
    }

    function State(): Observed
      reads this
    {
      Observed(participants, endpoints, discovery, logs)
    }

    /** The erase loop over the endpoints of a departed participant. */
    method DropEndpoints(key: Guid)
      modifies this`endpoints
      ensures endpoints == map g | g in old(endpoints) && old(endpoints)[g].participant != key :: old(endpoints)[g]
    {
      var todo := endpoints.Keys;
      while todo != {}
        invariant todo <= old(endpoints).Keys
        invariant forall g :: g in endpoints <==>
                    g in old(endpoints) && (g in todo || old(endpoints)[g].participant != key)
        invariant forall g :: g in endpoints ==> endpoints[g] == old(endpoints)[g]
        decreases |todo|
      {
        var g := Pick(todo);
        todo := todo - {g};
        if endpoints[g].participant == key {
          endpoints := endpoints - {g};
        }
      }
    }

    method PollParticipants(samples: seq<ParticipantSample>)
      modifies this
      ensures State() == ObserveAll(old(State()), EventsOf(samples, ParticipantEvent))
    {
      for i := 0 to |samples|
        invariant State() == ObserveAll(old(State()), EventsOf(samples[..i], ParticipantEvent))
      {
        EventsGrow(old(State()), samples, i, ParticipantEvent);
        var s := samples[i];
        if s.alive {
          var enclave := "";
          if s.userData.Some? {
            enclave := ParseEnclave(s.userData.value);
          }
          participants := participants[s.key := enclave];
        } else {
          participants := participants - {s.key};
          discovery := discovery - {s.key};
          DropEndpoints(s.key);
        }
      }
      assert samples[..|samples|] == samples;
    }

    /** `poll_builtin`, for publications and for subscriptions. */
    method PollBuiltin(samples: seq<EndpointSample>)
      modifies this
      ensures State() == ObserveAll(old(State()), EventsOf(samples, EndpointEvent))
    {
      for i := 0 to |samples|
        invariant State() == ObserveAll(old(State()), EventsOf(samples[..i], EndpointEvent))
      {
        EventsGrow(old(State()), samples, i, EndpointEvent);
        var s := samples[i];
        if s.alive {
          endpoints := endpoints[s.key := s.info];
        } else {
          endpoints := endpoints - {s.key};
        }
      }
      assert samples[..|samples|] == samples;
    }

    /** One ros_discovery_info sample. Nothing catches what the reader throws; a rejected message is dropped. */
    method PollDiscovery(payload: seq<byte>) returns (thrown: bool)
      requires forall ms :: TypedFields(types.discovery, ms) ==> |types.readDiscovery(ms).gid| >= GUID_SIZE
      modifies this
      ensures var d := Deserialized(types.discovery, payload);
              && thrown == d.Thrown?
              && State() == if d.Ok? then Observe(old(State()), DiscoveryEvent(types, d.value)) else old(State())
    {
      var d := DeserializePayload(types.discovery, payload);
      if d.Ok? {
        var message := types.readDiscovery(d.value);
        var key := message.gid[..GUID_SIZE];
        discovery := discovery[key := message.nodes];
      }
      thrown := d.Thrown?;
    }

    /** Drop the oldest records beyond the bound. */
    method TrimLogs()
      modifies this`logs
      ensures logs == Last(old(logs), MAX_LOGS)
      ensures logs == if |old(logs)| <= 512 then old(logs) else old(logs)[|old(logs)| - 512..]
    {
      ghost var all := logs;
      while |logs| > MAX_LOGS
        invariant |logs| <= |all| && logs == all[|all| - |logs|..]
        invariant logs == all || |logs| >= MAX_LOGS
      {
        logs := logs[1..];
      }
    }

    /** One rt/rosout sample, likewise. */
    method PollRosout(payload: seq<byte>) returns (thrown: bool)
      modifies this`logs
      ensures var d := Deserialized(types.log, payload);
              && thrown == d.Thrown?
              && State() == if d.Ok? then Observe(old(State()), Logged(types.readLog(d.value))) else old(State())
    {
      var d := DeserializePayload(types.log, payload);
      if d.Ok? {
        logs := logs + [types.readLog(d.value)];
        TrimLogs();
      }
      thrown := d.Thrown?;
    }

    /** The gid loop of `resolve_node`. */
    static method ListsGid(gids: seq<seq<byte>>, g: Guid) returns (found: bool)
      ensures found == Lists(gids, g)
    {
      for i := 0 to |gids|
        invariant forall j :: 0 <= j < i ==> !GidMatches(gids[j], g)
      {
        if GidMatches(gids[i], g) {
          return true;
        }
      }
      found := false;
    }

    /** `resolve_node`; None where make_fq_node_name throws. */
    method ResolveNode(participant: Guid, g: Guid) returns (owner: Option<(string, Source)>)
      ensures owner == Owner(State(), participant, g)
    {
      if participant in discovery {
        var nodes := discovery[participant];
        for i := 0 to |nodes|
          invariant FirstOwner(nodes, g) == FirstOwner(nodes[i..], g)
        {
          assert nodes[i..][0] == nodes[i] && nodes[i..][1..] == nodes[i + 1..];
          var owns := ListsGid(nodes[i].writerGids, g);
          if !owns {
            owns := ListsGid(nodes[i].readerGids, g);
          }
          if owns {
            var name := NodeName(nodes[i].namespace, nodes[i].name);
            return if name.None? then None else Some((name.value, Source.Discovery));
          }
        }
      }
      if participant in participants && participants[participant] != "" {
        return Some((participants[participant], UserData));
      }
      owner := Some(("participant:" + GuidHex(participant), Anonymous));
    }

    /** The endpoints of the observed system with their owners; None if some owner cannot be named. */
    method ResolveLive() returns (live: Option<map<Guid, Attributed>>)
      ensures live.None? <==> exists g :: IsLive(State(), self, g) && OwnerOf(State(), g).None?
      ensures live.Some? ==> IsAttribution(State(), self, live.value)
    {
      var todo := endpoints.Keys;
      var found: map<Guid, Attributed> := map[];
      while todo != {}
        invariant todo <= endpoints.Keys
        invariant forall g :: g in found <==> IsLive(State(), self, g) && g !in todo
        invariant forall g :: g in found ==>
                    && OwnerOf(State(), g).Some?
                    && found[g] == Attributed(endpoints[g], OwnerOf(State(), g).value.0, OwnerOf(State(), g).value.1)
        decreases |todo|
      {
        var g := Pick(todo);
        todo := todo - {g};
        if endpoints[g].participant != self {
          var owner := ResolveNode(endpoints[g].participant, g);
          if owner.None? {
            assert IsLive(State(), self, g) && OwnerOf(State(), g).None?;
            return None;
          }
          found := found[g := Attributed(endpoints[g], owner.value.0, owner.value.1)];
        }
      }
      live := Some(found);
    }

    /** The nodes announced by discovery messages, on top of those noted before; None if one cannot be named. */
    method NoteDiscovered(before: map<string, Source>, ghost noted: set<(string, Source)>)
      returns (nodes: Option<map<string, Source>>, ghost all: set<(string, Source)>)
      requires Best(noted, before)
      ensures nodes.None? <==> exists p :: p in discovery && p != self && !AllNamed(discovery[p])
      ensures nodes.Some? ==> Best(all, nodes.value)
      ensures nodes.Some? ==> forall x :: x in all <==> x in noted || NodeAnnounced(State(), self, discovery.Keys, x)
    {
      var todo := discovery.Keys;
      var found := before;
      all := noted;
      while todo != {}
        invariant todo <= discovery.Keys && Best(all, found)
        invariant forall p :: p in discovery && p != self && p !in todo ==> AllNamed(discovery[p])
        invariant forall x :: x in all <==> x in noted || NodeAnnounced(State(), self, discovery.Keys - todo, x)
        decreases |todo|
      {
        var p := Pick(todo);
        NodeAnnouncedGrows(State(), self, discovery.Keys - todo, p);
        assert discovery.Keys - (todo - {p}) == discovery.Keys - todo + {p};
        todo := todo - {p};
        if p != self {
          var more;
          more, all := NoteList(discovery[p], found, all);
          if more.None? {
            return None, all;
          }
          found := more.value;
        }
      }
      assert discovery.Keys - {} == discovery.Keys;
      nodes := Some(found);
    }

    /** The nodes known by their enclave only. */
    method NoteEnclaves(before: map<string, Source>, ghost noted: set<(string, Source)>)
      returns (nodes: map<string, Source>, ghost all: set<(string, Source)>)
      requires Best(noted, before)
      ensures Best(all, nodes)
      ensures forall x :: x in all <==>
                x in noted
                || exists p :: p in participants && HasEnclave(State(), self, p) && x == (participants[p], UserData)
    {
      var todo := participants.Keys;
      nodes, all := before, noted;
      while todo != {}
        invariant todo <= participants.Keys && Best(all, nodes)
        invariant forall x :: x in all <==>
                    x in noted
                    || exists p :: p in participants && p !in todo && HasEnclave(State(), self, p)
                                   && x == (participants[p], UserData)
        decreases |todo|
      {
        var p := Pick(todo);
        todo := todo - {p};
        if p != self && participants[p] != "" {
          BestGrows(all, nodes, participants[p], UserData);
          nodes := NoteNode(nodes, participants[p], UserData);
          all := all + {(participants[p], UserData)};
        }
      }
    }

    /** The part of `snapshot_json` before it writes: nodes, endpoints per topic, edges. None where it throws. */
    method TakeSnapshot() returns (snapshot: Option<Snapshot>)
      ensures snapshot.None? <==>
                || (exists g :: IsLive(State(), self, g) && OwnerOf(State(), g).None?)
                || (exists p :: p in discovery && p != self && !AllNamed(discovery[p]))
      ensures snapshot.None? <==>
                exists p, i :: p in discovery && p != self && 0 <= i < |discovery[p]|
                  && NodeName(discovery[p][i].namespace, discovery[p][i].name).None?
      ensures snapshot.Some? ==>
                && (forall e :: e in snapshot.value.edges <==> IsEdge(State(), self, e))
                && BestKnown(State(), self, snapshot.value.nodes)
                && TopicsKnown(State(), self, snapshot.value.topics)
    {
      hide Owner, NodeAnnounced, Best, EdgeName, NodeName, IsEdge, BestKnown, TopicsKnown, Aggregated, AllNamed;
      FailureMeans(State(), self);
      var live := ResolveLive();
      if live.None? {
        return None;
      }
      var owners, noted := NoteOwners(live.value);
      var discovered, more := NoteDiscovered(owners, noted);
      if discovered.None? {
        return None;
      }
      var nodes, all := NoteEnclaves(discovered.value, more);
      var topics := Aggregate(live.value);
      var edges := CollectEdges(topics);
      forall e ensures e in edges <==> IsEdge(State(), self, e) {
        JoinIsEdge(State(), self, live.value, topics, e);
      }
      forall x ensures x in all <==> Noted(State(), self, x) {
        OwnersAreNoted(State(), self, live.value, x);
      }
      BestMeans(State(), self, all, nodes);
      AggregatedMeans(State(), self, live.value, topics);
      snapshot := Some(Snapshot(nodes, topics, edges));
    }
  }

  /** An endpoint of the observed system, not of the observer. */
  predicate IsLive(o: Observed, self: Guid, g: Guid) {
    g in o.endpoints && o.endpoints[g].participant != self
  }

  function OwnerOf(o: Observed, g: Guid): Option<(string, Source)>
    requires g in o.endpoints
  {
    Owner(o, o.endpoints[g].participant, g)
  }

  ghost predicate IsAttribution(o: Observed, self: Guid, live: map<Guid, Attributed>) {
    && (forall g :: g in live <==> IsLive(o, self, g))
    && forall g :: g in live ==>
         && OwnerOf(o, g).Some?
         && live[g] == Attributed(o.endpoints[g], OwnerOf(o, g).value.0, OwnerOf(o, g).value.1)
  }

  lemma EventsGrow<T>(o: Observed, samples: seq<T>, i: nat, event: T -> Event)
    requires i < |samples|
    ensures ObserveAll(o, EventsOf(samples[..i + 1], event))
              == Observe(ObserveAll(o, EventsOf(samples[..i], event)), event(samples[i]))
  {
    assert EventsOf(samples[..i + 1], event)[..i] == EventsOf(samples[..i], event);
  }

  // --- nodes -----------------------------------------------------------------------------------

  /** The best source noted for each name. */
  ghost predicate Best(noted: set<(string, Source)>, nodes: map<string, Source>) {
    && (forall x :: x in noted ==> x.0 in nodes && Rank(x.1) <= Rank(nodes[x.0]))
    && (forall n :: n in nodes ==> (n, nodes[n]) in noted)
  }

  function NoteNode(nodes: map<string, Source>, name: string, source: Source): map<string, Source> {
    if name !in nodes || Rank(source) > Rank(nodes[name]) then nodes[name := source] else nodes
  }

  lemma BestGrows(noted: set<(string, Source)>, nodes: map<string, Source>, name: string, source: Source)
    requires Best(noted, nodes)
    ensures Best(noted + {(name, source)}, NoteNode(nodes, name, source))
  {
  }

  /** Every node of the message has a node name. */
  predicate AllNamed(list: seq<NodeInfo>) {
    forall i :: 0 <= i < |list| ==> NodeName(list[i].namespace, list[i].name).Some?
  }

  predicate ListsNode(list: seq<NodeInfo>, name: string) {
    exists i :: 0 <= i < |list| && NodeName(list[i].namespace, list[i].name) == Some(name)
  }

  /** Some participant in `ps`, other than the observer, announces the node. */
  ghost predicate NodeAnnounced(o: Observed, self: Guid, ps: set<Guid>, x: (string, Source)) {
    exists p :: p in ps && p != self && p in o.discovery && x.1 == Source.Discovery && ListsNode(o.discovery[p], x.0)
  }

  lemma NodeAnnouncedGrows(o: Observed, self: Guid, ps: set<Guid>, p: Guid)
    requires p in o.discovery
    ensures forall x :: NodeAnnounced(o, self, ps + {p}, x) <==>
              NodeAnnounced(o, self, ps, x) || (p != self && x.1 == Source.Discovery && ListsNode(o.discovery[p], x.0))
  {
    forall x
      ensures NodeAnnounced(o, self, ps + {p}, x) <==>
                NodeAnnounced(o, self, ps, x) || (p != self && x.1 == Source.Discovery && ListsNode(o.discovery[p], x.0))
    {
      if NodeAnnounced(o, self, ps, x) {
        var q :| q in ps && q != self && q in o.discovery && x.1 == Source.Discovery && ListsNode(o.discovery[q], x.0);
        assert q in ps + {p};
      }
    }
  }

  predicate HasEnclave(o: Observed, self: Guid, p: Guid) {
    p in o.participants && p != self && o.participants[p] != ""
  }

  /** A name and a way it is known, from an endpoint, a discovery message or a participant of the observed system. */
  ghost predicate Noted(o: Observed, self: Guid, x: (string, Source)) {
    || (exists g :: IsLive(o, self, g) && OwnerOf(o, g) == Some(x))
    || NodeAnnounced(o, self, o.discovery.Keys, x)
    || (exists p :: HasEnclave(o, self, p) && x == (o.participants[p], UserData))
  }

  /** The node loop over one discovery message. */
  method NoteList(list: seq<NodeInfo>, before: map<string, Source>, ghost noted: set<(string, Source)>)
    returns (nodes: Option<map<string, Source>>, ghost all: set<(string, Source)>)
    requires Best(noted, before)
    ensures nodes.Some? == AllNamed(list)
    ensures nodes.Some? ==> Best(all, nodes.value)
    ensures nodes.Some? ==> forall x :: x in all <==> x in noted || (x.1 == Source.Discovery && ListsNode(list, x.0))
  {
    var found := before;
    all := noted;
    for i := 0 to |list|
      invariant Best(all, found) && AllNamed(list[..i])
      invariant forall x :: x in all <==> x in noted || (x.1 == Source.Discovery && ListsNode(list[..i], x.0))
    {
      ListsGrows(list, i);
      var name := NodeName(list[i].namespace, list[i].name);
      if name.None? {
        return None, all;
      }
      BestGrows(all, found, name.value, Source.Discovery);
      found := NoteNode(found, name.value, Source.Discovery);
      all := all + {(name.value, Source.Discovery)};
    }
    assert list[..|list|] == list;
    nodes := Some(found);
  }

  lemma ListsGrows(list: seq<NodeInfo>, i: nat)
    requires i < |list|
    ensures forall n :: ListsNode(list[..i + 1], n) <==>
              ListsNode(list[..i], n) || NodeName(list[i].namespace, list[i].name) == Some(n)
    ensures AllNamed(list[..i + 1]) <==> AllNamed(list[..i]) && NodeName(list[i].namespace, list[i].name).Some?
  {
    var now, next := list[..i], list[..i + 1];
    assert next == now + [list[i]];
    forall n ensures ListsNode(next, n) <==> ListsNode(now, n) || NodeName(list[i].namespace, list[i].name) == Some(n) {
      if ListsNode(now, n) {
        var j :| 0 <= j < |now| && NodeName(now[j].namespace, now[j].name) == Some(n);
        assert next[j] == now[j];
      }
      if NodeName(list[i].namespace, list[i].name) == Some(n) {
        assert next[i] == list[i];
      }
    }
  }

  /** The owners of the live endpoints. */
  method NoteOwners(live: map<Guid, Attributed>)
    returns (nodes: map<string, Source>, ghost all: set<(string, Source)>)
    ensures Best(all, nodes)
    ensures forall x :: x in all <==> exists g :: g in live && x == (live[g].node, live[g].source)
  {
    var todo := live.Keys;
    nodes, all := map[], {};
    while todo != {}
      invariant todo <= live.Keys && Best(all, nodes)
      invariant forall x :: x in all <==> exists g :: g in live && g !in todo && x == (live[g].node, live[g].source)
      decreases |todo|
    {
      var g := Pick(todo);
      todo := todo - {g};
      BestGrows(all, nodes, live[g].node, live[g].source);
      nodes := NoteNode(nodes, live[g].node, live[g].source);
      all := all + {(live[g].node, live[g].source)};
    }
  }

  /** Exactly the noted names, each with the best source it is noted with. */
  ghost predicate BestKnown(o: Observed, self: Guid, nodes: map<string, Source>) {
    && (forall n :: n in nodes ==> Noted(o, self, (n, nodes[n])))
    && (forall n, s :: Noted(o, self, (n, s)) ==> n in nodes && Rank(s) <= Rank(nodes[n]))
  }

  lemma BestMeans(o: Observed, self: Guid, all: set<(string, Source)>, nodes: map<string, Source>)
    requires Best(all, nodes) && forall x :: x in all <==> Noted(o, self, x)
    ensures BestKnown(o, self, nodes)
  {
    hide Noted;
    forall n, s | Noted(o, self, (n, s)) ensures n in nodes && Rank(s) <= Rank(nodes[n]) {
      assert (n, s) in all;
    }
  }

  lemma OwnersAreNoted(o: Observed, self: Guid, live: map<Guid, Attributed>, x: (string, Source))
    requires IsAttribution(o, self, live)
    ensures (exists g :: g in live && x == (live[g].node, live[g].source)) <==>
              exists g :: IsLive(o, self, g) && OwnerOf(o, g) == Some(x)
  {
    hide Owner;
  }

  lemma {:induction false} FirstOwnerIsListed(nodes: seq<NodeInfo>, g: Guid)
    requires FirstOwner(nodes, g).Some?
    ensures exists i :: 0 <= i < |nodes| && FirstOwner(nodes, g) == Some(nodes[i])
  {
    hide Owns;
    if !Owns(nodes[0], g) {
      FirstOwnerIsListed(nodes[1..], g);
      var i :| 0 <= i < |nodes[1..]| && FirstOwner(nodes[1..], g) == Some(nodes[1..][i]);
      assert nodes[i + 1] == nodes[1..][i];
    }
  }

  /** A snapshot fails iff some participant other than the observer announces a node without a valid name. */
  lemma FailureMeans(o: Observed, self: Guid)
    ensures (exists g :: IsLive(o, self, g) && OwnerOf(o, g).None?)
            || (exists p :: p in o.discovery && p != self && !AllNamed(o.discovery[p]))
            <==> exists p, i :: p in o.discovery && p != self && 0 <= i < |o.discovery[p]|
                   && NodeName(o.discovery[p][i].namespace, o.discovery[p][i].name).None?
  {
    hide NodeName, FirstOwner, GuidHex;
    if g :| IsLive(o, self, g) && OwnerOf(o, g).None? {
      var p := o.endpoints[g].participant;
      FirstOwnerIsListed(o.discovery[p], g);
      var i :| 0 <= i < |o.discovery[p]| && FirstOwner(o.discovery[p], g) == Some(o.discovery[p][i]);
      assert NodeName(o.discovery[p][i].namespace, o.discovery[p][i].name).None?;
    }
  }

  /** Some participant other than the observer announces a node of that name. */
  ghost predicate IsAnnounced(o: Observed, self: Guid, name: string) {
    exists p, i :: p in o.discovery && p != self && 0 <= i < |o.discovery[p]|
      && NodeName(o.discovery[p][i].namespace, o.discovery[p][i].name) == Some(name)
  }

  lemma NotedAnnounced(o: Observed, self: Guid, name: string)
    ensures Noted(o, self, (name, Source.Discovery)) <==> IsAnnounced(o, self, name)
  {
    hide NodeName, FirstOwner, GuidHex;
    if g :| IsLive(o, self, g) && OwnerOf(o, g) == Some((name, Source.Discovery)) {
      var p := o.endpoints[g].participant;
      FirstOwnerIsListed(o.discovery[p], g);
      var i :| 0 <= i < |o.discovery[p]| && FirstOwner(o.discovery[p], g) == Some(o.discovery[p][i]);
      assert NodeName(o.discovery[p][i].namespace, o.discovery[p][i].name) == Some(name);
    }
    if IsAnnounced(o, self, name) {
      var p, i :| p in o.discovery && p != self && 0 <= i < |o.discovery[p]|
        && NodeName(o.discovery[p][i].namespace, o.discovery[p][i].name) == Some(name);
      assert ListsNode(o.discovery[p], name);
      assert NodeAnnounced(o, self, o.discovery.Keys, (name, Source.Discovery));
    }
  }

  lemma NotedByEnclave(o: Observed, self: Guid, name: string)
    ensures Noted(o, self, (name, UserData)) <==>
              name != "" && exists p :: p in o.participants && p != self && o.participants[p] == name
  {
    hide NodeName, FirstOwner, GuidHex;
    if g :| IsLive(o, self, g) && OwnerOf(o, g) == Some((name, UserData)) {
      var p := o.endpoints[g].participant;
      assert p in o.participants && p != self && o.participants[p] == name;
    }
    if name != "" && exists p :: p in o.participants && p != self && o.participants[p] == name {
      var p :| p in o.participants && p != self && o.participants[p] == name;
      assert HasEnclave(o, self, p);
    }
  }

  lemma NotedAnonymously(o: Observed, self: Guid, name: string)
    ensures Noted(o, self, (name, Anonymous)) <==>
              exists g :: g in o.endpoints && o.endpoints[g].participant != self
                && Owner(o, o.endpoints[g].participant, g) == Some((name, Anonymous))
  {
    hide Owner;
    if g :| g in o.endpoints && o.endpoints[g].participant != self
            && Owner(o, o.endpoints[g].participant, g) == Some((name, Anonymous))
    {
      assert IsLive(o, self, g) && OwnerOf(o, g) == Some((name, Anonymous));
    }
  }

  /** The nodes of a snapshot and how they are known: first the announced ones, then the enclaves, then the owners made
      up for endpoints that nothing else explains. */
  lemma NodesMean(o: Observed, self: Guid, nodes: map<string, Source>, name: string)
    requires BestKnown(o, self, nodes)
    ensures var announced := exists p, i :: p in o.discovery && p != self && 0 <= i < |o.discovery[p]|
                               && NodeName(o.discovery[p][i].namespace, o.discovery[p][i].name) == Some(name);
            var enclave := name != "" && exists p :: p in o.participants && p != self && o.participants[p] == name;
            var made := exists g :: g in o.endpoints && o.endpoints[g].participant != self
                          && Owner(o, o.endpoints[g].participant, g) == Some((name, Anonymous));
            if announced then name in nodes && nodes[name] == Source.Discovery
            else if enclave then name in nodes && nodes[name] == UserData
            else if made then name in nodes && nodes[name] == Anonymous
            else name !in nodes
  {
    hide Noted, Owner, NodeName;
    NotedAnnounced(o, self, name);
    NotedByEnclave(o, self, name);
    NotedAnonymously(o, self, name);
    if name in nodes {
      assert Noted(o, self, (name, nodes[name]));
    }
  }

  // --- topics and edges --------------------------------------------------------------------------

  /** Some endpoint in `done` writes (or reads) the topic for the node. */
  ghost predicate Uses(live: map<Guid, Attributed>, done: set<Guid>, topic: string, writer: bool, node: string) {
    exists g :: g in done && g in live
      && live[g].info.topic == topic && live[g].info.writer == writer && live[g].node == node
  }

  ghost predicate Aggregated(live: map<Guid, Attributed>, done: set<Guid>, topics: map<string, TopicNodes>) {
    && (forall t :: t in topics <==> exists g :: g in done && g in live && live[g].info.topic == t)
    && (forall t, n :: t in topics ==> (n in topics[t].writers <==> Uses(live, done, t, true, n)))
    && (forall t, n :: t in topics ==> (n in topics[t].readers <==> Uses(live, done, t, false, n)))
  }

  function WithUse(topics: map<string, TopicNodes>, a: Attributed): map<string, TopicNodes> {
    var t := if a.info.topic in topics then topics[a.info.topic] else TopicNodes({}, {});
    topics[a.info.topic :=
      if a.info.writer then t.(writers := t.writers + {a.node}) else t.(readers := t.readers + {a.node})]
  }

  lemma AggregatedGrows(live: map<Guid, Attributed>, done: set<Guid>, topics: map<string, TopicNodes>, g: Guid)
    requires Aggregated(live, done, topics) && g in live
    ensures Aggregated(live, done + {g}, WithUse(topics, live[g]))
  {
    var after := WithUse(topics, live[g]);
    forall t, writer, n
      ensures Uses(live, done + {g}, t, writer, n) <==>
                Uses(live, done, t, writer, n)
                || (live[g].info.topic == t && live[g].info.writer == writer && live[g].node == n)
    {
      if Uses(live, done, t, writer, n) {
        var h :| h in done && h in live && live[h].info.topic == t && live[h].info.writer == writer && live[h].node == n;
        assert h in done + {g};
      }
    }
    forall t ensures t in after <==> exists h :: h in done + {g} && h in live && live[h].info.topic == t {
      if t in topics {
        var h :| h in done && h in live && live[h].info.topic == t;
        assert h in done + {g};
      }
    }
    if live[g].info.topic !in topics {
      assert forall writer, n :: !Uses(live, done, live[g].info.topic, writer, n);
    }
  }

  method Aggregate(live: map<Guid, Attributed>) returns (topics: map<string, TopicNodes>)
    ensures Aggregated(live, live.Keys, topics)
  {
    topics := map[];
    var todo := live.Keys;
    while todo != {}
      invariant todo <= live.Keys && Aggregated(live, live.Keys - todo, topics)
      decreases |todo|
    {
      var g := Pick(todo);
      AggregatedGrows(live, live.Keys - todo, topics, g);
      assert live.Keys - (todo - {g}) == live.Keys - todo + {g};
      todo := todo - {g};
      topics := WithUse(topics, live[g]);
    }
    assert live.Keys - {} == live.Keys;
  }

  /** The inner loops: every writer with every reader. */
  method CrossEdges(t: TopicNodes, name: string, kind: EdgeKind, before: set<Edge>) returns (edges: set<Edge>)
    ensures forall e :: e in edges <==>
              e in before || (e.source in t.writers && e.target in t.readers && e.name == name && e.kind == kind)
  {
    edges := before;
    var writers := t.writers;
    while writers != {}
      invariant writers <= t.writers
      invariant forall e :: e in edges <==>
                  e in before
                  || (e.source in t.writers - writers && e.target in t.readers && e.name == name && e.kind == kind)
      decreases |writers|
    {
      var writer := Pick(writers);
      writers := writers - {writer};
      var readers := t.readers;
      ghost var start := edges;
      while readers != {}
        invariant readers <= t.readers
        invariant forall e :: e in edges <==>
                    e in start
                    || (e.source == writer && e.target in t.readers - readers && e.name == name && e.kind == kind)
        decreases |readers|
      {
        var reader := Pick(readers);
        readers := readers - {reader};
        edges := edges + {Edge(writer, reader, name, kind)};
      }
    }
  }

  ghost predicate Crosses(topics: map<string, TopicNodes>, t: string, e: Edge) {
    && t in topics && EdgeName(t) == Some((e.name, e.kind))
    && e.source in topics[t].writers && e.target in topics[t].readers
  }

  method CollectEdges(topics: map<string, TopicNodes>) returns (edges: set<Edge>)
    ensures forall e :: e in edges <==> exists t :: Crosses(topics, t, e)
  {
    edges := {};
    var todo := topics.Keys;
    while todo != {}
      invariant todo <= topics.Keys
      invariant forall e :: e in edges <==> exists t :: t !in todo && Crosses(topics, t, e)
      decreases |todo|
    {
      var t := Pick(todo);
      todo := todo - {t};
      var name := EdgeName(t);
      if name.Some? {
        edges := CrossEdges(topics[t], name.value.0, name.value.1, edges);
      }
    }
  }

  /** A live endpoint on the DDS topic, writing or reading, belongs to the node. */
  ghost predicate HasEndpoint(o: Observed, self: Guid, ddsTopic: string, writer: bool, node: string) {
    exists g :: IsLive(o, self, g) && o.endpoints[g].topic == ddsTopic && o.endpoints[g].writer == writer
      && OwnerOf(o, g).Some? && OwnerOf(o, g).value.0 == node
  }

  /** Exactly the topics of live endpoints, each with exactly the nodes that write and that read it. */
  ghost predicate TopicsKnown(o: Observed, self: Guid, topics: map<string, TopicNodes>) {
    && (forall t :: t in topics <==> exists g :: IsLive(o, self, g) && o.endpoints[g].topic == t)
    && (forall t, n :: t in topics ==> (n in topics[t].writers <==> HasEndpoint(o, self, t, true, n)))
    && (forall t, n :: t in topics ==> (n in topics[t].readers <==> HasEndpoint(o, self, t, false, n)))
  }

  lemma UsesMeans(o: Observed, self: Guid, live: map<Guid, Attributed>, t: string, writer: bool, n: string)
    requires IsAttribution(o, self, live)
    ensures Uses(live, live.Keys, t, writer, n) <==> HasEndpoint(o, self, t, writer, n)
  {
    hide Owner;
    if Uses(live, live.Keys, t, writer, n) {
      var g :| g in live && live[g].info.topic == t && live[g].info.writer == writer && live[g].node == n;
      assert IsLive(o, self, g) && o.endpoints[g] == live[g].info;
    }
    if HasEndpoint(o, self, t, writer, n) {
      var g :| IsLive(o, self, g) && o.endpoints[g].topic == t && o.endpoints[g].writer == writer
               && OwnerOf(o, g).Some? && OwnerOf(o, g).value.0 == n;
      assert g in live && live[g].info == o.endpoints[g];
    }
  }

  lemma AggregatedMeans(o: Observed, self: Guid, live: map<Guid, Attributed>, topics: map<string, TopicNodes>)
    requires IsAttribution(o, self, live) && Aggregated(live, live.Keys, topics)
    ensures TopicsKnown(o, self, topics)
  {
    hide Owner, Uses, HasEndpoint;
    forall t, writer, n ensures Uses(live, live.Keys, t, writer, n) <==> HasEndpoint(o, self, t, writer, n) {
      UsesMeans(o, self, live, t, writer, n);
    }
    forall t ensures t in topics <==> exists g :: IsLive(o, self, g) && o.endpoints[g].topic == t {
      if g :| g in live && live[g].info.topic == t {
        assert IsLive(o, self, g) && o.endpoints[g].topic == t;
      }
      if g :| IsLive(o, self, g) && o.endpoints[g].topic == t {
        assert g in live.Keys && live[g].info.topic == t;
      }
    }
  }

  /** Endpoints `w` and `r` of the observed system, on one DDS topic that names an edge, give rise to `e`. */
  ghost predicate IsEdgeBetween(o: Observed, self: Guid, w: Guid, r: Guid, e: Edge) {
    && IsLive(o, self, w) && IsLive(o, self, r)
    && o.endpoints[w].writer && !o.endpoints[r].writer
    && o.endpoints[w].topic == o.endpoints[r].topic
    && EdgeName(o.endpoints[w].topic) == Some((e.name, e.kind))
    && OwnerOf(o, w).Some? && OwnerOf(o, w).value.0 == e.source
    && OwnerOf(o, r).Some? && OwnerOf(o, r).value.0 == e.target
  }

  /** The join of live writers and live readers. */
  ghost predicate IsEdge(o: Observed, self: Guid, e: Edge) {
    exists w, r :: IsEdgeBetween(o, self, w, r, e)
  }

  lemma JoinIsEdge(o: Observed, self: Guid, live: map<Guid, Attributed>, topics: map<string, TopicNodes>, e: Edge)
    requires IsAttribution(o, self, live) && Aggregated(live, live.Keys, topics)
    ensures (exists t :: Crosses(topics, t, e)) <==> IsEdge(o, self, e)
  {
    hide Aggregated, IsAttribution, Crosses, IsEdgeBetween;
    forall t | Crosses(topics, t, e) ensures IsEdge(o, self, e) {
      CrossingIsEdge(o, self, live, topics, t, e);
    }
    forall w, r | IsEdgeBetween(o, self, w, r, e) ensures exists t :: Crosses(topics, t, e) {
      EdgeIsCrossing(o, self, live, topics, w, r, e);
    }
  }

  lemma CrossingIsEdge(o: Observed, self: Guid, live: map<Guid, Attributed>, topics: map<string, TopicNodes>, t: string,
                       e: Edge)
    requires IsAttribution(o, self, live) && Aggregated(live, live.Keys, topics) && Crosses(topics, t, e)
    ensures IsEdge(o, self, e)
  {
    hide EdgeName, Owner;
    assert Uses(live, live.Keys, t, true, e.source) && Uses(live, live.Keys, t, false, e.target);
    var w :| w in live && live[w].info.topic == t && live[w].info.writer && live[w].node == e.source;
    var r :| r in live && live[r].info.topic == t && !live[r].info.writer && live[r].node == e.target;
    assert IsEdgeBetween(o, self, w, r, e);
  }

  lemma EdgeIsCrossing(o: Observed, self: Guid, live: map<Guid, Attributed>, topics: map<string, TopicNodes>,
                       w: Guid, r: Guid, e: Edge)
    requires IsAttribution(o, self, live) && Aggregated(live, live.Keys, topics) && IsEdgeBetween(o, self, w, r, e)
    ensures exists t :: Crosses(topics, t, e)
  {
    hide EdgeName, Owner;
    var t := o.endpoints[w].topic;
    assert live[w].info == o.endpoints[w] && live[r].info == o.endpoints[r];
    assert Uses(live, live.Keys, t, true, e.source) && Uses(live, live.Keys, t, false, e.target);
    assert Crosses(topics, t, e);
  }

  /** An edge exists iff its nodes write and read the one DDS topic that its name and kind stand for. */
  lemma EdgeMeans(o: Observed, self: Guid, ddsTopic: string, e: Edge)
    requires EdgeName(ddsTopic) == Some((e.name, e.kind))
    ensures IsEdge(o, self, e) <==>
              HasEndpoint(o, self, ddsTopic, true, e.source) && HasEndpoint(o, self, ddsTopic, false, e.target)
  {
    hide Owner, EdgeName;
    forall w, r | IsEdgeBetween(o, self, w, r, e)
      ensures HasEndpoint(o, self, ddsTopic, true, e.source) && HasEndpoint(o, self, ddsTopic, false, e.target)
    {
      EdgeNameIsInjective(ddsTopic, o.endpoints[w].topic);
    }
    if HasEndpoint(o, self, ddsTopic, true, e.source) && HasEndpoint(o, self, ddsTopic, false, e.target) {
      var w :| IsLive(o, self, w) && o.endpoints[w].topic == ddsTopic && o.endpoints[w].writer
               && OwnerOf(o, w).Some? && OwnerOf(o, w).value.0 == e.source;
      var r :| IsLive(o, self, r) && o.endpoints[r].topic == ddsTopic && !o.endpoints[r].writer
               && OwnerOf(o, r).Some? && OwnerOf(o, r).value.0 == e.target;
      assert IsEdgeBetween(o, self, w, r, e);
    }
  }

  /** In terms of ROS names: publishers and subscriptions of a topic, clients and servers of a service. */
  lemma RosEdges(o: Observed, self: Guid, fqn: string, source: string, target: string)
    requires ValidFqn(fqn) && fqn != "/"
    ensures fqn != "/rosout" && fqn != "/parameter_events" ==>
              (IsEdge(o, self, Edge(source, target, fqn, Topic)) <==>
               HasEndpoint(o, self, TopicName(fqn).value, true, source)
               && HasEndpoint(o, self, TopicName(fqn).value, false, target))
    ensures IsEdge(o, self, Edge(source, target, fqn, Service)) <==>
              HasEndpoint(o, self, RequestTopicName(fqn).value, true, source)
              && HasEndpoint(o, self, RequestTopicName(fqn).value, false, target)
  {
    hide IsEdge, HasEndpoint, EdgeName;
    EdgeNameInvertsMangling(fqn);
    if fqn != "/rosout" && fqn != "/parameter_events" {
      EdgeMeans(o, self, TopicName(fqn).value, Edge(source, target, fqn, Topic));
    }
    EdgeMeans(o, self, RequestTopicName(fqn).value, Edge(source, target, fqn, Service));
  }

  /** The edges are the pairs of a writer and a reader of one topic, none of them the observer's, between their owners.
      */
  lemma EdgesAreTheJoin(o: Observed, self: Guid, e: Edge)
    ensures IsEdge(o, self, e) <==>
              exists w, r ::
                && w in o.endpoints && r in o.endpoints
                && o.endpoints[w].participant != self && o.endpoints[r].participant != self
                && o.endpoints[w].writer && !o.endpoints[r].writer
                && o.endpoints[w].topic == o.endpoints[r].topic
                && EdgeName(o.endpoints[w].topic) == Some((e.name, e.kind))
                && OwnerIs(o, w, e.source) && OwnerIs(o, r, e.target)
  {
    hide Owner, EdgeName;
    if IsEdge(o, self, e) {
      var w, r :| IsEdgeBetween(o, self, w, r, e);
      assert OwnerIs(o, w, e.source) && OwnerIs(o, r, e.target);
    }
    forall w, r | w in o.endpoints && r in o.endpoints
                  && o.endpoints[w].participant != self && o.endpoints[r].participant != self
                  && o.endpoints[w].writer && !o.endpoints[r].writer
                  && o.endpoints[w].topic == o.endpoints[r].topic
                  && EdgeName(o.endpoints[w].topic) == Some((e.name, e.kind))
                  && OwnerIs(o, w, e.source) && OwnerIs(o, r, e.target)
      ensures IsEdge(o, self, e)
    {
      assert IsEdgeBetween(o, self, w, r, e);
    }
  }

  predicate OwnerIs(o: Observed, g: Guid, name: string)
    requires g in o.endpoints
  {
    var owner := Owner(o, o.endpoints[g].participant, g);
    owner.Some? && owner.value.0 == name
  }

  /** The topics are those of the endpoints that are not the observer's, each with the owners of its writers and
      readers. */
  lemma TopicsMean(o: Observed, self: Guid, topics: map<string, TopicNodes>, t: string, name: string)
    requires TopicsKnown(o, self, topics)
    ensures t in topics <==> exists g :: g in o.endpoints && o.endpoints[g].participant != self && o.endpoints[g].topic == t
    ensures t in topics ==>
              (name in topics[t].writers <==>
                 exists g :: g in o.endpoints && o.endpoints[g].participant != self && o.endpoints[g].topic == t
                   && o.endpoints[g].writer && OwnerIs(o, g, name))
    ensures t in topics ==>
              (name in topics[t].readers <==>
                 exists g :: g in o.endpoints && o.endpoints[g].participant != self && o.endpoints[g].topic == t
                   && !o.endpoints[g].writer && OwnerIs(o, g, name))
  {
    hide Owner;
    EndpointMeans(o, self, t, true, name);
    EndpointMeans(o, self, t, false, name);
    LiveMeans(o, self);
  }

  lemma LiveMeans(o: Observed, self: Guid)
    ensures forall g :: IsLive(o, self, g) <==> g in o.endpoints && o.endpoints[g].participant != self
  {
  }

  lemma EndpointMeans(o: Observed, self: Guid, t: string, writer: bool, name: string)
    ensures HasEndpoint(o, self, t, writer, name) <==>
              exists g :: g in o.endpoints && o.endpoints[g].participant != self && o.endpoints[g].topic == t
                && o.endpoints[g].writer == writer && OwnerIs(o, g, name)
  {
    hide Owner;
    if g :| IsLive(o, self, g) && o.endpoints[g].topic == t && o.endpoints[g].writer == writer
            && OwnerOf(o, g).Some? && OwnerOf(o, g).value.0 == name
    {
      assert OwnerIs(o, g, name);
    }
    if g :| g in o.endpoints && o.endpoints[g].participant != self && o.endpoints[g].topic == t
            && o.endpoints[g].writer == writer && OwnerIs(o, g, name)
    {
      assert IsLive(o, self, g) && OwnerOf(o, g).Some? && OwnerOf(o, g).value.0 == name;
    }
  }
}
