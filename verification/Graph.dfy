// What the graph observer knows of the system, event by event, and what that amounts to after any run of events.
module Graph {
  import opened Bytes
  import opened Wrappers
  import opened Names
  import Json

  const GUID_SIZE: nat := 16
  const MAX_LOGS: nat := 512

  type Guid = g: seq<byte> | |g| == GUID_SIZE witness [0, 0, 0, 0, 0, 0, 0, 0, 0, 0, 0, 0, 0, 0, 0, 0]

  datatype Endpoint = Endpoint(participant: Guid, topic: string, typeName: string, writer: bool)

  /** One node of a ros_discovery_info message; a gid carries at least the 16 octets of a GUID. */
  datatype NodeInfo = NodeInfo(namespace: string, name: string, readerGids: seq<seq<byte>>, writerGids: seq<seq<byte>>)

  datatype Log = Log(name: string, text: string, level: nat)

  datatype Observed = Observed(
    participants: map<Guid, string>,
    endpoints: map<Guid, Endpoint>,
    discovery: map<Guid, seq<NodeInfo>>,
    logs: seq<Log>)

  const NOTHING: Observed := Observed(map[], map[], map[], [])

  /** A sample of a built-in or ROS topic, taken off its reader. */
  datatype Event =
    | ParticipantAlive(key: Guid, userData: Option<string>)
    | ParticipantGone(key: Guid)
    | EndpointAlive(key: Guid, info: Endpoint)
    | EndpointGone(key: Guid)
    | Discovered(key: Guid, nodes: seq<NodeInfo>)
    | Logged(log: Log)

  /** The last `n` elements. */
  function Last<T>(s: seq<T>, n: nat): seq<T> {
    if |s| <= n then s else s[|s| - n..]
  }

  function Observe(o: Observed, e: Event): Observed {
    match e
    case ParticipantAlive(key, userData) =>
      o.(participants := o.participants[key := if userData.Some? then ParseEnclave(userData.value) else ""])
    case ParticipantGone(key) =>
      o.(participants := o.participants - {key}, discovery := o.discovery - {key},
         endpoints := map g | g in o.endpoints && o.endpoints[g].participant != key :: o.endpoints[g])
    case EndpointAlive(key, info) => o.(endpoints := o.endpoints[key := info])
    case EndpointGone(key) => o.(endpoints := o.endpoints - {key})
    case Discovered(key, nodes) => o.(discovery := o.discovery[key := nodes])
    case Logged(log) => o.(logs := Last(o.logs + [log], MAX_LOGS))
  }

  function ObserveAll(o: Observed, events: seq<Event>): Observed {
    if events == [] then o else Observe(ObserveAll(o, events[..|events| - 1]), events[|events| - 1])
  }

  lemma {:induction false} ObserveAllSplits(o: Observed, first: seq<Event>, second: seq<Event>)
    ensures ObserveAll(o, first + second) == ObserveAll(ObserveAll(o, first), second)
    decreases |second|
  {
    hide Observe;
    if second == [] {
      assert first + second == first;
    } else {
      var most := second[..|second| - 1];
      assert (first + second)[..|first + second| - 1] == first + most;
      ObserveAllSplits(o, first, most);
    }
  }

  // --- what a run amounts to ----------------------------------------------------------------

  /** The event replaces or ends what was known of endpoint `g` as `info`. */
  predicate Retires(e: Event, g: Guid, info: Endpoint) {
    || (e.EndpointAlive? && e.key == g)
    || (e.EndpointGone? && e.key == g)
    || (e.ParticipantGone? && e.key == info.participant)
  }

  ghost predicate IsLatest(events: seq<Event>, i: nat, g: Guid, info: Endpoint)
    requires i < |events|
  {
    events[i] == EndpointAlive(g, info) && forall j :: i < j < |events| ==> !Retires(events[j], g, info)
  }

  ghost predicate Announced(events: seq<Event>, g: Guid, info: Endpoint) {
    exists i :: 0 <= i < |events| && IsLatest(events, i, g, info)
  }

  /** After any run an endpoint is known, with exactly these properties, iff it was announced so and neither it nor its
      participant has been withdrawn or replaced since. */
  lemma {:induction false} KnownMeansAnnounced(events: seq<Event>, g: Guid, info: Endpoint)
    ensures var o := ObserveAll(NOTHING, events);
            g in o.endpoints && o.endpoints[g] == info <==> Announced(events, g, info)
  {
    if events != [] {
      var most, e := events[..|events| - 1], events[|events| - 1];
      KnownMeansAnnounced(most, g, info);
      AnnouncedStep(most, e, g, info);
      assert events == most + [e];
    }
  }

  lemma AnnouncedStep(most: seq<Event>, e: Event, g: Guid, info: Endpoint)
    ensures Announced(most + [e], g, info) <==>
              e == EndpointAlive(g, info) || (Announced(most, g, info) && !Retires(e, g, info))
  {
    var events := most + [e];
    if e == EndpointAlive(g, info) {
      assert IsLatest(events, |most|, g, info);
    }
    if Announced(most, g, info) && !Retires(e, g, info) {
      var i :| 0 <= i < |most| && IsLatest(most, i, g, info);
      assert IsLatest(events, i, g, info);
    }
    if Announced(events, g, info) && e != EndpointAlive(g, info) {
      var i :| 0 <= i < |events| && IsLatest(events, i, g, info);
      assert i < |most| && events[|most|] == e;
      assert IsLatest(most, i, g, info) by {
        forall j | i < j < |most| ensures !Retires(most[j], g, info) {
          assert events[j] == most[j];
        }
      }
    }
  }

  /** The event brings something of participant `p` back. */
  predicate Revives(e: Event, p: Guid) {
    || (e.ParticipantAlive? && e.key == p)
    || (e.Discovered? && e.key == p)
    || (e.EndpointAlive? && e.info.participant == p)
  }

  ghost predicate Forgotten(o: Observed, p: Guid) {
    p !in o.participants && p !in o.discovery && forall g :: g in o.endpoints ==> o.endpoints[g].participant != p
  }

  /** From its departure until something of it is announced again, nothing of a participant is known. */
  lemma {:induction false} DepartedIsForgotten(o: Observed, p: Guid, later: seq<Event>)
    requires forall j :: 0 <= j < |later| ==> !Revives(later[j], p)
    ensures Forgotten(ObserveAll(Observe(o, ParticipantGone(p)), later), p)
  {
    if later != [] {
      DepartedIsForgotten(o, p, later[..|later| - 1]);
    }
  }

  function LogsOf(events: seq<Event>): seq<Log> {
    if events == [] then []
    else
      var e := events[|events| - 1];
      LogsOf(events[..|events| - 1]) + if e.Logged? then [e.log] else []
  }

  /** The ring holds exactly the 512 most recent records. */
  lemma {:induction false} LogsAreRecent(events: seq<Event>)
    ensures ObserveAll(NOTHING, events).logs == Last(LogsOf(events), MAX_LOGS)
  {
    if events != [] {
      LogsAreRecent(events[..|events| - 1]);
    }
  }

  lemma {:induction false} LogsOfConcat(a: seq<Event>, b: seq<Event>, e: Event)
    ensures LogsOf(a + b) == LogsOf(a) + LogsOf(b)
    ensures LogsOf([e]) == if e.Logged? then [e.log] else []
    decreases |b|
  {
    if b == [] {
      assert a + b == a && [e][..0] == [];
    } else {
      assert (a + b)[..|a + b| - 1] == a + b[..|b| - 1];
      LogsOfConcat(a, b[..|b| - 1], e);
    }
  }

  /** ... that is, the end of everything logged, in order, and all of it as long as it fits. */
  lemma LogsAreTheEnd(events: seq<Event>)
    ensures var all, logs := LogsOf(events), ObserveAll(NOTHING, events).logs;
            && |logs| == (if |all| < 512 then |all| else 512)
            && logs == all[|all| - |logs|..]
  {
    LogsAreRecent(events);
  }

  // --- participants and discovery messages ---------------------------------------------------------

  lemma ParticipantStep(o: Observed, e: Event, p: Guid, enclave: string)
    ensures var after := Observe(o, e);
            p in after.participants && after.participants[p] == enclave <==>
              if e.ParticipantAlive? && e.key == p
              then enclave == if e.userData.Some? then ParseEnclave(e.userData.value) else ""
              else !(e.ParticipantGone? && e.key == p) && p in o.participants && o.participants[p] == enclave
  {
    hide ParseEnclave;
  }

  /** After any run a participant is known, with its enclave, iff its latest event announced it so. */
  lemma {:induction false} ParticipantMeansAnnounced(events: seq<Event>, p: Guid, enclave: string)
    ensures var o := ObserveAll(NOTHING, events);
            p in o.participants && o.participants[p] == enclave <==>
              exists i :: 0 <= i < |events| && events[i].ParticipantAlive? && events[i].key == p
                && enclave == (if events[i].userData.Some? then ParseEnclave(events[i].userData.value) else "")
                && forall j :: i < j < |events| ==>
                     !(events[j].ParticipantAlive? && events[j].key == p)
                     && !(events[j].ParticipantGone? && events[j].key == p)
  {
    hide ParseEnclave, Observe;
    if events != [] {
      var most, last := events[..|events| - 1], |events| - 1;
      ParticipantMeansAnnounced(most, p, enclave);
      ParticipantStep(ObserveAll(NOTHING, most), events[last], p, enclave);
      forall i | 0 <= i < last ensures events[i] == most[i] {
      }
    }
  }

  /** After any run the nodes of a participant are those of its latest discovery message, unless it departed since. */
  lemma {:induction false} DiscoveryMeansAnnounced(events: seq<Event>, p: Guid, nodes: seq<NodeInfo>)
    ensures var o := ObserveAll(NOTHING, events);
            p in o.discovery && o.discovery[p] == nodes <==>
              exists i :: 0 <= i < |events| && events[i] == Discovered(p, nodes)
                && forall j :: i < j < |events| ==>
                     !(events[j].Discovered? && events[j].key == p)
                     && !(events[j].ParticipantGone? && events[j].key == p)
  {
    hide ParseEnclave;
    if events != [] {
      var most, last := events[..|events| - 1], |events| - 1;
      DiscoveryMeansAnnounced(most, p, nodes);
      forall i | 0 <= i < last ensures events[i] == most[i] {
      }
    }
  }

  // --- the owner of an endpoint ---------------------------------------------------------------

  /** Ordered: a better source wins. */
  datatype Source = Anonymous | UserData | Discovery

  function Rank(s: Source): nat {
    match s
    case Anonymous => 1
    case UserData => 2
    case Discovery => 3
  }

  predicate GidMatches(gid: seq<byte>, g: Guid) {
    |gid| >= GUID_SIZE && gid[..GUID_SIZE] == g
  }

  predicate Lists(gids: seq<seq<byte>>, g: Guid) {
    exists i :: 0 <= i < |gids| && GidMatches(gids[i], g)
  }

  predicate Owns(n: NodeInfo, g: Guid) {
    Lists(n.writerGids, g) || Lists(n.readerGids, g)
  }

  function FirstOwner(nodes: seq<NodeInfo>, g: Guid): Option<NodeInfo> {
    if nodes == [] then None
    else if Owns(nodes[0], g) then Some(nodes[0])
    else FirstOwner(nodes[1..], g)
  }

  function GuidHex(g: seq<byte>): (s: string)
    ensures |s| == 2 * |g|
  {
    if g == [] then "" else GuidHex(g[..|g| - 1]) + [Json.HEX[g[|g| - 1] / 16], Json.HEX[g[|g| - 1] % 16]]
  }

  lemma {:induction false} GuidHexIsInjective(a: seq<byte>, b: seq<byte>)
    requires GuidHex(a) == GuidHex(b)
    ensures a == b
  {
    if |a| == |b| > 0 {
      var s, n := GuidHex(a), |a|;
      assert s[..2 * n - 2] == GuidHex(a[..n - 1]) == GuidHex(b[..n - 1]);
      GuidHexIsInjective(a[..n - 1], b[..n - 1]);
      assert s[2 * n - 2] == Json.HEX[a[n - 1] / 16] == Json.HEX[b[n - 1] / 16];
      assert s[2 * n - 1] == Json.HEX[a[n - 1] % 16] == Json.HEX[b[n - 1] % 16];
      DigitsAreDistinct(a[n - 1] / 16, b[n - 1] / 16);
      DigitsAreDistinct(a[n - 1] % 16, b[n - 1] % 16);
      assert a == a[..n - 1] + [a[n - 1]] && b == b[..n - 1] + [b[n - 1]];
    }
  }

  /** Two lower-case hexadecimal digits for each octet, the high half first. */
  lemma {:induction false} GuidHexAt(g: seq<byte>, i: nat)
    requires i < |g|
    ensures GuidHex(g)[2 * i] == "0123456789abcdef"[g[i] / 16]
    ensures GuidHex(g)[2 * i + 1] == "0123456789abcdef"[g[i] % 16]
  {
    if i < |g| - 1 {
      GuidHexAt(g[..|g| - 1], i);
    }
  }

  lemma DigitsAreDistinct(i: nat, j: nat)
    requires i < 16 && j < 16 && Json.HEX[i] == Json.HEX[j]
    ensures i == j
  {
  }

  /** Which node an endpoint belongs to and how that is known; None if the announced name is no node name. */
  function Owner(o: Observed, participant: Guid, g: Guid): Option<(string, Source)> {
    var listed := if participant in o.discovery then FirstOwner(o.discovery[participant], g) else None;
    if listed.Some? then
      var name := NodeName(listed.value.namespace, listed.value.name);
      if name.None? then None else Some((name.value, Discovery))
    else if participant in o.participants && o.participants[participant] != "" then
      Some((o.participants[participant], UserData))
    else Some(("participant:" + GuidHex(participant), Anonymous))
  }

  lemma ListsByElement(gids: seq<seq<byte>>, g: Guid)
    ensures Lists(gids, g) <==> exists x :: x in gids && |x| >= 16 && x[..16] == g
  {
    if x :| x in gids && |x| >= 16 && x[..16] == g {
      var i :| 0 <= i < |gids| && gids[i] == x;
      assert GidMatches(gids[i], g);
    }
    if i :| 0 <= i < |gids| && GidMatches(gids[i], g) {
      assert gids[i] in gids;
    }
  }

  /** The first node of the participant's message with a writer or reader gid that starts with the endpoint's GUID owns
      it. */
  lemma OwnerIsFirstListed(o: Observed, participant: Guid, g: Guid, i: nat, gid: seq<byte>)
    requires participant in o.discovery && i < |o.discovery[participant]|
    requires gid in o.discovery[participant][i].writerGids || gid in o.discovery[participant][i].readerGids
    requires |gid| >= 16 && gid[..16] == g
    requires forall j, x :: 0 <= j < i && x in o.discovery[participant][j].writerGids ==> |x| < 16 || x[..16] != g
    requires forall j, x :: 0 <= j < i && x in o.discovery[participant][j].readerGids ==> |x| < 16 || x[..16] != g
    ensures var n := o.discovery[participant][i];
            var name := NodeName(n.namespace, n.name);
            Owner(o, participant, g) == if name.None? then None else Some((name.value, Discovery))
  {
    hide NodeName, Lists;
    var nodes := o.discovery[participant];
    forall j | 0 <= j < i ensures !Owns(nodes[j], g) {
      ListsByElement(nodes[j].writerGids, g);
      ListsByElement(nodes[j].readerGids, g);
    }
    ListsByElement(nodes[i].writerGids, g);
    ListsByElement(nodes[i].readerGids, g);
    FirstOwnerAt(nodes, g, i);
  }

  lemma {:induction false} FirstOwnerAt(nodes: seq<NodeInfo>, g: Guid, i: nat)
    requires i < |nodes| && Owns(nodes[i], g) && forall j :: 0 <= j < i ==> !Owns(nodes[j], g)
    ensures FirstOwner(nodes, g) == Some(nodes[i])
  {
    hide Owns;
    if i > 0 {
      assert nodes[1..][i - 1] == nodes[i] && forall j :: 0 <= j < i - 1 ==> nodes[1..][j] == nodes[j + 1];
      FirstOwnerAt(nodes[1..], g, i - 1);
    }
  }

  /** An endpoint no gid of its participant starts with belongs to the participant's enclave, or else to a name made of
      the participant's GUID. */
  lemma UnlistedBelongsToParticipant(o: Observed, participant: Guid, g: Guid)
    requires participant in o.discovery ==>
               && (forall j, x :: 0 <= j < |o.discovery[participant]| && x in o.discovery[participant][j].writerGids ==>
                     |x| < 16 || x[..16] != g)
               && (forall j, x :: 0 <= j < |o.discovery[participant]| && x in o.discovery[participant][j].readerGids ==>
                     |x| < 16 || x[..16] != g)
    ensures Owner(o, participant, g) ==
              if participant in o.participants && o.participants[participant] != ""
              then Some((o.participants[participant], UserData))
              else Some(("participant:" + GuidHex(participant), Anonymous))
  {
    hide NodeName, Lists, GuidHex;
    if participant in o.discovery {
      var nodes := o.discovery[participant];
      forall j | 0 <= j < |nodes| ensures !Owns(nodes[j], g) {
        ListsByElement(nodes[j].writerGids, g);
        ListsByElement(nodes[j].readerGids, g);
      }
      NoOwner(nodes, g);
    }
  }

  lemma {:induction false} NoOwner(nodes: seq<NodeInfo>, g: Guid)
    requires forall j :: 0 <= j < |nodes| ==> !Owns(nodes[j], g)
    ensures FirstOwner(nodes, g) == None
  {
    hide Owns;
    if nodes != [] {
      NoOwner(nodes[1..], g);
    }
  }
}
