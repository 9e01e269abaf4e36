// All runs of any number of clients and servers of one service over a network that loses, duplicates, delays
// and reorders payloads. The messages are the octets of ServiceWire; a run is the list of its steps.
module ServiceRuns {
  import opened Bytes
  import opened Schema
  import opened Wrappers
  import opened Blobs
  import opened Encoding
  import opened LengthGuard
  import opened RoundTrip
  import opened ServiceWire
  import opened Services

  datatype Outcome = Completed(response: Members) | TimedOut | SendFailed

  /** One client object, and for every allocated number where it stands. */
  datatype ClientRecord = ClientRecord(
    next: nat,                             // next_sequence_
    pending: map<int64, Completion>,       // pending_
    unregistered: set<int64>,              // allocated by a thread that has not yet registered it
    unwritten: set<int64>,                 // registered, write not yet attempted
    sent: map<int64, Members>,             // history: the request passed to send_request
    outcomes: map<int64, Outcome>)         // history: how the number ended

  /** A payload in the network with the message it was made from; no step reads the latter. */
  datatype Request = Request(payload: seq<byte>, header: ServiceHeader)
  datatype Served = Served(header: ServiceHeader, request: Members, response: Members)
  datatype Reply = Reply(payload: seq<byte>, origin: Served)

  /** The networks keep every payload ever written: a delivery may pick any of them, any number of times, or never. */
  datatype System = System(clients: map<uint64, ClientRecord>, requests: set<Request>, replies: set<Reply>,
                           served: set<Served>)

  datatype Step =
    | Join(id: uint64)
    | Allocate(id: uint64, request: Members)
    | Register(id: uint64, n: int64, completion: Completion)
    | Write(id: uint64, n: int64, accepted: bool)
    | TimeOut(id: uint64, n: int64)
    | Serve(delivered: Request, response: Members)
    | Receive(id: uint64, reply: Reply)

  const INITIAL: System := System(map[], {}, {}, {})
  const NEWCOMER: ClientRecord := ClientRecord(0, map[], {}, {}, map[], map[])

  /** A thread may take the step: ids are distinct, fewer than 2^63 requests per client, values the types admit. */
  predicate Enabled(t: ServiceType, s: System, step: Step) {
    match step
    case Join(id) => id !in s.clients
    case Allocate(id, request) =>
      id in s.clients && s.clients[id].next + 1 < I64_LIMIT && WellFormed(t.request, request)
    case Register(id, n, _) => id in s.clients && n in s.clients[id].unregistered
    case Write(id, n, _) => id in s.clients && n in s.clients[id].unwritten && n in s.clients[id].sent
    case TimeOut(id, n) =>
      // the waiter of a call: send_request has returned and the promise is not set
      id in s.clients && n in s.clients[id].pending && s.clients[id].pending[n] == Promise
      && n !in s.clients[id].unwritten
    case Serve(delivered, response) =>
      delivered in s.requests && Parse(t.request, Padded(delivered.payload)).Some? && WellFormed(t.response, response)
    case Receive(id, reply) => id in s.clients && reply in s.replies
  }

  function Take(t: ServiceType, s: System, step: Step): System
    requires Enabled(t, s, step)
  {
    match step
    case Join(id) => s.(clients := s.clients[id := NEWCOMER])
    case Allocate(id, request) =>
      var c := s.clients[id];
      var n := c.next + 1;
      s.(clients := s.clients[id := c.(next := n, unregistered := c.unregistered + {n}, sent := c.sent[n := request])])
    case Register(id, n, completion) =>
      var c := s.clients[id];
      s.(clients := s.clients[id := c.(unregistered := c.unregistered - {n}, unwritten := c.unwritten + {n},
                                       pending := c.pending[n := completion])])
    case Write(id, n, accepted) =>
      var c := s.clients[id];
      var h := ServiceHeader(id, n);
      var done := c.(unwritten := c.unwritten - {n});
      if accepted then
        s.(clients := s.clients[id := done],
           requests := s.requests + {Request(Wire(t.request, h, c.sent[n]), h)})
      else
        s.(clients := s.clients[id := done.(pending := c.pending - {n}, outcomes := c.outcomes[n := SendFailed])])
    case TimeOut(id, n) =>
      var c := s.clients[id];
      s.(clients := s.clients[id := c.(pending := c.pending - {n}, outcomes := c.outcomes[n := TimedOut])])
    case Serve(delivered, response) =>
      var (h, request) := Parse(t.request, Padded(delivered.payload)).value;
      var record := Served(h, request, response);
      s.(served := s.served + {record}, replies := s.replies + {Reply(Wire(t.response, h, response), record)})
    case Receive(id, reply) =>
      var c := s.clients[id];
      var done := Completes(t, id, c.pending, Padded(reply.payload));
      if done.None? then s
      else
        var (n, response) := done.value;
        s.(clients := s.clients[id := c.(pending := c.pending - {n}, outcomes := c.outcomes[n := Completed(response)])])
  }

  predicate IsRun(t: ServiceType, s: System, steps: seq<Step>)
    decreases |steps|
  {
    steps == [] || (Enabled(t, s, steps[0]) && IsRun(t, Take(t, s, steps[0]), steps[1..]))
  }

  function After(t: ServiceType, s: System, steps: seq<Step>): System
    requires IsRun(t, s, steps)
    decreases |steps|
  {
    if steps == [] then s else After(t, Take(t, s, steps[0]), steps[1..])
  }

  // --- the invariant ------------------------------------------------------------------

  /** Every allocated number is in exactly one place. */
  ghost predicate Partitioned(c: ClientRecord) {
    && (forall n :: n in c.sent <==> 1 <= n <= c.next)
    && c.sent.Keys == c.unregistered + c.pending.Keys + c.outcomes.Keys
    && c.unregistered !! c.pending.Keys && c.unregistered !! c.outcomes.Keys && c.pending.Keys !! c.outcomes.Keys
    && c.unwritten <= c.pending.Keys
  }

  /** The write of the request with this number was attempted. */
  ghost predicate Written(c: ClientRecord, n: int64) {
    n in c.sent && n !in c.unregistered && n !in c.unwritten
  }

  /** The request client `h.clientId` sent, and wrote, under `h.sequence`. */
  ghost predicate WasSent(s: System, h: ServiceHeader, request: Members) {
    && h.clientId in s.clients && Written(s.clients[h.clientId], h.sequence)
    && s.clients[h.clientId].sent[h.sequence] == request
  }

  ghost predicate HonestRequest(t: ServiceType, s: System, r: Request) {
    && r.header.clientId in s.clients && Written(s.clients[r.header.clientId], r.header.sequence)
    && r.payload == Wire(t.request, r.header, s.clients[r.header.clientId].sent[r.header.sequence])
  }

  ghost predicate HonestReply(t: ServiceType, s: System, r: Reply) {
    r.origin in s.served && r.payload == Wire(t.response, r.origin.header, r.origin.response)
  }

  /** Every completion carries a response computed from exactly the request sent under that number. */
  ghost predicate Faithful(s: System, id: uint64) {
    id in s.clients &&
    forall n :: n in s.clients[id].outcomes && s.clients[id].outcomes[n].Completed? ==>
      n in s.clients[id].sent &&
      Served(ServiceHeader(id, n), s.clients[id].sent[n], s.clients[id].outcomes[n].response) in s.served
  }

  ghost predicate WellFormedSends(t: ServiceType, c: ClientRecord) {
    forall n :: n in c.sent ==> WellFormed(t.request, c.sent[n])
  }

  ghost predicate Inv(t: ServiceType, s: System) {
    && (forall id :: id in s.clients ==> Partitioned(s.clients[id]))
    && (forall id :: id in s.clients ==> WellFormedSends(t, s.clients[id]))
    && (forall r :: r in s.requests ==> HonestRequest(t, s, r))
    && (forall r :: r in s.replies ==> HonestReply(t, s, r))
    && (forall x :: x in s.served ==> WasSent(s, x.header, x.request) && WellFormed(t.response, x.response))
    && (forall id :: id in s.clients ==> Faithful(s, id))
  }

  /** What no step undoes on a client: a sent request, an outcome. */
  ghost predicate Extends(c: ClientRecord, d: ClientRecord) {
    && c.next <= d.next
    && (forall n :: n in c.sent ==> n in d.sent && d.sent[n] == c.sent[n])
    && (forall n :: Written(c, n) ==> Written(d, n))
    && (forall n :: n in c.outcomes ==> n in d.outcomes && d.outcomes[n] == c.outcomes[n])
  }

  ghost predicate Keeps(before: System, after: System) {
    && before.served <= after.served
    && forall id :: id in before.clients ==> id in after.clients && Extends(before.clients[id], after.clients[id])
  }

  /** The completions of one client are covered by served records. */
  ghost predicate Covered(served: set<Served>, id: uint64, c: ClientRecord) {
    forall n :: n in c.outcomes && c.outcomes[n].Completed? ==>
      n in c.sent && Served(ServiceHeader(id, n), c.sent[n], c.outcomes[n].response) in served
  }

  /** Add or replace one client, leaving the network alone. */
  lemma UpdateClient(t: ServiceType, s: System, id: uint64, d: ClientRecord)
    requires Inv(t, s) && (id in s.clients ==> Extends(s.clients[id], d))
    requires Partitioned(d) && WellFormedSends(t, d) && Covered(s.served, id, d)
    ensures Inv(t, s.(clients := s.clients[id := d])) && Keeps(s, s.(clients := s.clients[id := d]))
  {
    hide Partitioned, WellFormed, Wire;
    var after := s.(clients := s.clients[id := d]);
    forall r | r in after.requests ensures HonestRequest(t, after, r) {
      assert HonestRequest(t, s, r);
    }
    forall r | r in after.replies ensures HonestReply(t, after, r) {
      assert HonestReply(t, s, r);
    }
    forall x | x in after.served ensures WasSent(after, x.header, x.request) {
      assert WasSent(s, x.header, x.request);
    }
    forall other | other in after.clients ensures Faithful(after, other) {
      if other != id {
        assert Faithful(s, other);
      }
    }
  }

  lemma JoinKeeps(t: ServiceType, s: System, id: uint64)
    requires Inv(t, s) && id !in s.clients
    ensures Inv(t, Take(t, s, Join(id))) && Keeps(s, Take(t, s, Join(id)))
  {
    hide Inv;
    UpdateClient(t, s, id, NEWCOMER);
  }

  /** What the invariant says about one client. */
  ghost predicate Sound(t: ServiceType, served: set<Served>, id: uint64, c: ClientRecord) {
    Partitioned(c) && WellFormedSends(t, c) && Covered(served, id, c)
  }

  lemma SoundClient(t: ServiceType, s: System, id: uint64)
    requires Inv(t, s) && id in s.clients
    ensures Sound(t, s.served, id, s.clients[id])
  {
    hide Partitioned, WellFormed;
    assert Faithful(s, id);
  }

  lemma AllocatedSound(t: ServiceType, served: set<Served>, id: uint64, c: ClientRecord, request: Members)
    requires Sound(t, served, id, c) && WellFormed(t.request, request) && c.next + 1 < I64_LIMIT
    ensures var n := c.next + 1;
            var d := c.(next := n, unregistered := c.unregistered + {n}, sent := c.sent[n := request]);
            Sound(t, served, id, d) && Extends(c, d)
  {
    hide WellFormed;
    assert c.next + 1 !in c.sent;
  }

  lemma AllocateKeeps(t: ServiceType, s: System, id: uint64, request: Members)
    requires Inv(t, s) && Enabled(t, s, Allocate(id, request))
    ensures Inv(t, Take(t, s, Allocate(id, request))) && Keeps(s, Take(t, s, Allocate(id, request)))
  {
    hide Inv, WellFormed, Wire, Partitioned;
    SoundClient(t, s, id);
    AllocatedSound(t, s.served, id, s.clients[id], request);
    UpdateClient(t, s, id, Take(t, s, Allocate(id, request)).clients[id]);
  }

  lemma RegisteredSound(t: ServiceType, served: set<Served>, id: uint64, c: ClientRecord, n: int64, completion: Completion)
    requires Sound(t, served, id, c) && n in c.unregistered
    ensures var d := c.(unregistered := c.unregistered - {n}, unwritten := c.unwritten + {n},
                        pending := c.pending[n := completion]);
            Sound(t, served, id, d) && Extends(c, d)
  {
    hide WellFormed;
  }

  lemma RegisterKeeps(t: ServiceType, s: System, id: uint64, n: int64, completion: Completion)
    requires Inv(t, s) && Enabled(t, s, Register(id, n, completion))
    ensures Inv(t, Take(t, s, Register(id, n, completion))) && Keeps(s, Take(t, s, Register(id, n, completion)))
  {
    hide Inv, WellFormed, Wire, Partitioned;
    SoundClient(t, s, id);
    RegisteredSound(t, s.served, id, s.clients[id], n, completion);
    UpdateClient(t, s, id, Take(t, s, Register(id, n, completion)).clients[id]);
  }

  /** A pending number ends: by timing out, by a failed write, or by a covered completion. */
  lemma EndKeeps(t: ServiceType, s: System, id: uint64, n: int64, unwritten: set<int64>, outcome: Outcome)
    requires Inv(t, s) && id in s.clients && n in s.clients[id].pending
    requires unwritten == s.clients[id].unwritten - {n}
    requires outcome.Completed? ==>
               n in s.clients[id].sent &&
               Served(ServiceHeader(id, n), s.clients[id].sent[n], outcome.response) in s.served
    ensures var c := s.clients[id];
            var d := c.(unwritten := unwritten, pending := c.pending - {n}, outcomes := c.outcomes[n := outcome]);
            Inv(t, s.(clients := s.clients[id := d])) && Keeps(s, s.(clients := s.clients[id := d]))
  {
    hide Inv, WellFormed, Wire;
    var c := s.clients[id];
    var d := c.(unwritten := unwritten, pending := c.pending - {n}, outcomes := c.outcomes[n := outcome]);
    SoundClient(t, s, id);
    assert d.pending.Keys == c.pending.Keys - {n} && d.outcomes.Keys == c.outcomes.Keys + {n};
    UpdateClient(t, s, id, d);
  }

  lemma SentKeeps(t: ServiceType, s: System, r: Request)
    requires Inv(t, s) && HonestRequest(t, s, r)
    ensures Inv(t, s.(requests := s.requests + {r}))
  {
    hide Partitioned, WellFormed, Wire, WellFormedSends;
    var after := s.(requests := s.requests + {r});
    forall q | q in after.requests ensures HonestRequest(t, after, q) {
      assert HonestRequest(t, s, q);
    }
    forall q | q in after.replies ensures HonestReply(t, after, q) {
      assert HonestReply(t, s, q);
    }
    forall x | x in after.served ensures WasSent(after, x.header, x.request) {
      assert WasSent(s, x.header, x.request);
    }
    forall id | id in after.clients ensures Faithful(after, id) {
      assert Faithful(s, id);
    }
  }

  lemma WriteKeeps(t: ServiceType, s: System, id: uint64, n: int64, accepted: bool)
    requires Inv(t, s) && Enabled(t, s, Write(id, n, accepted))
    ensures Inv(t, Take(t, s, Write(id, n, accepted))) && Keeps(s, Take(t, s, Write(id, n, accepted)))
  {
    hide Inv, WellFormed, Wire;
    var c := s.clients[id];
    SoundClient(t, s, id);
    if accepted {
      var h := ServiceHeader(id, n);
      var r := Request(Wire(t.request, h, c.sent[n]), h);
      UpdateClient(t, s, id, c.(unwritten := c.unwritten - {n}));
      SentKeeps(t, s.(clients := s.clients[id := c.(unwritten := c.unwritten - {n})]), r);
    } else {
      EndKeeps(t, s, id, n, c.unwritten - {n}, SendFailed);
    }
  }

  lemma TimeOutKeeps(t: ServiceType, s: System, id: uint64, n: int64)
    requires Inv(t, s) && Enabled(t, s, TimeOut(id, n))
    ensures Inv(t, Take(t, s, TimeOut(id, n))) && Keeps(s, Take(t, s, TimeOut(id, n)))
  {
    hide Inv, WellFormed, Wire;
    var c := s.clients[id];
    assert c.unwritten - {n} == c.unwritten;
    EndKeeps(t, s, id, n, c.unwritten, TimedOut);
  }

  /** The octets correlate: a server reads off a delivered request exactly who sent what. */
  lemma DeliveredRequest(t: ServiceType, s: System, r: Request)
    requires Inv(t, s) && r in s.requests && Parse(t.request, Padded(r.payload)).Some?
    ensures var (h, request) := Parse(t.request, Padded(r.payload)).value;
            h == r.header && WasSent(s, h, request)
  {
    hide Wire, Parse, WellFormed, AdmittedFields;
    assert HonestRequest(t, s, r);
    var request := s.clients[r.header.clientId].sent[r.header.sequence];
    assert WellFormedSends(t, s.clients[r.header.clientId]);
    ParseOfWire(t.request, r.header, request);
  }

  lemma ServeKeeps(t: ServiceType, s: System, delivered: Request, response: Members)
    requires Inv(t, s) && Enabled(t, s, Serve(delivered, response))
    ensures Inv(t, Take(t, s, Serve(delivered, response))) && Keeps(s, Take(t, s, Serve(delivered, response)))
  {
    hide Wire, Parse, WellFormed, Partitioned, WellFormedSends;
    DeliveredRequest(t, s, delivered);
    var after := Take(t, s, Serve(delivered, response));
    forall r | r in after.requests ensures HonestRequest(t, after, r) {
      assert HonestRequest(t, s, r);
    }
    forall r | r in after.replies ensures HonestReply(t, after, r) {
      assert r in s.replies ==> HonestReply(t, s, r);
    }
    forall x | x in after.served ensures WasSent(after, x.header, x.request) && WellFormed(t.response, x.response) {
      assert x in s.served ==> WasSent(s, x.header, x.request);
    }
    forall id | id in after.clients ensures Faithful(after, id) {
      assert Faithful(s, id);
    }
  }

  /** A completion triggered by a delivered reply is the response the server computed for that very number. */
  lemma DeliveredReply(t: ServiceType, s: System, id: uint64, reply: Reply)
    requires Inv(t, s) && id in s.clients && reply in s.replies
    ensures var done := Completes(t, id, s.clients[id].pending, Padded(reply.payload));
            done.Some? ==>
              reply.origin.header == ServiceHeader(id, done.value.0) && reply.origin.response == done.value.1
              && Written(s.clients[id], done.value.0)
              && Served(ServiceHeader(id, done.value.0), s.clients[id].sent[done.value.0], done.value.1) in s.served
  {
    hide Wire, Parse, WellFormed, AdmittedFields, Partitioned, WellFormedSends;
    assert HonestReply(t, s, reply);
    var x := reply.origin;
    assert WasSent(s, x.header, x.request);
    ParseOfWire(t.response, x.header, x.response);
  }

  lemma ReceiveKeeps(t: ServiceType, s: System, id: uint64, reply: Reply)
    requires Inv(t, s) && Enabled(t, s, Receive(id, reply))
    ensures Inv(t, Take(t, s, Receive(id, reply))) && Keeps(s, Take(t, s, Receive(id, reply)))
  {
    hide Inv, Wire, Parse, WellFormed, WellFormedSends;
    var c := s.clients[id];
    var done := Completes(t, id, c.pending, Padded(reply.payload));
    if done.Some? {
      var (n, response) := done.value;
      DeliveredReply(t, s, id, reply);
      assert c.unwritten - {n} == c.unwritten;
      EndKeeps(t, s, id, n, c.unwritten, Completed(response));
    }
  }

  lemma StepKeeps(t: ServiceType, s: System, step: Step)
    requires Inv(t, s) && Enabled(t, s, step)
    ensures Inv(t, Take(t, s, step)) && Keeps(s, Take(t, s, step))
  {
    hide Inv, Keeps, Take, WellFormed, Parse, Padded;
    match step
    case Join(id) => JoinKeeps(t, s, id);
    case Allocate(id, request) => AllocateKeeps(t, s, id, request);
    case Register(id, n, completion) => RegisterKeeps(t, s, id, n, completion);
    case Write(id, n, accepted) => WriteKeeps(t, s, id, n, accepted);
    case TimeOut(id, n) => TimeOutKeeps(t, s, id, n);
    case Serve(delivered, response) => ServeKeeps(t, s, delivered, response);
    case Receive(id, reply) => ReceiveKeeps(t, s, id, reply);
  }

  lemma KeepsIsTransitive(a: System, b: System, c: System)
    requires Keeps(a, b) && Keeps(b, c)
    ensures Keeps(a, c)
  {
    hide Written;
  }

  // --- the theorems ---------------------------------------------------------------------

  /** The invariant holds throughout every run, and nothing recorded is ever undone. */
  lemma {:induction false} RunKeeps(t: ServiceType, s: System, steps: seq<Step>)
    requires Inv(t, s) && IsRun(t, s, steps)
    ensures Inv(t, After(t, s, steps)) && Keeps(s, After(t, s, steps))
    decreases |steps|
  {
    hide Inv, Keeps, Enabled, Take;
    if steps == [] {
      KeepsItself(s);
    } else {
      StepKeeps(t, s, steps[0]);
      var next := Take(t, s, steps[0]);
      RunKeeps(t, next, steps[1..]);
      KeepsIsTransitive(s, next, After(t, next, steps[1..]));
    }
  }

  lemma KeepsItself(s: System)
    ensures Keeps(s, s)
  {
  }

  /** Whatever completes number n of a client is what a server computed from exactly the request sent under n. */
  lemma CompletionsAreFaithful(t: ServiceType, steps: seq<Step>, id: uint64, n: int64)
    requires IsRun(t, INITIAL, steps) && id in After(t, INITIAL, steps).clients
    ensures var end := After(t, INITIAL, steps);
            var c := end.clients[id];
            n in c.outcomes && c.outcomes[n].Completed? ==>
              n in c.sent && Served(ServiceHeader(id, n), c.sent[n], c.outcomes[n].response) in end.served
  {
    hide Enabled, Take, Partitioned, HonestRequest, HonestReply, WellFormed, WellFormedSends;
    RunKeeps(t, INITIAL, steps);
    assert Faithful(After(t, INITIAL, steps), id);
  }

  /** After every run each allocated number is in exactly one of unregistered, pending or ended. */
  lemma NumbersAreAccountedFor(t: ServiceType, steps: seq<Step>, id: uint64, n: int64)
    requires IsRun(t, INITIAL, steps) && id in After(t, INITIAL, steps).clients
    ensures var c := After(t, INITIAL, steps).clients[id];
            1 <= n <= c.next <==>
              || (n in c.unregistered && n !in c.pending && n !in c.outcomes)
              || (n !in c.unregistered && n in c.pending && n !in c.outcomes)
              || (n !in c.unregistered && n !in c.pending && n in c.outcomes)
  {
    hide Enabled, Take, HonestRequest, HonestReply, WellFormed, WellFormedSends, Faithful;
    RunKeeps(t, INITIAL, steps);
    assert Partitioned(After(t, INITIAL, steps).clients[id]);
  }

  lemma {:induction false} RunsConcatenate(t: ServiceType, s: System, first: seq<Step>, second: seq<Step>)
    requires IsRun(t, s, first + second)
    ensures IsRun(t, s, first) && IsRun(t, After(t, s, first), second)
    ensures After(t, s, first + second) == After(t, After(t, s, first), second)
    decreases |first|
  {
    hide Enabled, Take;
    if first == [] {
      assert first + second == second;
    } else {
      assert (first + second)[0] == first[0] && (first + second)[1..] == first[1..] + second;
      RunsConcatenate(t, Take(t, s, first[0]), first[1..], second);
    }
  }

  /** No number ends twice: an outcome present at any point of a run is the outcome at every later point. */
  lemma OutcomesAreFinal(t: ServiceType, first: seq<Step>, second: seq<Step>, id: uint64, n: int64)
    requires IsRun(t, INITIAL, first + second)
    requires IsRun(t, INITIAL, first) && id in After(t, INITIAL, first).clients
    requires n in After(t, INITIAL, first).clients[id].outcomes
    ensures var earlier, later := After(t, INITIAL, first), After(t, INITIAL, first + second);
            && id in later.clients && n in later.clients[id].outcomes && n !in later.clients[id].pending
            && later.clients[id].outcomes[n] == earlier.clients[id].outcomes[n]
  {
    hide Enabled, Take, HonestRequest, HonestReply, WellFormed, WellFormedSends, Faithful, IsRun, After;
    RunsConcatenate(t, INITIAL, first, second);
    RunKeeps(t, INITIAL, first);
    RunKeeps(t, After(t, INITIAL, first), second);
    assert Partitioned(After(t, INITIAL, first + second).clients[id]);
  }

  /** Progress: delivering a reply whose number is pending completes it, unless the length guard rejects the reply. */
  lemma DeliveryCompletes(t: ServiceType, s: System, id: uint64, reply: Reply)
    requires Inv(t, s) && Enabled(t, s, Receive(id, reply))
    requires reply.origin.header.clientId == id && reply.origin.header.sequence in s.clients[id].pending
    ensures var after := Take(t, s, Receive(id, reply)).clients[id];
            var envelope := Envelope(reply.origin.header, reply.origin.response);
            var n := reply.origin.header.sequence;
            if AdmittedFields(Enveloped(t.response), envelope, 0, |Padded(reply.payload)| - 4)
            then n !in after.pending && n in after.outcomes && after.outcomes[n] == Completed(reply.origin.response)
            else after == s.clients[id]
  {
    hide Wire, Parse, WellFormed, AdmittedFields, Partitioned, WellFormedSends;
    assert HonestReply(t, s, reply);
    ParseOfWire(t.response, reply.origin.header, reply.origin.response);
  }

  // --- the steps are what the objects do ----------------------------------------------------------

  /** The fields of the client object in a run. */
  function StateOf(c: ClientRecord): ClientState {
    ClientState(c.next, c.pending)
  }

  lemma RunOfThree(t: ServiceType, s: System, a: Step, b: Step, c: Step)
    requires Enabled(t, s, a) && Enabled(t, Take(t, s, a), b) && Enabled(t, Take(t, Take(t, s, a), b), c)
    ensures IsRun(t, s, [a, b, c])
    ensures After(t, s, [a, b, c]) == Take(t, Take(t, Take(t, s, a), b), c)
  {
    hide Enabled, Take;
    var s1 := Take(t, s, a);
    var s2 := Take(t, s1, b);
    var s3 := Take(t, s2, c);
    assert [a, b, c][1..] == [b, c] && [b, c][1..] == [c] && [c][1..] == [];
    assert IsRun(t, s3, []) && After(t, s3, []) == s3;
    assert IsRun(t, s2, [c]) && After(t, s2, [c]) == s3;
    assert IsRun(t, s1, [b, c]) && After(t, s1, [b, c]) == s3;
  }

  /** A call of SendRequest that nobody gets into is the steps Allocate, Register and Write. */
  lemma SendIsThreeSteps(t: ServiceType, s: System, id: uint64, request: Members, completion: Completion, accepted: bool)
    requires Enabled(t, s, Allocate(id, request))
    ensures var n := s.clients[id].next + 1;
            var steps := [Allocate(id, request), Register(id, n, completion), Write(id, n, accepted)];
            var h := ServiceHeader(id, n);
            && IsRun(t, s, steps) && id in After(t, s, steps).clients
            && StateOf(After(t, s, steps).clients[id]) == Sent(StateOf(s.clients[id]), completion, accepted)
            && After(t, s, steps).requests ==
                 s.requests + if accepted then {Request(Wire(t.request, h, request), h)} else {}
  {
    hide Wire, WellFormed, IsRun, After;
    var n := s.clients[id].next + 1;
    var s1 := Take(t, s, Allocate(id, request));
    var registered := Take(t, s1, Register(id, n, completion));
    assert registered.clients[id].sent[n] == request;
    RunOfThree(t, s, Allocate(id, request), Register(id, n, completion), Write(id, n, accepted));
  }

  /** The end of a call that timed out is the step TimeOut. */
  lemma FinishIsTimeOut(t: ServiceType, s: System, id: uint64, n: int64)
    requires Enabled(t, s, TimeOut(id, n))
    ensures StateOf(Take(t, s, TimeOut(id, n)).clients[id]) == GivenUp(StateOf(s.clients[id]), n)
  {
  }

  /** Dispatching a padded reply is the step Receive. */
  lemma DispatchIsReceive(t: ServiceType, s: System, id: uint64, reply: Reply)
    requires Enabled(t, s, Receive(id, reply))
    ensures StateOf(Take(t, s, Receive(id, reply)).clients[id])
              == Received(t, id, StateOf(s.clients[id]), Padded(reply.payload))
  {
    hide Parse, Padded;
  }

  // --- what can happen ----------------------------------------------------------------------------

  /** The network forgets nothing: what was written can be delivered again, out of order, or twice. */
  lemma {:induction false} NetworkKeeps(t: ServiceType, s: System, steps: seq<Step>)
    requires IsRun(t, s, steps)
    ensures s.requests <= After(t, s, steps).requests && s.replies <= After(t, s, steps).replies
    decreases |steps|
  {
    hide Enabled, Take;
    if steps != [] {
      StepForgetsNothing(t, s, steps[0]);
      NetworkKeeps(t, Take(t, s, steps[0]), steps[1..]);
    }
  }

  lemma StepForgetsNothing(t: ServiceType, s: System, step: Step)
    requires Enabled(t, s, step)
    ensures s.requests <= Take(t, s, step).requests && s.replies <= Take(t, s, step).replies
  {
    hide Wire, Parse, WellFormed, Padded;
  }

  /** Who writes what: requests come from Write, replies and served records from Serve, the request of a number from
      Allocate, and a completion from Receive. */
  lemma StepsTouchOnly(t: ServiceType, s: System, step: Step, id: uint64)
    requires Enabled(t, s, step) && id in s.clients
    ensures var after := Take(t, s, step);
            && (!step.Write? ==> after.requests == s.requests)
            && (!step.Serve? ==> after.replies == s.replies && after.served == s.served)
            && id in after.clients
            && (step.Allocate? && step.id == id ==>
                  after.clients[id].sent == s.clients[id].sent[s.clients[id].next + 1 := step.request])
            && (!step.Allocate? || step.id != id ==>
                  after.clients[id].sent == s.clients[id].sent && after.clients[id].next == s.clients[id].next)
            && (!step.Receive? ==>
                  forall n :: n in after.clients[id].outcomes && after.clients[id].outcomes[n].Completed? ==>
                    n in s.clients[id].outcomes && s.clients[id].outcomes[n] == after.clients[id].outcomes[n])
  {
    hide Wire, Parse, WellFormed, Padded;
  }

  /** Serving a request that was really written answers its sender, under its number, with the response of the callback.
      */
  lemma ServeAnswers(t: ServiceType, s: System, delivered: Request, response: Members)
    requires Inv(t, s) && Enabled(t, s, Serve(delivered, response))
    ensures var h := delivered.header;
            && h.clientId in s.clients && h.sequence in s.clients[h.clientId].sent
            && var x := Served(h, s.clients[h.clientId].sent[h.sequence], response);
               Take(t, s, Serve(delivered, response))
                 == s.(served := s.served + {x}, replies := s.replies + {Reply(Wire(t.response, h, response), x)})
  {
    hide Wire, Parse, WellFormed, Inv;
    DeliveredRequest(t, s, delivered);
  }

  /** A payload of a solid message is parsed by its receiver. */
  lemma SolidIsParsed(fs: Fields, h: ServiceHeader, ms: Members)
    requires Solid(fs) && WellFormed(fs, ms)
    ensures Parse(fs, Padded(Wire(fs, h, ms))) == Some((h, ms))
  {
    hide Parse, AdmittedFields;
    SolidIsAdmitted(fs, h, ms);
    ParseOfWire(fs, h, ms);
  }

  lemma SolidIsAdmitted(fs: Fields, h: ServiceHeader, ms: Members)
    requires Solid(fs) && WellFormed(fs, ms)
    ensures AdmittedFields(Enveloped(fs), Envelope(h, ms), 0, |Padded(Wire(fs, h, ms))| - 4)
  {
    hide AdmittedFields, TypedFields, FitsFields, Solid, EncFields;
    EnvelopeWellFormed(fs, h, ms);
    EnvelopeIsSolid(fs);
    SolidAdmits(Enveloped(fs), Envelope(h, ms), 0, |Padded(Wire(fs, h, ms))| - 4);
  }

  lemma EnvelopeIsSolid(fs: Fields)
    requires Solid(fs)
    ensures Solid(Enveloped(fs))
  {
  }

  lemma {:induction false} RunsJoin(t: ServiceType, s: System, first: seq<Step>, second: seq<Step>)
    requires IsRun(t, s, first) && IsRun(t, After(t, s, first), second)
    ensures IsRun(t, s, first + second)
    ensures After(t, s, first + second) == After(t, After(t, s, first), second)
    decreases |first|
  {
    hide Enabled, Take;
    if first == [] {
      assert first + second == second;
    } else {
      assert (first + second)[0] == first[0] && (first + second)[1..] == first[1..] + second;
      RunsJoin(t, Take(t, s, first[0]), first[1..], second);
    }
  }

  lemma RunOfTwo(t: ServiceType, s: System, a: Step, b: Step)
    requires Enabled(t, s, a) && Enabled(t, Take(t, s, a), b)
    ensures IsRun(t, s, [a, b]) && After(t, s, [a, b]) == Take(t, Take(t, s, a), b)
  {
    hide Enabled, Take;
    var s1 := Take(t, s, a);
    var s2 := Take(t, s1, b);
    assert [a, b][1..] == [b] && [b][1..] == [];
    assert IsRun(t, s2, []) && After(t, s2, []) == s2;
    assert IsRun(t, s1, [b]) && After(t, s1, [b]) == s2;
  }

  /** From every reachable state a call can be answered: sent, served and received undisturbed, it completes with the
      response of the server, whatever else is pending or under way. */
  lemma CallCanComplete(t: ServiceType, s: System, id: uint64, request: Members, completion: Completion, response: Members)
    requires Inv(t, s) && Enabled(t, s, Allocate(id, request)) && WellFormed(t.response, response)
    requires Solid(t.request) && Solid(t.response)
    ensures var n := s.clients[id].next + 1;
            var h := ServiceHeader(id, n);
            var reply := Reply(Wire(t.response, h, response), Served(h, request, response));
            var sending := [Allocate(id, request), Register(id, n, completion), Write(id, n, true)];
            var steps := sending + [Serve(Request(Wire(t.request, h, request), h), response), Receive(id, reply)];
            && IsRun(t, s, steps) && id in After(t, s, steps).clients
            && var c := After(t, s, steps).clients[id];
               n !in c.pending && n in c.outcomes && c.outcomes[n] == Completed(response)
  {
    hide Wire, WellFormed, IsRun, After, Inv, Parse, Solid, AdmittedFields;
    var n := s.clients[id].next + 1;
    var h := ServiceHeader(id, n);
    var sending := [Allocate(id, request), Register(id, n, completion), Write(id, n, true)];
    SendIsThreeSteps(t, s, id, request, completion, true);
    RunKeeps(t, s, sending);
    var sent := After(t, s, sending);
    var delivered := Request(Wire(t.request, h, request), h);
    var reply := Reply(Wire(t.response, h, response), Served(h, request, response));
    SolidIsParsed(t.request, h, request);
    assert n in sent.clients[id].pending by { assert n in StateOf(sent.clients[id]).pending; }
    StepKeeps(t, sent, Serve(delivered, response));
    var served := Take(t, sent, Serve(delivered, response));
    assert served == sent.(served := sent.served + {reply.origin}, replies := sent.replies + {reply});
    SolidIsAdmitted(t.response, h, response);
    DeliveryCompletes(t, served, id, reply);
    RunOfTwo(t, sent, Serve(delivered, response), Receive(id, reply));
    RunsJoin(t, s, sending, [Serve(delivered, response), Receive(id, reply)]);
  }

  /** Once its request is written, the waiter of a call may give up at any time; a callback never does. */
  lemma WaiterCanGiveUp(t: ServiceType, s: System, id: uint64, n: int64, accepted: bool)
    requires Inv(t, s) && Enabled(t, s, Write(id, n, accepted))
    ensures Enabled(t, Take(t, s, Write(id, n, accepted)), TimeOut(id, n)) <==>
              accepted && s.clients[id].pending[n] == Promise
  {
    hide Wire, WellFormed, Parse;
  }
}
