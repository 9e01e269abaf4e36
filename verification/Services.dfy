// Service servers and clients as objects: one call of a method is one sample, one request or one timeout.
module Services {
  import opened Bytes
  import opened Schema
  import opened Decoding
  import opened Cdr
  import opened Wrappers
  import opened ServiceWire
  import opened Generated

  /** The two schemas of a service type. */
  datatype ServiceType = ServiceType(request: Fields, response: Fields)

  /** How a request is completed: by a callback or by the promise of a blocked call. */
  datatype Completion = Callback | Promise

  /** The pending entry a received sample completes, with the response it carries. */
  function Completes(t: ServiceType, id: uint64, pending: map<int64, Completion>, payload: seq<byte>)
      : (r: Option<(int64, Members)>)
    ensures r.Some? ==> r.value.0 in pending && WellFormed(t.response, r.value.1)
    ensures r.Some? ==> Parse(t.response, payload) == Some((ServiceHeader(id, r.value.0), r.value.1))
  {
    var parsed := Parse(t.response, payload);
    if parsed.None? || parsed.value.0.clientId != id || parsed.value.0.sequence !in pending then None
    else
      EnvelopeOfDecoded(t.response, payload);
      Some((parsed.value.0.sequence, parsed.value.1))
  }

  /** What a client keeps between calls: its counter and its pending map. */
  datatype ClientState = ClientState(next: int, pending: map<int64, Completion>)

  /** After one request, which the writer accepted or refused. */
  function Sent(c: ClientState, completion: Completion, accepted: bool): ClientState
    requires -I64_LIMIT <= c.next + 1 < I64_LIMIT
  {
    var n := c.next + 1;
    ClientState(n, if accepted then c.pending[n := completion] else c.pending - {n})
  }

  /** After the waiter of request `n` gave up. */
  function GivenUp(c: ClientState, n: int64): ClientState {
    c.(pending := c.pending - {n})
  }

  /** After one response sample. */
  function Received(t: ServiceType, id: uint64, c: ClientState, payload: seq<byte>): ClientState {
    var done := Completes(t, id, c.pending, payload);
    if done.Some? then c.(pending := c.pending - {done.value.0}) else c
  }

  class Service {
    const t: ServiceType
    /** None where the callback throws. */
    const callback: Members -> Option<Members>
    /** Everything handed to the reply writer. */
    var replies: seq<seq<byte>>

    constructor (t: ServiceType, callback: Members -> Option<Members>)
      ensures this.t == t && this.callback == callback && replies == []
    {
      this.t, this.callback, replies := t, callback, [];
    }

    /** One request sample: deserialize, run the callback, echo the header in front of the response. */
    method Dispatch(payload: seq<byte>)
      requires forall request :: callback(request).Some? ==> TypedFields(t.response, callback(request).value)
      modifies this
      ensures var parsed := Parse(t.request, payload);
              replies == old(replies) +
                if parsed.None? || callback(parsed.value.1).None? then []
                else [Wire(t.response, parsed.value.0, callback(parsed.value.1).value)]
    {
      hide Wire;
      if OpenError(payload) != None { return; }
      ParseInSteps(t.request, payload);
      var r := new CdrReader(payload);
      var h := ReadServiceHeader(r);
      if h.None? { return; }
      var request := Deserialize(t.request, r);
      if !request.Ok? { return; }
      var response := callback(request.value);
      if response.None? { return; }
      var reply := Marshal(t.response, h.value, response.value);
      replies := replies + [reply];
    }
  }

  class Client {
    const t: ServiceType
    const clientId: uint64
    var nextSequence: int64
    var pending: map<int64, Completion>
    /** Every completion handed to a callback or promise, in order. */
    var delivered: seq<(int64, Members)>

    constructor (t: ServiceType, id: uint64)
      ensures this.t == t && clientId == id && State() == ClientState(0, map[]) && delivered == []
    {
      this.t, clientId, nextSequence, pending, delivered := t, id, 0, map[], [];
    }

    function State(): ClientState
      reads this
    {
      ClientState(nextSequence, pending)
    }

    /** Allocate, register, write; `accepted` is what the request writer answers. None where send_request throws. */
    method SendRequest(request: Members, completion: Completion, accepted: bool)
        returns (seqNo: Option<int64>, payload: seq<byte>)
      requires TypedFields(t.request, request) && nextSequence + 1 < I64_LIMIT
      modifies this
      ensures State() == Sent(old(State()), completion, accepted) && delivered == old(delivered)
      ensures payload == Wire(t.request, ServiceHeader(clientId, nextSequence), request)
      ensures seqNo == if accepted then Some(nextSequence) else None
    {
      nextSequence := nextSequence + 1;
      var n := nextSequence;
      pending := pending[n := completion];
      payload := Marshal(t.request, ServiceHeader(clientId, n), request);
      if !accepted {
        pending := pending - {n};
        return None, payload;
      }
      seqNo := Some(n);
    }

    /** The end of a synchronous call: `ready` is whether the promise was set in time. True where call throws. */
    method FinishCall(seqNo: int64, ready: bool) returns (timedOut: bool)
      modifies this
      ensures timedOut == !ready
      ensures State() == if timedOut then GivenUp(old(State()), seqNo) else old(State())
      ensures delivered == old(delivered)
    {
      if !ready {
        pending := pending - {seqNo};
        return true;
      }
      timedOut := false;
    }

    /** One response sample: filter by id, deserialize, take the pending entry out and complete it. */
    method Dispatch(payload: seq<byte>)
      modifies this
      ensures State() == Received(t, clientId, old(State()), payload)
      ensures var done := Completes(t, clientId, old(pending), payload);
              delivered == old(delivered) + if done.Some? then [done.value] else []
    {
      if OpenError(payload) != None { return; }
      ParseInSteps(t.response, payload);
      var r := new CdrReader(payload);
      var h := ReadServiceHeader(r);
      if h.None? || h.value.clientId != clientId { return; }
      var response := Deserialize(t.response, r);
      if !response.Ok? { return; }
      var n := h.value.sequence;
      if n in pending {
        pending := pending - {n};
        delivered := delivered + [(n, response.value)];
      }
    }
  }
}
