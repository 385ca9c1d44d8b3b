/** Message envelopes. Times are numbers; the server time stamp plays no part here. */
module Envelopes {
  import opened ByteStrings
  import opened Wrappers

  const RECEIPT := 5

  datatype Envelope = Envelope(origin: nat, sourceId: Bytes, sourceDeviceId: int, kind: int, content: Option<Bytes>,
                               timestamp: int, destinationId: Bytes, destinationDeviceId: int, urgent: bool,
                               guid: Bytes)

  /** What an endpoint answers a delivered envelope with. */
  function ReceiptFor(e: Envelope, endpoint: nat, guid: Bytes): Envelope {
    Envelope(endpoint, e.destinationId, e.destinationDeviceId, RECEIPT, None, e.timestamp, e.sourceId, e.sourceDeviceId,
             false, guid)
  }
}

/** An endpoint: the client's WebSocket, with the requests it has not answered yet and the
    queue of envelopes that are handed to it one at a time. Events arrive in any order; what
    is scheduled for later is a bag from which any element may run next. */
module Endpoints {
  import opened ByteStrings
  import opened Wrappers
  import opened Envelopes
  import opened RandomDraws

  type Context = Bytes

  /** The context of a request that wants no response. */
  const NO_REPLY: Context := [1]

  datatype DeliveryState = Ready | AwaitResponse

  /** What is scheduled to run on the endpoint. A continuation that has been set going is the
      pending call of the function it names. */
  datatype CallOut = Deliver(envelopes: seq<Envelope>) | Delivered(envelope: Envelope, code: int) | Other(name: string)

  /** What has been sent to the client. */
  datatype Chunk =
    | PutMessage(context: Context, envelope: Envelope)
    | PutQueueEmpty(context: Context)
    | PutProvisioning(context: Context, message: Bytes)
    | Closing

  /** What has been scheduled on other objects: delivery at an endpoint, or storage. */
  datatype Posted = ToEndpoint(endpoint: nat, envelope: Envelope) | ToMailbox(envelopes: seq<Envelope>)

  /** Once the WebSocket is closing, whoever closed it, sending is an error. */
  datatype EndpointState = EndpointState(queue: Option<seq<Envelope>>, state: DeliveryState,
                                         outgoing: map<Context, Envelope>, provisioningDone: bool, closing: bool,
                                         callouts: seq<CallOut>, wire: seq<Chunk>, posted: seq<Posted>)

  const NEW := EndpointState(None, Ready, map[], false, false, [], [], [])

  function Queue(e: EndpointState): seq<Envelope> {
    if e.queue.Some? then e.queue.value else []
  }

  // ---------------------------------------------------------------- the handlers, as functions

  /** The continuation is stored before the request is sent; when sending fails, that is all. */
  function EnvelopeSent(e: EndpointState, envelope: Envelope, draws: seq<Context>): EndpointState
    requires Draws(draws, e.outgoing)
  {
    var context := Fresh(draws, e.outgoing);
    var stored := e.(outgoing := e.outgoing[context := envelope]);
    if e.closing then stored
    else stored.(state := AwaitResponse, wire := e.wire + [PutMessage(context, envelope)])
  }

  function EmptySent(e: EndpointState): EndpointState {
    if e.closing then e else e.(wire := e.wire + [PutQueueEmpty(NO_REPLY)])
  }

  function NextSent(e: EndpointState, draws: seq<Context>): EndpointState
    requires Draws(draws, e.outgoing)
  {
    if Queue(e) != [] then EnvelopeSent(e, Queue(e)[0], draws) else EmptySent(e)
  }

  function Queued(e: EndpointState, envelopes: seq<Envelope>): EndpointState {
    e.(queue := Some(Queue(e) + envelopes))
  }

  /** deliver: an empty batch on an empty queue is an indexing error, after the assignment. */
  function AfterDeliver(e: EndpointState, envelopes: seq<Envelope>, draws: seq<Context>): EndpointState
    requires Draws(draws, e.outgoing)
  {
    if e.state == Ready && Queue(e) + envelopes != [] then NextSent(Queued(e, envelopes), draws)
    else Queued(e, envelopes)
  }

  function ReceiptPosted(e: EndpointState, endpoint: nat, envelope: Envelope, alive: bool, guid: Bytes): EndpointState {
    if envelope.kind == RECEIPT then
      e
    else
      var receipt := ReceiptFor(envelope, endpoint, guid);
      e.(posted := e.posted + [if alive then ToEndpoint(envelope.origin, receipt) else ToMailbox([receipt])])
  }

  /** The head of the queue is done with, and its receipt on the way. */
  function Advanced(e: EndpointState, endpoint: nat, envelope: Envelope, alive: bool, guid: Bytes): EndpointState
    requires Queue(e) != []
  {
    ReceiptPosted(e.(queue := Some(Queue(e)[1..]), state := Ready), endpoint, envelope, alive, guid)
  }

  /** delivered: with an empty queue, the range is an error before anything is changed. */
  function AfterDelivered(e: EndpointState, endpoint: nat, envelope: Envelope, code: int, alive: bool, guid: Bytes,
                          draws: seq<Context>): EndpointState
    requires Draws(draws, e.outgoing)
  {
    if code != 200 || Queue(e) == [] then e else NextSent(Advanced(e, endpoint, envelope, alive, guid), draws)
  }

  /** The closing message is sent once, whoever begins. */
  function CloseSent(e: EndpointState): EndpointState {
    if e.closing then e else e.(closing := true, wire := e.wire + [Closing])
  }

  /** A response of the client: its continuation, if there is one, is set going. */
  function AfterResponse(e: EndpointState, context: Context, code: int): EndpointState {
    if e.provisioningDone then
      CloseSent(e)
    else if context in e.outgoing then
      e.(outgoing := e.outgoing - {context}, callouts := e.callouts + [Delivered(e.outgoing[context], code)])
    else
      e
  }

  function AfterProvisioning(e: EndpointState, message: Bytes): EndpointState {
    if e.closing then e
    else e.(wire := e.wire + [PutProvisioning(NO_REPLY, message)], provisioningDone := true)
  }

  /** The envelopes of the pending deliver calls, in the order of the list. */
  function Undelivered(callouts: seq<CallOut>): seq<Envelope> {
    if callouts == [] then []
    else
      var last := callouts[|callouts| - 1];
      Undelivered(callouts[..|callouts| - 1]) + (if last.Deliver? then last.envelopes else [])
  }

  /** Everything close() hands over for storage. */
  function Handed(e: EndpointState): seq<Envelope> {
    Queue(e) + Undelivered(e.callouts)
  }

  function AfterClose(e: EndpointState): EndpointState {
    if Handed(e) == [] then e else e.(posted := e.posted + [ToMailbox(Handed(e))])
  }

  // ---------------------------------------------------------------- the object

  class Endpoint {
    const id: nat
    var queue: Option<seq<Envelope>>
    var state: DeliveryState
    var outgoing: map<Context, Envelope>
    var provisioningDone: bool
    var closing: bool
    var callouts: seq<CallOut>
    var wire: seq<Chunk>
    var posted: seq<Posted>

    ghost function Value(): EndpointState
      reads this
    {
      EndpointState(queue, state, outgoing, provisioningDone, closing, callouts, wire, posted)
    }

    constructor (id: nat)
      ensures this.id == id && Value() == NEW
    {
      this.id := id;
      queue := None;
      state := Ready;
      outgoing := map[];
      provisioningDone := false;
      closing := false;
      callouts := [];
      wire := [];
      posted := [];
    }

    /** False when the WebSocket is closing: an error. */
    method SendChunk(chunk: Chunk) returns (ok: bool)
      modifies this
      ensures Value() == if old(closing) then old(Value()) else old(Value()).(wire := old(wire) + [chunk])
      ensures ok <==> !old(closing)
    {
      ok := !closing;
      if ok {
        wire := wire + [chunk];
      }
    }

    method SendClose()
      modifies this
      ensures Value() == CloseSent(old(Value()))
    {
      if !closing {
        closing := true;
        wire := wire + [Closing];
      }
    }

    /** False when it ends in an error. */
    method SendEnvelope(envelope: Envelope, draws: seq<Context>) returns (ok: bool)
      requires Draws(draws, outgoing)
      modifies this
      ensures Value() == EnvelopeSent(old(Value()), envelope, draws)
      ensures ok <==> !old(closing)
    {
      var context := DrawFresh(draws, outgoing);
      outgoing := outgoing[context := envelope];
      ok := SendChunk(PutMessage(context, envelope));
      if !ok {
        return;
      }
      state := AwaitResponse;
    }

    method EmptyQueue() returns (ok: bool)
      modifies this
      ensures Value() == EmptySent(old(Value()))
      ensures ok <==> !old(closing)
    {
      ok := SendChunk(PutQueueEmpty(NO_REPLY));
    }

    /** False when the handler ends in an error. */
    method DeliverEnvelopes(envelopes: seq<Envelope>, draws: seq<Context>) returns (ok: bool)
      requires Draws(draws, outgoing)
      modifies this
      ensures Value() == AfterDeliver(old(Value()), envelopes, draws)
      ensures ok <==> old(state) == AwaitResponse || (Queue(Value()) != [] && !old(closing))
    {
      if queue.None? {
        assert [] + envelopes == envelopes;
        queue := Some(envelopes);
      } else {
        queue := Some(queue.value + envelopes);
      }
      ok := true;
      if state == Ready {
        if |queue.value| == 0 {
          return false;
        }
        ok := SendEnvelope(queue.value[0], draws);
      }
    }

    /** To the endpoint the envelope came from, or, when that is gone, to storage. */
    method PostReceipt(envelope: Envelope, alive: bool, guid: Bytes)
      modifies this
      ensures Value() == ReceiptPosted(old(Value()), id, envelope, alive, guid)
    {
      if envelope.kind != RECEIPT {
        var receipt := ReceiptFor(envelope, id, guid);
        if alive {
          posted := posted + [ToEndpoint(envelope.origin, receipt)];
        } else {
          posted := posted + [ToMailbox([receipt])];
        }
      }
    }

    /** False when the handler ends in an error. */
    method EnvelopeDelivered(envelope: Envelope, code: int, alive: bool, guid: Bytes, draws: seq<Context>)
      returns (ok: bool)
      requires Draws(draws, outgoing)
      modifies this
      ensures Value() == AfterDelivered(old(Value()), id, envelope, code, alive, guid, draws)
      ensures ok <==> code != 200 || (Queue(old(Value())) != [] && !old(closing))
    {
      ok := true;
      if code == 200 {
        if queue.None? || |queue.value| == 0 {
          return false;
        }
        queue := Some(queue.value[1..]);
        state := Ready;
        PostReceipt(envelope, alive, guid);
        if |queue.value| != 0 {
          ok := SendEnvelope(queue.value[0], draws);
        } else {
          ok := EmptyQueue();
        }
      }
    }

    method ReceiveResponse(context: Context, code: int)
      modifies this
      ensures Value() == AfterResponse(old(Value()), context, code)
    {
      if provisioningDone {
        SendClose();
        return;
      }
      var handle := if context in outgoing then Some(outgoing[context]) else None;
      outgoing := outgoing - {context};
      if handle.Some? {
        callouts := callouts + [Delivered(handle.value, code)];
      }
    }

    /** False when it ends in an error. */
    method ProvisioningMessage(message: Bytes) returns (ok: bool)
      modifies this
      ensures Value() == AfterProvisioning(old(Value()), message)
      ensures ok <==> !old(closing)
    {
      ok := SendChunk(PutProvisioning(NO_REPLY, message));
      if !ok {
        return;
      }
      provisioningDone := true;
    }

    /** The client begins to close. */
    method ReceiveCloseFrame()
      modifies this
      ensures Value() == CloseSent(old(Value()))
    {
      SendClose();
    }

    method Close()
      modifies this
      ensures Value() == AfterClose(old(Value()))
    {
      var envelopes := if queue.Some? then queue.value else [];
      var i := 0;
      while i < |callouts|
        invariant 0 <= i <= |callouts|
        invariant envelopes == Queue(old(Value())) + Undelivered(callouts[..i])
        invariant Value() == old(Value())
      {
        assert callouts[..i + 1][..i] == callouts[..i];
        if callouts[i].Deliver? {
          envelopes := envelopes + callouts[i].envelopes;
        }
        i := i + 1;
      }
      assert callouts[..i] == callouts;
      if |envelopes| != 0 {
        posted := posted + [ToMailbox(envelopes)];
      }
    }
  }
}
