/** Every run of an endpoint: what its queue, its requests and its receipts keep, and exactly
    what is lost when it has to send while its WebSocket is closing. */
module EndpointRuns {
  import opened ByteStrings
  import opened Wrappers
  import opened Envelopes
  import opened RandomDraws
  import opened Endpoints

  /** Offer schedules a delivery, Plan anything else; Fire runs a pending call; Answer is a
      response of the client; Provision a provisioning message; CloseFrame the client's own
      closing message. */
  datatype Event =
    | Offer(envelopes: seq<Envelope>)
    | Plan(name: string)
    | Fire(index: nat, alive: bool, guid: Bytes, draws: seq<Context>)
    | Answer(context: Context, code: int)
    | Provision(message: Bytes)
    | CloseFrame

  predicate Possible(e: EndpointState, ev: Event) {
    ev.Fire? ==> ev.index < |e.callouts| && Draws(ev.draws, e.outgoing)
  }

  function Without(callouts: seq<CallOut>, index: nat): seq<CallOut>
    requires index < |callouts|
  {
    callouts[..index] + callouts[index + 1..]
  }

  function Taken(e: EndpointState, index: nat): EndpointState
    requires index < |e.callouts|
  {
    e.(callouts := Without(e.callouts, index))
  }

  /** Whether a call comes to the point where something is sent. */
  predicate Sends(e: EndpointState, call: CallOut) {
    match call
    case Deliver(envelopes) => e.state == Ready && Queue(e) + envelopes != []
    case Delivered(_, code) => code == 200 && Queue(e) != []
    case Other(_) => false
  }

  /** What a call does up to that point. */
  function Prepared(e: EndpointState, id: nat, call: CallOut, alive: bool, guid: Bytes): EndpointState {
    match call
    case Deliver(envelopes) => Queued(e, envelopes)
    case Delivered(envelope, code) =>
      if code == 200 && Queue(e) != [] then Advanced(e, id, envelope, alive, guid) else e
    case Other(_) => e
  }

  function Fired(e: EndpointState, id: nat, call: CallOut, alive: bool, guid: Bytes, draws: seq<Context>): EndpointState
    requires Draws(draws, e.outgoing)
  {
    var prepared := Prepared(e, id, call, alive, guid);
    if Sends(e, call) then NextSent(prepared, draws) else prepared
  }

  /** The handlers, as the object has them. */
  function Handled(e: EndpointState, id: nat, call: CallOut, alive: bool, guid: Bytes, draws: seq<Context>): EndpointState
    requires Draws(draws, e.outgoing)
  {
    match call
    case Deliver(envelopes) => AfterDeliver(e, envelopes, draws)
    case Delivered(envelope, code) => AfterDelivered(e, id, envelope, code, alive, guid, draws)
    case Other(_) => e
  }

  lemma FiredIsHandled(e: EndpointState, id: nat, call: CallOut, alive: bool, guid: Bytes, draws: seq<Context>)
    requires Draws(draws, e.outgoing)
    ensures Fired(e, id, call, alive, guid, draws) == Handled(e, id, call, alive, guid, draws)
  {}

  function Step(e: EndpointState, id: nat, ev: Event): EndpointState
    requires Possible(e, ev)
  {
    match ev
    case Offer(envelopes) => e.(callouts := e.callouts + [Deliver(envelopes)])
    case Plan(name) => e.(callouts := e.callouts + [Other(name)])
    case Fire(index, alive, guid, draws) => Fired(Taken(e, index), id, e.callouts[index], alive, guid, draws)
    case Answer(context, code) => AfterResponse(e, context, code)
    case Provision(message) => AfterProvisioning(e, message)
    case CloseFrame => CloseSent(e)
  }

  /** A sequence of events that can happen from e, one after another. */
  predicate Run(e: EndpointState, id: nat, events: seq<Event>)
    decreases |events|
  {
    events == [] || (Possible(e, events[0]) && Run(Step(e, id, events[0]), id, events[1..]))
  }

  // ---------------------------------------------------------------- histories

  /** When a receipt is made: whether the endpoint the envelope came from is still there, and the
      identifier drawn. */
  datatype Moment = Moment(alive: bool, guid: Bytes)

  /** What has happened so far, kept beside the state. The envelopes offered for delivery, those
      a deliver call has accepted, those delivered with code 200 and when that was; whether a delivery got
      another code, whether sending failed in a delivery, whether after that a request was
      answered (which the client was never sent), and whether an envelope was acknowledged that
      was not at the head of the queue. The continuations whose request could not be sent, and
      those that were answered, with their contexts. */
  datatype History = History(offered: seq<Envelope>, accepted: seq<Envelope>, acknowledged: seq<Envelope>,
                             moments: seq<Moment>, refused: bool, failed: bool, guessed: bool, outOfTurn: bool,
                             unsent: multiset<(Context, Envelope)>, answered: multiset<(Context, Envelope)>)

  const NOTHING := History([], [], [], [], false, false, false, false, multiset{}, multiset{})

  function NotedReceipt(h: History, envelope: Envelope, alive: bool, guid: Bytes): History {
    h.(acknowledged := h.acknowledged + [envelope], moments := h.moments + [Moment(alive, guid)])
  }

  function NotedCall(h: History, e: EndpointState, call: CallOut, alive: bool, guid: Bytes): History {
    match call
    case Deliver(envelopes) => h.(accepted := h.accepted + envelopes)
    case Delivered(envelope, code) =>
      if code != 200 then h.(refused := true)
      else if Queue(e) == [] then h
      else NotedReceipt(h, envelope, alive, guid).(outOfTurn := h.outOfTurn || envelope != Queue(e)[0])
    case Other(_) => h
  }

  function NotedSend(h: History, e: EndpointState, draws: seq<Context>): History
    requires Draws(draws, e.outgoing)
  {
    if !e.closing then h
    else if Queue(e) == [] then h.(failed := true)
    else h.(failed := true, unsent := h.unsent + multiset{(Fresh(draws, e.outgoing), Queue(e)[0])})
  }

  function NotedFire(h: History, e: EndpointState, id: nat, call: CallOut, alive: bool, guid: Bytes,
                     draws: seq<Context>): History
    requires Draws(draws, e.outgoing)
  {
    var noted := NotedCall(h, e, call, alive, guid);
    if Sends(e, call) then NotedSend(noted, Prepared(e, id, call, alive, guid), draws) else noted
  }

  function NotedAnswer(h: History, e: EndpointState, context: Context): History {
    if context in e.outgoing && !e.provisioningDone then
      h.(answered := h.answered + multiset{(context, e.outgoing[context])}, guessed := h.guessed || h.failed)
    else
      h
  }

  function Noted(h: History, e: EndpointState, id: nat, ev: Event): History
    requires Possible(e, ev)
  {
    match ev
    case Offer(envelopes) => h.(offered := h.offered + envelopes)
    case Fire(index, alive, guid, draws) => NotedFire(h, Taken(e, index), id, e.callouts[index], alive, guid, draws)
    case Answer(context, _) => NotedAnswer(h, e, context)
    case _ => h
  }

  /** Where a run leads, and its history. */
  function End(e: EndpointState, h: History, id: nat, events: seq<Event>): (EndpointState, History)
    requires Run(e, id, events)
    decreases |events|
  {
    if events == [] then (e, h) else End(Step(e, id, events[0]), Noted(h, e, id, events[0]), id, events[1..])
  }

  // ---------------------------------------------------------------- what every run keeps

  /** The envelopes sent, oldest first. */
  function Sent(wire: seq<Chunk>): seq<Envelope> {
    if wire == [] then []
    else
      var last := wire[|wire| - 1];
      Sent(wire[..|wire| - 1]) + (if last.PutMessage? then [last.envelope] else [])
  }

  /** The requests sent that want a response, each with the envelope its continuation is for. */
  function Requests(wire: seq<Chunk>): multiset<(Context, Envelope)> {
    if wire == [] then multiset{}
    else
      var last := wire[|wire| - 1];
      Requests(wire[..|wire| - 1]) + (if last.PutMessage? then multiset{(last.context, last.envelope)} else multiset{})
  }

  /** Continuations that are set going. */
  function Answers(callouts: seq<CallOut>): seq<Envelope> {
    if callouts == [] then []
    else
      var last := callouts[|callouts| - 1];
      Answers(callouts[..|callouts| - 1]) + (if last.Delivered? then [last.envelope] else [])
  }

  /** Acknowledged envelopes, then the queue: exactly the accepted ones, in order. */
  predicate InOrder(e: EndpointState, h: History) {
    h.accepted == h.acknowledged + Queue(e)
  }

  predicate ReadyWhenEmpty(e: EndpointState) {
    e.state == Ready <==> Queue(e) == []
  }

  predicate Single(outgoing: map<Context, Envelope>, envelope: Envelope) {
    outgoing != map[] && forall c, d | c in outgoing && d in outgoing :: c == d && outgoing[c] == envelope
  }

  /** Nothing is outstanding, or just the head of the queue is: its request unanswered, or
      its answer not yet looked at. */
  predicate OneOutstanding(e: EndpointState, h: History) {
    if h.refused then
      e.state == AwaitResponse && e.outgoing == map[] && Answers(e.callouts) == []
    else if e.state == Ready then
      e.outgoing == map[] && Answers(e.callouts) == []
    else
      || (Queue(e) != [] && Single(e.outgoing, Queue(e)[0]) && Answers(e.callouts) == [])
      || (Queue(e) != [] && e.outgoing == map[] && Answers(e.callouts) == [Queue(e)[0]])
  }

  /** Every accepted envelope up to the outstanding one was sent, once, in order. */
  predicate SentInOrder(e: EndpointState, h: History) {
    Sent(e.wire) == h.acknowledged + (if Queue(e) == [] then [] else [Queue(e)[0]])
  }

  predicate Swaps(receipt: Envelope, e: Envelope, id: nat, guid: Bytes) {
    && receipt.kind == RECEIPT && receipt.origin == id && receipt.guid == guid
    && receipt.sourceId == e.destinationId && receipt.sourceDeviceId == e.destinationDeviceId
    && receipt.destinationId == e.sourceId && receipt.destinationDeviceId == e.sourceDeviceId
    && receipt.timestamp == e.timestamp && receipt.content == None && !receipt.urgent
  }

  /** A receipt goes to the endpoint the envelope came from, or into storage when that is gone. */
  predicate Answering(p: Posted, e: Envelope, id: nat, m: Moment) {
    match p
    case ToEndpoint(endpoint, receipt) => m.alive && endpoint == e.origin && Swaps(receipt, e, id, m.guid)
    case ToMailbox(envelopes) => !m.alive && |envelopes| == 1 && Swaps(envelopes[0], e, id, m.guid)
  }

  /** One receipt for each acknowledged envelope that is not itself a receipt, in order. */
  predicate Receipts(acknowledged: seq<Envelope>, moments: seq<Moment>, posted: seq<Posted>, id: nat) {
    if acknowledged == [] || moments == [] then acknowledged == [] && moments == [] && posted == []
    else
      var front, last := acknowledged[..|acknowledged| - 1], acknowledged[|acknowledged| - 1];
      var before, moment := moments[..|moments| - 1], moments[|moments| - 1];
      if last.kind == RECEIPT then
        Receipts(front, before, posted, id)
      else
        && posted != [] && Answering(posted[|posted| - 1], last, id, moment)
        && Receipts(front, before, posted[..|posted| - 1], id)
  }

  /** The last thing the client was told about its messages, if anything. */
  function LastTold(wire: seq<Chunk>): Option<Chunk> {
    if wire == [] then None
    else
      var last := wire[|wire| - 1];
      if last.PutMessage? || last.PutQueueEmpty? then Some(last) else LastTold(wire[..|wire| - 1])
  }

  /** The client has last been told of the head of the queue; or that the queue is empty, if
      it ever held anything. */
  predicate ToldWell(e: EndpointState, h: History) {
    match LastTold(e.wire)
    case None => h.accepted == []
    case Some(chunk) =>
      if chunk.PutMessage? then Queue(e) != [] && chunk.envelope == Queue(e)[0]
      else Queue(e) == [] && h.accepted != []
  }

  /** What was offered is accepted or still pending. */
  predicate NothingLost(e: EndpointState, h: History) {
    multiset(h.offered) == multiset(h.accepted) + multiset(Undelivered(e.callouts))
  }

  function Live(outgoing: map<Context, Envelope>): set<(Context, Envelope)> {
    set c | c in outgoing :: (c, outgoing[c])
  }

  /** A continuation that was stored is live or answered, never both, whether or not its request
      could be sent. */
  predicate Matched(e: EndpointState, h: History) {
    Requests(e.wire) + h.unsent == multiset(Live(e.outgoing)) + h.answered
  }

  /** Whatever was acknowledged, the queue is what was accepted but for as many from the front. */
  predicate Positional(e: EndpointState, h: History) {
    |h.acknowledged| <= |h.accepted| && Queue(e) == h.accepted[|h.acknowledged|..]
  }

  /** The closing message is the last one sent. */
  predicate ClosedOnce(e: EndpointState) {
    if e.closing then e.wire != [] && e.wire[|e.wire| - 1] == Closing && Closing !in e.wire[..|e.wire| - 1]
    else Closing !in e.wire
  }

  predicate OthersKept(e: EndpointState, h: History, id: nat) {
    Receipts(h.acknowledged, h.moments, e.posted, id) && NothingLost(e, h)
  }

  predicate QueueKept(e: EndpointState, h: History) {
    InOrder(e, h) && ReadyWhenEmpty(e) && OneOutstanding(e, h)
  }

  predicate ClientKept(e: EndpointState, h: History) {
    SentInOrder(e, h) && ToldWell(e, h)
  }

  /** Everything that an endpoint keeps as long as it can send. */
  predicate Invariant(e: EndpointState, h: History) {
    QueueKept(e, h) && ClientKept(e, h)
  }

  predicate Blameless(h: History) {
    !h.failed && !h.guessed && !h.outOfTurn && h.unsent == multiset{}
  }

  /** After a failure nothing is ever told again: the queue stays where it is, or envelopes have
      been acknowledged that were never sent, or the client does not learn that nothing is left. */
  predicate Broken(e: EndpointState, h: History) {
    && e.closing && e.state == Ready && |Sent(e.wire)| <= |h.acknowledged|
    && (|| Queue(e) != []
        || |Sent(e.wire)| < |h.acknowledged|
        || (LastTold(e.wire).Some? && LastTold(e.wire).value.PutMessage?))
  }

  /** Unless a request that was never sent is answered, only such requests are live, no answer
      is waiting, and nothing is out of order. */
  predicate Unguessed(e: EndpointState, h: History) {
    !h.guessed ==> InOrder(e, h) && Answers(e.callouts) == [] && multiset(Live(e.outgoing)) == h.unsent
  }

  predicate Afterwards(e: EndpointState, h: History) {
    Broken(e, h) && Unguessed(e, h) && (InOrder(e, h) <==> !h.outOfTurn) && (h.outOfTurn ==> h.guessed)
  }

  /** Before and after a failure. */
  predicate BeforeAndAfter(e: EndpointState, h: History) {
    if h.failed then Afterwards(e, h) else Invariant(e, h) && Blameless(h)
  }

  /** What every run keeps, without exception. */
  predicate Always(e: EndpointState, h: History, id: nat) {
    Positional(e, h) && Matched(e, h) && OthersKept(e, h, id) && ClosedOnce(e) && BeforeAndAfter(e, h)
  }

  // ---------------------------------------------------------------- pending calls

  lemma {:induction false} JoinedUndelivered(a: seq<CallOut>, b: seq<CallOut>)
    ensures Undelivered(a + b) == Undelivered(a) + Undelivered(b)
  {
    if b == [] {
      assert a + b == a;
    } else {
      var n := |b| - 1;
      var front := b[..n];
      JoinedUndelivered(a, front);
      assert a + b == (a + front) + [b[n]] && (a + b)[..|a| + n] == a + front;
    }
  }

  lemma {:induction false} JoinedAnswers(a: seq<CallOut>, b: seq<CallOut>)
    ensures Answers(a + b) == Answers(a) + Answers(b)
  {
    if b == [] {
      assert a + b == a;
    } else {
      var n := |b| - 1;
      var front := b[..n];
      JoinedAnswers(a, front);
      assert a + b == (a + front) + [b[n]] && (a + b)[..|a| + n] == a + front;
    }
  }

  lemma AddedCall(callouts: seq<CallOut>, call: CallOut)
    ensures Undelivered(callouts + [call]) == Undelivered(callouts) + if call.Deliver? then call.envelopes else []
    ensures Answers(callouts + [call]) == Answers(callouts) + if call.Delivered? then [call.envelope] else []
  {
    assert (callouts + [call])[..|callouts|] == callouts;
  }

  /** What the pending calls contribute with and without the one at the index. */
  predicate Contributes(all: seq<Envelope>, others: seq<Envelope>, own: seq<Envelope>, before: seq<Envelope>,
                        after: seq<Envelope>) {
    all == before + own + after && others == before + after
  }

  lemma TakenDeliver(callouts: seq<CallOut>, index: nat) returns (before: seq<Envelope>, after: seq<Envelope>)
    requires index < |callouts|
    ensures Contributes(Undelivered(callouts), Undelivered(Without(callouts, index)),
                        if callouts[index].Deliver? then callouts[index].envelopes else [], before, after)
  {
    var start, rest := callouts[..index], callouts[index + 1..];
    before, after := Undelivered(start), Undelivered(rest);
    assert callouts == (start + [callouts[index]]) + rest;
    JoinedUndelivered(start + [callouts[index]], rest);
    AddedCall(start, callouts[index]);
    JoinedUndelivered(start, rest);
  }

  lemma TakenAnswer(callouts: seq<CallOut>, index: nat) returns (before: seq<Envelope>, after: seq<Envelope>)
    requires index < |callouts|
    ensures Contributes(Answers(callouts), Answers(Without(callouts, index)),
                        if callouts[index].Delivered? then [callouts[index].envelope] else [], before, after)
  {
    var start, rest := callouts[..index], callouts[index + 1..];
    before, after := Answers(start), Answers(rest);
    assert callouts == (start + [callouts[index]]) + rest;
    JoinedAnswers(start + [callouts[index]], rest);
    AddedCall(start, callouts[index]);
    JoinedAnswers(start, rest);
  }

  lemma AddedChunk(wire: seq<Chunk>, chunk: Chunk)
    ensures Sent(wire + [chunk]) == Sent(wire) + if chunk.PutMessage? then [chunk.envelope] else []
    ensures Requests(wire + [chunk]) ==
            Requests(wire) + if chunk.PutMessage? then multiset{(chunk.context, chunk.envelope)} else multiset{}
    ensures LastTold(wire + [chunk]) ==
            if chunk.PutMessage? || chunk.PutQueueEmpty? then Some(chunk) else LastTold(wire)
  {
    assert (wire + [chunk])[..|wire|] == wire;
  }

  lemma AddedLive(m: map<Context, Envelope>, context: Context, envelope: Envelope)
    requires context !in m
    ensures multiset(Live(m[context := envelope])) == multiset(Live(m)) + multiset{(context, envelope)}
  {
    var m' := m[context := envelope];
    forall item | item in Live(m)
      ensures item in Live(m')
    {
      assert item.0 in m';
    }
    assert context in m';
    assert Live(m') == Live(m) + {(context, envelope)};
    assert (context, envelope) !in Live(m);
  }

  lemma RemovedLive(m: map<Context, Envelope>, context: Context)
    requires context in m
    ensures multiset(Live(m)) == multiset(Live(m - {context})) + multiset{(context, m[context])}
  {
    AddedLive(m - {context}, context, m[context]);
    assert m == (m - {context})[context := m[context]];
  }

  // ---------------------------------------------------------------- sending

  /** Between two envelopes: nothing is outstanding, all that was sent is acknowledged, and the
      client does not know yet of what comes next. */
  predicate Between(e: EndpointState, h: History) {
    && e.outgoing == map[] && Answers(e.callouts) == [] && !h.refused && e.state == Ready
    && InOrder(e, h) && Sent(e.wire) == h.acknowledged
    && (Queue(e) == [] ==> h.accepted != [] && LastTold(e.wire).Some? && LastTold(e.wire).value.PutMessage?)
  }

  lemma SendKeeps(e: EndpointState, h: History, draws: seq<Context>)
    requires Draws(draws, e.outgoing) && Between(e, h) && Queue(e) != [] && !e.closing
    ensures Invariant(EnvelopeSent(e, Queue(e)[0], draws), h)
  {
    var head := Queue(e)[0];
    var context := Fresh(draws, e.outgoing);
    var e' := EnvelopeSent(e, head, draws);
    AddedChunk(e.wire, PutMessage(context, head));
    assert Single(e'.outgoing, head);
  }

  lemma EmptyKeeps(e: EndpointState, h: History)
    requires Between(e, h) && Queue(e) == [] && !e.closing
    ensures Invariant(EmptySent(e), h)
  {
    AddedChunk(e.wire, PutQueueEmpty(NO_REPLY));
  }

  lemma FirstFailure(e: EndpointState, h: History, draws: seq<Context>)
    requires Draws(draws, e.outgoing) && Between(e, h) && Blameless(h) && e.closing
    ensures Afterwards(NextSent(e, draws), NotedSend(h, e, draws))
  {
    if Queue(e) != [] {
      AddedLive(e.outgoing, Fresh(draws, e.outgoing), Queue(e)[0]);
    }
    assert Live(map[]) == {};
  }

  lemma LaterFailure(e: EndpointState, h: History, draws: seq<Context>)
    requires Draws(draws, e.outgoing) && h.failed && Afterwards(e, h)
    ensures Afterwards(NextSent(e, draws), NotedSend(h, e, draws))
  {
    if Queue(e) != [] {
      AddedLive(e.outgoing, Fresh(draws, e.outgoing), Queue(e)[0]);
    }
  }

  lemma SendStep(e: EndpointState, h: History, draws: seq<Context>)
    requires Draws(draws, e.outgoing)
    requires if h.failed then Afterwards(e, h) else Between(e, h) && Blameless(h)
    ensures BeforeAndAfter(NextSent(e, draws), NotedSend(h, e, draws))
  {
    if h.failed {
      LaterFailure(e, h, draws);
    } else if e.closing {
      FirstFailure(e, h, draws);
    } else if Queue(e) != [] {
      SendKeeps(e, h, draws);
    } else {
      EmptyKeeps(e, h);
    }
  }

  lemma Moved(requests: multiset<(Context, Envelope)>, unsent: multiset<(Context, Envelope)>,
              live: multiset<(Context, Envelope)>, answered: multiset<(Context, Envelope)>, item: multiset<(Context, Envelope)>)
    requires requests + unsent == live + answered
    ensures (requests + item) + unsent == (live + item) + answered
    ensures requests + (unsent + item) == (live + item) + answered
  {
    assert (requests + item) + unsent == (requests + unsent) + item;
    assert requests + (unsent + item) == (requests + unsent) + item;
    assert (live + item) + answered == (live + answered) + item;
  }

  lemma SendMatched(e: EndpointState, h: History, draws: seq<Context>)
    requires Draws(draws, e.outgoing) && Matched(e, h)
    ensures Matched(NextSent(e, draws), NotedSend(h, e, draws))
  {
    if Queue(e) == [] {
      AddedChunk(e.wire, PutQueueEmpty(NO_REPLY));
      assert Requests(e.wire) + multiset{} == Requests(e.wire);
    } else {
      var context := Fresh(draws, e.outgoing);
      AddedLive(e.outgoing, context, Queue(e)[0]);
      AddedChunk(e.wire, PutMessage(context, Queue(e)[0]));
      Moved(Requests(e.wire), h.unsent, multiset(Live(e.outgoing)), h.answered, multiset{(context, Queue(e)[0])});
    }
  }

  lemma SendClosed(e: EndpointState, draws: seq<Context>)
    requires Draws(draws, e.outgoing) && ClosedOnce(e)
    ensures ClosedOnce(NextSent(e, draws))
  {
  }

  lemma SendElse(e: EndpointState, h: History, id: nat, draws: seq<Context>)
    requires Draws(draws, e.outgoing) && Positional(e, h) && OthersKept(e, h, id)
    ensures Positional(NextSent(e, draws), NotedSend(h, e, draws))
    ensures OthersKept(NextSent(e, draws), NotedSend(h, e, draws), id)
  {
  }

  lemma SendAlways(e: EndpointState, h: History, id: nat, draws: seq<Context>)
    requires Draws(draws, e.outgoing) && Positional(e, h) && Matched(e, h) && OthersKept(e, h, id) && ClosedOnce(e)
    requires if h.failed then Afterwards(e, h) else Between(e, h) && Blameless(h)
    ensures Always(NextSent(e, draws), NotedSend(h, e, draws), id)
  {
    SendStep(e, h, draws);
    SendMatched(e, h, draws);
    SendClosed(e, draws);
    SendElse(e, h, id, draws);
  }

  // ---------------------------------------------------------------- up to sending

  lemma Reassociated(a: seq<Envelope>, b: seq<Envelope>, c: seq<Envelope>)
    ensures (a + b) + c == a + (b + c)
  {}

  lemma QueuedBehind(e: EndpointState, h: History, callouts: seq<CallOut>, envelopes: seq<Envelope>)
    requires Invariant(e, h) && Answers(callouts) == Answers(e.callouts) && e.state == AwaitResponse
    ensures Invariant(Queued(e.(callouts := callouts), envelopes), h.(accepted := h.accepted + envelopes))
  {
    var e', h' := Queued(e.(callouts := callouts), envelopes), h.(accepted := h.accepted + envelopes);
    assert Queue(e')[0] == Queue(e)[0];
    assert InOrder(e', h') by { Reassociated(h.acknowledged, Queue(e), envelopes); }
  }

  lemma QueuedFirst(e: EndpointState, h: History, callouts: seq<CallOut>, envelopes: seq<Envelope>)
    requires Invariant(e, h) && Answers(callouts) == Answers(e.callouts) && e.state == Ready
    ensures var e', h' := Queued(e.(callouts := callouts), envelopes), h.(accepted := h.accepted + envelopes);
      if envelopes != [] then Between(e', h') else Invariant(e', h')
  {
    var e' := Queued(e.(callouts := callouts), envelopes);
    assert Queue(e) == [] && Queue(e') == envelopes;
    assert h.acknowledged + [] == h.acknowledged;
  }

  lemma QueuedKeeps(e: EndpointState, h: History, callouts: seq<CallOut>, envelopes: seq<Envelope>)
    requires Invariant(e, h) && Answers(callouts) == Answers(e.callouts)
    ensures var e', h' := Queued(e.(callouts := callouts), envelopes), h.(accepted := h.accepted + envelopes);
      if e.state == Ready && Queue(e) + envelopes != [] then Between(e', h') else Invariant(e', h')
  {
    if e.state == AwaitResponse {
      QueuedBehind(e, h, callouts, envelopes);
    } else {
      QueuedFirst(e, h, callouts, envelopes);
      assert Queue(e) == [];
    }
  }

  /** A continuation set going is for the head of the queue, and is the only one. */
  lemma HeadAnswered(e: EndpointState, h: History, index: nat)
    requires OneOutstanding(e, h) && index < |e.callouts| && e.callouts[index].Delivered?
    ensures e.state == AwaitResponse && !h.refused && e.outgoing == map[]
    ensures Queue(e) != [] && e.callouts[index].envelope == Queue(e)[0]
    ensures Answers(e.callouts) == [Queue(e)[0]] && Answers(Without(e.callouts, index)) == []
  {
    var before, after := TakenAnswer(e.callouts, index);
    assert |Answers(e.callouts)| == |before| + 1 + |after|;
    assert before == [] && after == [];
    assert Answers(e.callouts) == [e.callouts[index].envelope];
  }

  lemma AdvancedBetween(e: EndpointState, h: History, id: nat, callouts: seq<CallOut>, alive: bool, guid: Bytes)
    requires Invariant(e, h) && Queue(e) != [] && !h.refused && e.outgoing == map[]
    requires Answers(e.callouts) == [Queue(e)[0]] && Answers(callouts) == []
    ensures Between(Advanced(e.(callouts := callouts), id, Queue(e)[0], alive, guid),
                    NotedReceipt(h, Queue(e)[0], alive, guid))
  {
    var e', h' := Advanced(e.(callouts := callouts), id, Queue(e)[0], alive, guid), NotedReceipt(h, Queue(e)[0], alive, guid);
    assert Queue(e) == [Queue(e)[0]] + Queue(e)[1..];
    assert Queue(e') == Queue(e)[1..] && e'.wire == e.wire && e'.outgoing == e.outgoing && e'.callouts == callouts;
    assert InOrder(e', h') by { Reassociated(h.acknowledged, [Queue(e)[0]], Queue(e)[1..]); }
  }

  lemma AnswerTaken(e: EndpointState, h: History, id: nat, index: nat, alive: bool, guid: Bytes)
    requires Invariant(e, h) && Blameless(h) && index < |e.callouts| && e.callouts[index].Delivered?
    ensures var taken, call := Taken(e, index), e.callouts[index];
      var e', h' := Prepared(taken, id, call, alive, guid), NotedCall(h, taken, call, alive, guid);
      Blameless(h') && if Sends(taken, call) then Between(e', h') else Invariant(e', h')
  {
    HeadAnswered(e, h, index);
    if e.callouts[index].code == 200 {
      AdvancedBetween(e, h, id, Without(e.callouts, index), alive, guid);
    }
  }

  /** What firing a call does to state and history before it sends. */
  lemma PreparedBefore(e: EndpointState, h: History, id: nat, index: nat, alive: bool, guid: Bytes)
    requires Invariant(e, h) && Blameless(h) && index < |e.callouts|
    ensures var taken, call := Taken(e, index), e.callouts[index];
      var e', h' := Prepared(taken, id, call, alive, guid), NotedCall(h, taken, call, alive, guid);
      Blameless(h') && if Sends(taken, call) then Between(e', h') else Invariant(e', h')
  {
    var callouts := Without(e.callouts, index);
    match e.callouts[index]
    case Deliver(envelopes) =>
      var before, after := TakenAnswer(e.callouts, index);
      QueuedKeeps(e, h, callouts, envelopes);
    case Delivered(_, _) =>
      AnswerTaken(e, h, id, index, alive, guid);
    case Other(_) =>
      var before, after := TakenAnswer(e.callouts, index);
      assert Answers(callouts) == Answers(e.callouts);
  }

  lemma AdvancedOrder(accepted: seq<Envelope>, acknowledged: seq<Envelope>, queue: seq<Envelope>, envelope: Envelope)
    requires |acknowledged| < |accepted| && queue == accepted[|acknowledged|..]
    ensures queue != [] && queue[1..] == accepted[|acknowledged| + 1..]
    ensures accepted == (acknowledged + [envelope]) + queue[1..] <==>
            accepted == acknowledged + queue && envelope == queue[0]
  {
    var n := |acknowledged|;
    assert queue == [queue[0]] + queue[1..];
    if accepted == (acknowledged + [envelope]) + queue[1..] {
      assert accepted[n] == envelope && accepted[..n] == acknowledged;
    }
  }

  lemma QueuedOrder(accepted: seq<Envelope>, acknowledged: seq<Envelope>, queue: seq<Envelope>, envelopes: seq<Envelope>)
    requires |acknowledged| <= |accepted| && queue == accepted[|acknowledged|..]
    ensures queue + envelopes == (accepted + envelopes)[|acknowledged|..]
    ensures accepted + envelopes == acknowledged + (queue + envelopes) <==> accepted == acknowledged + queue
  {
    assert acknowledged + (queue + envelopes) == (acknowledged + queue) + envelopes;
    if accepted + envelopes == (acknowledged + queue) + envelopes {
      assert accepted == (accepted + envelopes)[..|accepted|] == acknowledged + queue;
    }
  }

  lemma AdvancedFields(e: EndpointState, id: nat, envelope: Envelope, alive: bool, guid: Bytes)
    requires Queue(e) != []
    ensures var e' := Advanced(e, id, envelope, alive, guid);
      && Queue(e') == Queue(e)[1..] && e'.state == Ready && e'.callouts == e.callouts
      && e'.outgoing == e.outgoing && e'.wire == e.wire && e'.closing == e.closing
  {
  }

  lemma AdvancedAfter(e: EndpointState, h: History, id: nat, envelope: Envelope, alive: bool, guid: Bytes)
    requires Positional(e, h) && Broken(e, h) && Queue(e) != [] && h.guessed
    requires InOrder(e, h) <==> !h.outOfTurn
    ensures Afterwards(Advanced(e, id, envelope, alive, guid),
                       NotedReceipt(h, envelope, alive, guid).(outOfTurn := h.outOfTurn || envelope != Queue(e)[0]))
  {
    AdvancedOrder(h.accepted, h.acknowledged, Queue(e), envelope);
    AdvancedFields(e, id, envelope, alive, guid);
  }

  lemma QueuedAfter(e: EndpointState, h: History, envelopes: seq<Envelope>)
    requires Positional(e, h) && Afterwards(e, h)
    ensures Afterwards(Queued(e, envelopes), h.(accepted := h.accepted + envelopes))
  {
    QueuedOrder(h.accepted, h.acknowledged, Queue(e), envelopes);
  }

  /** Taking a call that is no answer, or one when an answer is not out of place. */
  lemma TakenAfter(e: EndpointState, h: History, index: nat)
    requires Positional(e, h) && Afterwards(e, h) && index < |e.callouts|
    ensures Positional(Taken(e, index), h) && Afterwards(Taken(e, index), h)
    ensures e.callouts[index].Delivered? ==> h.guessed
  {
    var before, after := TakenAnswer(e.callouts, index);
    assert e.callouts[index].Delivered? ==> |Answers(e.callouts)| == |before| + 1 + |after|;
  }

  lemma PreparedAfter(e: EndpointState, h: History, id: nat, index: nat, alive: bool, guid: Bytes)
    requires Positional(e, h) && h.failed && Afterwards(e, h) && index < |e.callouts|
    ensures var taken, call := Taken(e, index), e.callouts[index];
      var e', h' := Prepared(taken, id, call, alive, guid), NotedCall(h, taken, call, alive, guid);
      h'.failed && Afterwards(e', h')
  {
    TakenAfter(e, h, index);
    var taken := Taken(e, index);
    match e.callouts[index]
    case Deliver(envelopes) => QueuedAfter(taken, h, envelopes);
    case Delivered(envelope, code) =>
      if code == 200 && Queue(e) != [] {
        AdvancedAfter(taken, h, id, envelope, alive, guid);
      }
    case Other(_) =>
  }

  lemma {:induction false} ReceiptKeeps(e: EndpointState, acknowledged: seq<Envelope>, moments: seq<Moment>,
                                        id: nat, envelope: Envelope, alive: bool, guid: Bytes)
    requires Receipts(acknowledged, moments, e.posted, id)
    ensures Receipts(acknowledged + [envelope], moments + [Moment(alive, guid)],
                     ReceiptPosted(e, id, envelope, alive, guid).posted, id)
  {
    var acknowledged', moments' := acknowledged + [envelope], moments + [Moment(alive, guid)];
    assert acknowledged'[..|acknowledged|] == acknowledged && moments'[..|moments|] == moments;
    if envelope.kind != RECEIPT {
      var posted := ReceiptPosted(e, id, envelope, alive, guid).posted;
      assert posted[..|e.posted|] == e.posted;
      assert Answering(posted[|e.posted|], envelope, id, Moment(alive, guid));
    }
  }

  lemma AdvancedElse(e: EndpointState, h: History, id: nat, envelope: Envelope, alive: bool, guid: Bytes, outOfTurn: bool)
    requires Positional(e, h) && OthersKept(e, h, id) && Queue(e) != []
    ensures var e' := Advanced(e, id, envelope, alive, guid);
      var h' := NotedReceipt(h, envelope, alive, guid).(outOfTurn := outOfTurn);
      Positional(e', h') && OthersKept(e', h', id)
  {
    AdvancedOrder(h.accepted, h.acknowledged, Queue(e), envelope);
    AdvancedFields(e, id, envelope, alive, guid);
    ReceiptKeeps(e, h.acknowledged, h.moments, id, envelope, alive, guid);
  }

  lemma QueuedElse(e: EndpointState, h: History, id: nat, index: nat)
    requires Positional(e, h) && OthersKept(e, h, id) && index < |e.callouts| && e.callouts[index].Deliver?
    ensures var e' := Queued(Taken(e, index), e.callouts[index].envelopes);
      var h' := h.(accepted := h.accepted + e.callouts[index].envelopes);
      Positional(e', h') && OthersKept(e', h', id)
  {
    QueuedOrder(h.accepted, h.acknowledged, Queue(e), e.callouts[index].envelopes);
    var before, after := TakenDeliver(e.callouts, index);
  }

  lemma TakenElse(e: EndpointState, h: History, id: nat, index: nat)
    requires Positional(e, h) && OthersKept(e, h, id) && index < |e.callouts| && !e.callouts[index].Deliver?
    ensures Positional(Taken(e, index), h) && OthersKept(Taken(e, index), h, id)
  {
    var before, after := TakenDeliver(e.callouts, index);
  }

  lemma PreparedElse(e: EndpointState, h: History, id: nat, index: nat, alive: bool, guid: Bytes)
    requires Positional(e, h) && OthersKept(e, h, id) && index < |e.callouts|
    ensures var taken, call := Taken(e, index), e.callouts[index];
      var e', h' := Prepared(taken, id, call, alive, guid), NotedCall(h, taken, call, alive, guid);
      Positional(e', h') && OthersKept(e', h', id)
  {
    var taken := Taken(e, index);
    match e.callouts[index]
    case Deliver(_) => QueuedElse(e, h, id, index);
    case Delivered(envelope, code) =>
      TakenElse(e, h, id, index);
      if code == 200 && Queue(e) != [] {
        AdvancedElse(taken, h, id, envelope, alive, guid, h.outOfTurn || envelope != Queue(taken)[0]);
      }
    case Other(_) => TakenElse(e, h, id, index);
  }

  /** Up to sending, the requests and the closing message stay as they are. */
  lemma PreparedWire(e: EndpointState, h: History, id: nat, index: nat, alive: bool, guid: Bytes)
    requires index < |e.callouts|
    ensures var taken, call := Taken(e, index), e.callouts[index];
      var e', h' := Prepared(taken, id, call, alive, guid), NotedCall(h, taken, call, alive, guid);
      && e'.wire == e.wire && e'.closing == e.closing && e'.outgoing == e.outgoing
      && h'.unsent == h.unsent && h'.answered == h.answered && h'.failed == h.failed
  {
  }

  lemma PreparedKeeps(e: EndpointState, h: History, id: nat, index: nat, alive: bool, guid: Bytes)
    requires Always(e, h, id) && index < |e.callouts|
    ensures var taken, call := Taken(e, index), e.callouts[index];
      var e', h' := Prepared(taken, id, call, alive, guid), NotedCall(h, taken, call, alive, guid);
      && Positional(e', h') && Matched(e', h') && OthersKept(e', h', id) && ClosedOnce(e')
      && (if h'.failed then Afterwards(e', h')
          else Blameless(h') && if Sends(taken, call) then Between(e', h') else Invariant(e', h'))
  {
    PreparedElse(e, h, id, index, alive, guid);
    PreparedWire(e, h, id, index, alive, guid);
    if h.failed {
      PreparedAfter(e, h, id, index, alive, guid);
    } else {
      PreparedBefore(e, h, id, index, alive, guid);
    }
  }

  lemma FireInParts(h: History, e: EndpointState, id: nat, ev: Event)
    requires ev.Fire? && Possible(e, ev)
    ensures var taken, call := Taken(e, ev.index), e.callouts[ev.index];
      var p, h1 := Prepared(taken, id, call, ev.alive, ev.guid), NotedCall(h, taken, call, ev.alive, ev.guid);
      && p.outgoing == e.outgoing
      && Step(e, id, ev) == (if Sends(taken, call) then NextSent(p, ev.draws) else p)
      && Noted(h, e, id, ev) == (if Sends(taken, call) then NotedSend(h1, p, ev.draws) else h1)
  {
  }

  lemma FireKeeps(e: EndpointState, h: History, id: nat, ev: Event)
    requires Always(e, h, id) && ev.Fire? && Possible(e, ev)
    ensures Always(Step(e, id, ev), Noted(h, e, id, ev), id)
  {
    var taken, call := Taken(e, ev.index), e.callouts[ev.index];
    var p, h1 := Prepared(taken, id, call, ev.alive, ev.guid), NotedCall(h, taken, call, ev.alive, ev.guid);
    PreparedKeeps(e, h, id, ev.index, ev.alive, ev.guid);
    FireInParts(h, e, id, ev);
    assert Always(Step(e, id, ev), Noted(h, e, id, ev), id) by {
      if Sends(taken, call) {
        SendAlways(p, h1, id, ev.draws);
      } else {
        assert Always(p, h1, id);
      }
    }
  }

  // ---------------------------------------------------------------- the other events

  /** Steps that neither move the queue nor tell the client of it. */
  lemma AsideKeeps(e: EndpointState, e': EndpointState, h: History)
    requires BeforeAndAfter(e, h)
    requires e'.queue == e.queue && e'.state == e.state && e'.outgoing == e.outgoing && (e.closing ==> e'.closing)
    requires Answers(e'.callouts) == Answers(e.callouts)
    requires Sent(e'.wire) == Sent(e.wire) && LastTold(e'.wire) == LastTold(e.wire)
    ensures BeforeAndAfter(e', h)
  {
  }

  lemma OfferedAside(e: EndpointState, h: History, offered: seq<Envelope>)
    requires BeforeAndAfter(e, h)
    ensures BeforeAndAfter(e, h.(offered := offered))
  {
  }

  lemma OfferedElse(e: EndpointState, h: History, id: nat, envelopes: seq<Envelope>)
    requires Positional(e, h) && Matched(e, h) && OthersKept(e, h, id)
    ensures var e', h' := e.(callouts := e.callouts + [Deliver(envelopes)]), h.(offered := h.offered + envelopes);
      Positional(e', h') && Matched(e', h') && OthersKept(e', h', id)
  {
    AddedCall(e.callouts, Deliver(envelopes));
  }

  lemma OfferKeeps(e: EndpointState, h: History, id: nat, envelopes: seq<Envelope>)
    requires Always(e, h, id)
    ensures Always(Step(e, id, Offer(envelopes)), Noted(h, e, id, Offer(envelopes)), id)
  {
    var e' := e.(callouts := e.callouts + [Deliver(envelopes)]);
    OfferedElse(e, h, id, envelopes);
    AddedCall(e.callouts, Deliver(envelopes));
    AsideKeeps(e, e', h);
    OfferedAside(e', h, h.offered + envelopes);
  }

  lemma PlanKeeps(e: EndpointState, h: History, id: nat, name: string)
    requires Always(e, h, id)
    ensures Always(e.(callouts := e.callouts + [Other(name)]), h, id)
  {
    AddedCall(e.callouts, Other(name));
    AsideKeeps(e, e.(callouts := e.callouts + [Other(name)]), h);
  }

  lemma CloseSentKeeps(e: EndpointState, h: History, id: nat)
    requires Always(e, h, id)
    ensures Always(CloseSent(e), h, id)
  {
    AddedChunk(e.wire, Closing);
    AsideKeeps(e, CloseSent(e), h);
  }

  lemma ProvisionKeeps(e: EndpointState, h: History, id: nat, message: Bytes)
    requires Always(e, h, id)
    ensures Always(AfterProvisioning(e, message), h, id)
  {
    AddedChunk(e.wire, PutProvisioning(NO_REPLY, message));
    AsideKeeps(e, AfterProvisioning(e, message), h);
  }

  lemma AnswerMatched(e: EndpointState, h: History, context: Context, code: int)
    requires Matched(e, h) && context in e.outgoing && !e.provisioningDone
    ensures Matched(AfterResponse(e, context, code), NotedAnswer(h, e, context))
  {
    RemovedLive(e.outgoing, context);
  }

  lemma AnswerElse(e: EndpointState, h: History, id: nat, context: Context, code: int)
    requires Positional(e, h) && OthersKept(e, h, id) && ClosedOnce(e) && context in e.outgoing && !e.provisioningDone
    ensures var e', h' := AfterResponse(e, context, code), NotedAnswer(h, e, context);
      Positional(e', h') && OthersKept(e', h', id) && ClosedOnce(e')
  {
    AddedCall(e.callouts, Delivered(e.outgoing[context], code));
  }

  lemma AnswerBefore(e: EndpointState, h: History, context: Context, code: int)
    requires Invariant(e, h) && Blameless(h) && context in e.outgoing && !e.provisioningDone
    ensures Invariant(AfterResponse(e, context, code), NotedAnswer(h, e, context))
  {
    AddedCall(e.callouts, Delivered(e.outgoing[context], code));
    assert e.outgoing - {context} == map[];
  }

  lemma AnswerAfter(e: EndpointState, h: History, context: Context, code: int)
    requires h.failed && Afterwards(e, h) && context in e.outgoing && !e.provisioningDone
    ensures Afterwards(AfterResponse(e, context, code), NotedAnswer(h, e, context))
  {
  }

  lemma AnswerKeeps(e: EndpointState, h: History, id: nat, context: Context, code: int)
    requires Always(e, h, id)
    ensures Always(AfterResponse(e, context, code), NotedAnswer(h, e, context), id)
  {
    if e.provisioningDone {
      CloseSentKeeps(e, h, id);
    } else if context in e.outgoing {
      AnswerMatched(e, h, context, code);
      AnswerElse(e, h, id, context, code);
      if h.failed {
        AnswerAfter(e, h, context, code);
      } else {
        AnswerBefore(e, h, context, code);
      }
    }
  }

  lemma StepKeeps(e: EndpointState, h: History, id: nat, ev: Event)
    requires Always(e, h, id) && Possible(e, ev)
    ensures Always(Step(e, id, ev), Noted(h, e, id, ev), id)
  {
    match ev
    case Offer(envelopes) => OfferKeeps(e, h, id, envelopes);
    case Plan(name) =>
      assert Step(e, id, ev) == e.(callouts := e.callouts + [Other(name)]) && Noted(h, e, id, ev) == h;
      PlanKeeps(e, h, id, name);
    case Fire(_, _, _, _) => FireKeeps(e, h, id, ev);
    case Answer(context, code) =>
      assert Step(e, id, ev) == AfterResponse(e, context, code) && Noted(h, e, id, ev) == NotedAnswer(h, e, context);
      AnswerKeeps(e, h, id, context, code);
    case Provision(message) =>
      assert Step(e, id, ev) == AfterProvisioning(e, message) && Noted(h, e, id, ev) == h;
      ProvisionKeeps(e, h, id, message);
    case CloseFrame =>
      assert Step(e, id, ev) == CloseSent(e) && Noted(h, e, id, ev) == h;
      CloseSentKeeps(e, h, id);
  }

  lemma {:induction false} RunKeeps(e: EndpointState, h: History, id: nat, events: seq<Event>)
    requires Always(e, h, id) && Run(e, id, events)
    ensures Always(End(e, h, id, events).0, End(e, h, id, events).1, id)
    decreases |events|
  {
    if events != [] {
      StepKeeps(e, h, id, events[0]);
      RunKeeps(Step(e, id, events[0]), Noted(h, e, id, events[0]), id, events[1..]);
    }
  }
}
