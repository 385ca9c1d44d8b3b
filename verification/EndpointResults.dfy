/** What holds in every state an endpoint can reach, and runs that show where it ends. */
module EndpointResults {
  import opened ByteStrings
  import opened Wrappers
  import opened Envelopes
  import opened Endpoints
  import opened EndpointRuns
  import opened RandomDraws
  import opened Proto
  import opened WebSocketCodec

  ghost predicate Reached(e: EndpointState, h: History, id: nat) {
    exists events :: Run(NEW, id, events) && End(NEW, NOTHING, id, events) == (e, h)
  }

  /** In every state a run can reach, whatever the order of events, and whoever closes when. */
  lemma EveryRunKeeps(e: EndpointState, h: History, id: nat)
    requires Reached(e, h, id)
    ensures Always(e, h, id)
  {
    var events :| Run(NEW, id, events) && End(NEW, NOTHING, id, events) == (e, h);
    assert Live(map[]) == {};
    assert Always(NEW, NOTHING, id);
    RunKeeps(NEW, NOTHING, id, events);
  }

  /** Queue, state, requests and what the client knows agree exactly as long as no delivery had
      to send while the WebSocket was closing. */
  lemma InvariantUntilFailure(e: EndpointState, h: History, id: nat)
    requires Reached(e, h, id)
    ensures Invariant(e, h) <==> !h.failed
    ensures h.failed ==> e.closing
  {
    EveryRunKeeps(e, h, id);
  }

  /** Acknowledged envelopes, then the queue, are the accepted ones in order, unless an envelope
      was acknowledged out of turn; and that takes an answer to a request that was never sent. */
  lemma InOrderExactly(e: EndpointState, h: History, id: nat)
    requires Reached(e, h, id)
    ensures InOrder(e, h) <==> !h.outOfTurn
    ensures h.outOfTurn ==> h.guessed
    ensures h.guessed ==> h.failed
  {
    EveryRunKeeps(e, h, id);
  }

  /** The handler indexes a queue that is empty. */
  predicate Faults(e: EndpointState, call: CallOut) {
    match call
    case Deliver(envelopes) => e.state == Ready && Queue(e) + envelopes == []
    case Delivered(_, code) => code == 200 && Queue(e) == []
    case Other(_) => false
  }

  lemma NoAnswerWaiting(e: EndpointState, index: nat)
    requires Answers(e.callouts) == [] && index < |e.callouts|
    ensures !e.callouts[index].Delivered?
  {
    var before, after := TakenAnswer(e.callouts, index);
    assert e.callouts[index].Delivered? ==> |Answers(e.callouts)| == |before| + 1 + |after|;
  }

  /** A handler indexes an empty queue in two cases: an empty delivery to an endpoint with
      nothing queued, and, once a request that was never sent has been answered, an
      acknowledgement with nothing queued. */
  lemma OnlyEmptyDeliveryFaults(e: EndpointState, h: History, id: nat, index: nat)
    requires Reached(e, h, id) && index < |e.callouts|
    ensures var call := e.callouts[index];
      Faults(e, call) <==>
      Queue(e) == [] && (|| (e.state == Ready && call == Deliver([]))
                         || (h.guessed && call.Delivered? && call.code == 200))
  {
    EveryRunKeeps(e, h, id);
    match e.callouts[index]
    case Deliver(_) =>
    case Delivered(_, _) =>
      if h.guessed {
      } else if h.failed {
        NoAnswerWaiting(e, index);
      } else {
        HeadAnswered(e, h, index);
      }
    case Other(_) =>
  }

  /** The head of the queue was sent, and its answer is expected or waiting to be looked at. */
  predicate Waits(e: EndpointState) {
    && e.state == AwaitResponse && Queue(e) != []
    && (|| (Single(e.outgoing, Queue(e)[0]) && Answers(e.callouts) == [])
        || (e.outgoing == map[] && Answers(e.callouts) == [Queue(e)[0]]))
  }

  /** With envelopes queued the endpoint waits for an answer, exactly unless a delivery was
      answered with a code other than 200, or failed to send. */
  lemma StalledExactly(e: EndpointState, h: History, id: nat)
    requires Reached(e, h, id) && Queue(e) != []
    ensures Waits(e) <==> !h.refused && !h.failed
  {
    EveryRunKeeps(e, h, id);
  }

  lemma ClosingStep(e: EndpointState, id: nat, ev: Event)
    requires e.closing && Possible(e, ev)
    ensures Step(e, id, ev).closing && Step(e, id, ev).wire == e.wire
  {
    if ev.Fire? {
      var taken, call := Taken(e, ev.index), e.callouts[ev.index];
      assert Prepared(taken, id, call, ev.alive, ev.guid).wire == e.wire;
    }
  }

  lemma RefusedFire(e: EndpointState, h: History, id: nat, ev: Event)
    requires Invariant(e, h) && h.refused && ev.Fire? && Possible(e, ev)
    ensures Step(e, id, ev).wire == e.wire
    ensures Noted(h, e, id, ev).refused
  {
    var taken, call := Taken(e, ev.index), e.callouts[ev.index];
    if call.Delivered? {
      HeadAnswered(e, h, ev.index);
    }
    assert !Sends(taken, call);
  }

  lemma CallFlagsStay(e: EndpointState, h: History, call: CallOut, alive: bool, guid: Bytes)
    ensures h.refused ==> NotedCall(h, e, call, alive, guid).refused
    ensures h.failed ==> NotedCall(h, e, call, alive, guid).failed
  {}

  lemma FireFlagsStay(e: EndpointState, h: History, id: nat, call: CallOut, alive: bool, guid: Bytes, draws: seq<Context>)
    requires Draws(draws, e.outgoing)
    ensures h.refused ==> NotedFire(h, e, id, call, alive, guid, draws).refused
    ensures h.failed ==> NotedFire(h, e, id, call, alive, guid, draws).failed
  {
    CallFlagsStay(e, h, call, alive, guid);
  }

  lemma FlagsStay(e: EndpointState, h: History, id: nat, ev: Event)
    requires Possible(e, ev)
    ensures h.refused ==> Noted(h, e, id, ev).refused
    ensures h.failed ==> Noted(h, e, id, ev).failed
  {
    if ev.Fire? {
      FireFlagsStay(Taken(e, ev.index), h, id, e.callouts[ev.index], ev.alive, ev.guid, ev.draws);
    }
  }

  lemma OthersSendNoEnvelope(e: EndpointState, id: nat, ev: Event)
    requires Possible(e, ev) && !ev.Fire?
    ensures Sent(Step(e, id, ev).wire) == Sent(e.wire)
  {
    AddedChunk(e.wire, Closing);
    if ev.Provision? {
      AddedChunk(e.wire, PutProvisioning(NO_REPLY, ev.message));
    }
  }

  lemma StallStep(e: EndpointState, h: History, id: nat, ev: Event)
    requires Always(e, h, id) && (h.refused || h.failed) && Possible(e, ev)
    ensures Sent(Step(e, id, ev).wire) == Sent(e.wire)
    ensures Noted(h, e, id, ev).refused || Noted(h, e, id, ev).failed
  {
    FlagsStay(e, h, id, ev);
    if e.closing {
      ClosingStep(e, id, ev);
    } else if ev.Fire? {
      RefusedFire(e, h, id, ev);
    } else {
      OthersSendNoEnvelope(e, id, ev);
    }
  }

  /** After that it sends no envelope again, whatever happens. */
  lemma {:induction false} StalledForever(e: EndpointState, h: History, id: nat, events: seq<Event>)
    requires Always(e, h, id) && (h.refused || h.failed) && Run(e, id, events)
    ensures Sent(End(e, h, id, events).0.wire) == Sent(e.wire)
    decreases |events|
  {
    if events != [] {
      StallStep(e, h, id, events[0]);
      StepKeeps(e, h, id, events[0]);
      StalledForever(Step(e, id, events[0]), Noted(h, e, id, events[0]), id, events[1..]);
    }
  }

  /** Once closing, nothing at all is sent. */
  lemma {:induction false} NothingAfterClosing(e: EndpointState, h: History, id: nat, events: seq<Event>)
    requires e.closing && Run(e, id, events)
    ensures End(e, h, id, events).0.closing && End(e, h, id, events).0.wire == e.wire
    decreases |events|
  {
    if events != [] {
      ClosingStep(e, id, events[0]);
      NothingAfterClosing(Step(e, id, events[0]), Noted(h, e, id, events[0]), id, events[1..]);
    }
  }

  /** Closing hands over what was accepted but for as many envelopes as were acknowledged, and
      what was still to be delivered; that is all that was offered and not acknowledged, each
      envelope once, as long as nothing was acknowledged out of turn. */
  lemma CloseConserves(e: EndpointState, h: History, id: nat)
    requires Reached(e, h, id)
    ensures |h.acknowledged| <= |h.accepted|
    ensures Handed(e) == h.accepted[|h.acknowledged|..] + Undelivered(e.callouts)
    ensures |h.offered| == |h.acknowledged| + |Handed(e)|
    ensures !h.outOfTurn ==> multiset(h.offered) == multiset(h.acknowledged) + multiset(Handed(e))
    ensures AfterClose(e).posted == e.posted + if Handed(e) == [] then [] else [ToMailbox(Handed(e))]
  {
    EveryRunKeeps(e, h, id);
    SameSize(h.offered, h.accepted, Undelivered(e.callouts));
    if !h.outOfTurn {
      Regrouped(h.acknowledged, Queue(e), Undelivered(e.callouts));
    }
  }

  lemma SameSize(a: seq<Envelope>, b: seq<Envelope>, c: seq<Envelope>)
    requires multiset(a) == multiset(b) + multiset(c)
    ensures |a| == |b| + |c|
  {
    assert |multiset(a)| == |multiset(b)| + |multiset(c)|;
  }

  lemma Regrouped(a: seq<Envelope>, b: seq<Envelope>, c: seq<Envelope>)
    ensures multiset(a + b) + multiset(c) == multiset(a) + multiset(b + c)
  {}

  /** A continuation that was stored for a context has either been answered on that context, once,
      or is live; and as long as nothing failed, at most one is live, and its request was sent. */
  lemma EachAnsweredOnce(e: EndpointState, h: History, id: nat, item: (Context, Envelope))
    requires Reached(e, h, id)
    ensures h.answered[item] + (if item.0 in e.outgoing && e.outgoing[item.0] == item.1 then 1 else 0) ==
            Requests(e.wire)[item] + h.unsent[item]
    ensures !h.failed ==> h.unsent == multiset{} && forall c, d :: c in e.outgoing && d in e.outgoing ==> c == d
  {
    EveryRunKeeps(e, h, id);
    assert item in Live(e.outgoing) <==> item.0 in e.outgoing && e.outgoing[item.0] == item.1;
    assert multiset(Live(e.outgoing))[item] == if item in Live(e.outgoing) then 1 else 0;
    assert (Requests(e.wire) + h.unsent)[item] == (multiset(Live(e.outgoing)) + h.answered)[item];
  }

  // ---------------------------------------------------------------- provisioning

  lemma ProvisionedStays(e: EndpointState, id: nat, ev: Event)
    requires Possible(e, ev) && e.provisioningDone
    ensures Step(e, id, ev).provisioningDone
  {
    if ev.Fire? {
      var taken, call := Taken(e, ev.index), e.callouts[ev.index];
      assert Prepared(taken, id, call, ev.alive, ev.guid).provisioningDone;
    }
  }

  /** A provisioning message that is sent is the last thing an endpoint does for its client:
      whatever happens in between, the next response closes the WebSocket, and sets no
      continuation going. */
  lemma {:induction false} ProvisionedOnce(e: EndpointState, h: History, id: nat, events: seq<Event>,
                                           context: Context, code: int)
    requires e.provisioningDone && Run(e, id, events)
    ensures var e' := End(e, h, id, events).0;
      var last := Step(e', id, Answer(context, code));
      && last.closing && last.callouts == e'.callouts && last.outgoing == e'.outgoing
      && last.wire == if e'.closing then e'.wire else e'.wire + [Closing]
    decreases |events|
  {
    if events != [] {
      ProvisionedStays(e, id, events[0]);
      ProvisionedOnce(Step(e, id, events[0]), Noted(h, e, id, events[0]), id, events[1..], context, code);
    }
  }

  /** The endpoint is done with provisioning exactly if a provisioning message was sent. */
  predicate Provisioned(wire: seq<Chunk>) {
    exists i :: 0 <= i < |wire| && wire[i].PutProvisioning?
  }

  /** What wants no response says so. */
  predicate NoReplies(wire: seq<Chunk>) {
    forall i :: 0 <= i < |wire| ==>
      && (wire[i].PutQueueEmpty? ==> wire[i].context == NO_REPLY)
      && (wire[i].PutProvisioning? ==> wire[i].context == NO_REPLY)
  }

  predicate Announced(e: EndpointState) {
    (e.provisioningDone <==> Provisioned(e.wire)) && NoReplies(e.wire)
  }

  lemma AnnouncedMore(e: EndpointState, e': EndpointState, chunk: Chunk)
    requires Announced(e) && e'.wire == e.wire + [chunk]
    requires (chunk.PutQueueEmpty? || chunk.PutProvisioning?) ==> chunk.context == NO_REPLY
    requires e'.provisioningDone == (e.provisioningDone || chunk.PutProvisioning?)
    ensures Announced(e')
  {
    if Provisioned(e.wire) {
      var i :| 0 <= i < |e.wire| && e.wire[i].PutProvisioning?;
      assert e'.wire[i].PutProvisioning?;
    }
    if chunk.PutProvisioning? {
      assert e'.wire[|e.wire|].PutProvisioning?;
    }
  }

  /** Firing a call sends at most an envelope, or that the queue is empty. */
  lemma FiredAnnounces(e: EndpointState, id: nat, call: CallOut, alive: bool, guid: Bytes, draws: seq<Context>)
    requires Announced(e) && Draws(draws, e.outgoing)
    ensures Announced(Fired(e, id, call, alive, guid, draws))
  {
    var p := Prepared(e, id, call, alive, guid);
    assert p.wire == e.wire && p.provisioningDone == e.provisioningDone && p.closing == e.closing && p.outgoing == e.outgoing;
    if Sends(e, call) && !e.closing {
      if Queue(p) != [] {
        AnnouncedMore(e, NextSent(p, draws), PutMessage(Fresh(draws, p.outgoing), Queue(p)[0]));
      } else {
        AnnouncedMore(e, NextSent(p, draws), PutQueueEmpty(NO_REPLY));
      }
    }
  }

  lemma AnnouncedStep(e: EndpointState, id: nat, ev: Event)
    requires Announced(e) && Possible(e, ev)
    ensures Announced(Step(e, id, ev))
  {
    match ev
    case Offer(_) =>
    case Plan(_) =>
    case Fire(_, _, _, _) => FiredAnnounces(Taken(e, ev.index), id, e.callouts[ev.index], ev.alive, ev.guid, ev.draws);
    case Answer(_, _) =>
      if e.provisioningDone && !e.closing { AnnouncedMore(e, Step(e, id, ev), Closing); }
    case Provision(message) =>
      if !e.closing { AnnouncedMore(e, Step(e, id, ev), PutProvisioning(NO_REPLY, message)); }
    case CloseFrame =>
      if !e.closing { AnnouncedMore(e, Step(e, id, ev), Closing); }
  }

  lemma {:induction false} RunAnnounces(e: EndpointState, h: History, id: nat, events: seq<Event>)
    requires Announced(e) && Run(e, id, events)
    ensures Announced(End(e, h, id, events).0)
    decreases |events|
  {
    if events != [] {
      AnnouncedStep(e, id, events[0]);
      RunAnnounces(Step(e, id, events[0]), Noted(h, e, id, events[0]), id, events[1..]);
    }
  }

  lemma ProvisionedExactly(e: EndpointState, h: History, id: nat)
    requires Reached(e, h, id)
    ensures e.provisioningDone <==> Provisioned(e.wire)
    ensures NoReplies(e.wire)
  {
    var events :| Run(NEW, id, events) && End(NEW, NOTHING, id, events) == (e, h);
    assert Announced(NEW);
    RunAnnounces(NEW, NOTHING, id, events);
  }

  // ---------------------------------------------------------------- contexts on the wire

  /** A client that answers with the context it read is understood to answer that request;
      the context of requests that want no response is told from every eight-byte context but one. */
  lemma ContextsOnTheWire(context: Context, other: Context, rest: Bytes)
    requires |context| == 8 && |other| == 8
    ensures FlatContext(AsnDigits(context) + rest) == Got(other, rest) <==> context == other
    ensures FlatContext(AsnDigits(NO_REPLY) + rest) == Got(other, rest) <==> other == [0, 0, 0, 0, 0, 0, 0, 1]
  {
    ContextRoundTrip(context, rest);
    AsnDigitsRoundTrip(NO_REPLY, rest);
    assert BigEndian(NO_REPLY) == 1;
    assert Unsigned(1) == [1];
    assert Extend([1], 8) == [0, 0, 0, 0, 0, 0, 0, 1];
  }

  // ---------------------------------------------------------------- runs that show it

  lemma OneStep(e: EndpointState, h: History, id: nat, ev: Event, rest: seq<Event>)
    requires Possible(e, ev) && Run(Step(e, id, ev), id, rest)
    ensures Run(e, id, [ev] + rest)
    ensures End(e, h, id, [ev] + rest) == End(Step(e, id, ev), Noted(h, e, id, ev), id, rest)
  {
    assert ([ev] + rest)[1..] == rest;
  }

  /** The client closes while a delivery is pending: the envelope is queued, the endpoint stays
      ready, and a continuation is live for a request that was never sent. */
  lemma FailureReached(id: nat, envelope: Envelope, context: Context, guid: Bytes) returns (events: seq<Event>)
    ensures Run(NEW, id, events)
    ensures var (e, h) := End(NEW, NOTHING, id, events);
      && h.failed && !h.guessed && e.state == Ready && Queue(e) == [envelope]
      && e.outgoing == map[context := envelope] && e.wire == [Closing]
  {
    var fire := Fire(0, true, guid, [context]);
    events := [Offer([envelope]), CloseFrame, fire];
    var e1, h1 := Step(NEW, id, Offer([envelope])), Noted(NOTHING, NEW, id, Offer([envelope]));
    var e2, h2 := Step(e1, id, CloseFrame), Noted(h1, e1, id, CloseFrame);
    OneStep(e2, h2, id, fire, []);
    OneStep(e1, h1, id, CloseFrame, [fire]);
    OneStep(NEW, NOTHING, id, Offer([envelope]), [CloseFrame, fire]);
    assert events == [Offer([envelope])] + ([CloseFrame] + ([fire] + []));
  }

  lemma AnsweredRun(e: EndpointState, h: History, id: nat, envelope: Envelope, context: Context, guid: Bytes, code: int)
      returns (events: seq<Event>)
    requires code != 200 && !e.provisioningDone && e.outgoing == map[context := envelope] && e.callouts == []
    ensures Run(e, id, events)
    ensures var (e', h') := End(e, h, id, events);
      h'.refused && h'.failed == h.failed && Queue(e') == Queue(e) && e'.outgoing == map[] && e'.callouts == []
  {
    var fire, answer := Fire(0, true, guid, [context]), Answer(context, code);
    var e1, h1 := Step(e, id, answer), Noted(h, e, id, answer);
    assert e1.outgoing == map[] && e1.callouts == [Delivered(envelope, code)];
    OneStep(e1, h1, id, fire, []);
    OneStep(e, h, id, answer, [fire] + []);
    events := [answer] + ([fire] + []);
  }

  /** A delivery is answered with another code: the envelope stays queued and nothing is expected. */
  lemma RefusalReached(id: nat, envelope: Envelope, context: Context, guid: Bytes, code: int) returns (events: seq<Event>)
    requires code != 200
    ensures Run(NEW, id, events)
    ensures var (e, h) := End(NEW, NOTHING, id, events);
      h.refused && !h.failed && Queue(e) == [envelope] && e.outgoing == map[] && e.callouts == []
  {
    var fire, offer := Fire(0, true, guid, [context]), Offer([envelope]);
    var e1, h1 := Step(NEW, id, offer), Noted(NOTHING, NEW, id, offer);
    var e2, h2 := Step(e1, id, fire), Noted(h1, e1, id, fire);
    assert e2.outgoing == map[context := envelope] && e2.callouts == [];
    var rest := AnsweredRun(e2, h2, id, envelope, context, guid, code);
    OneStep(e1, h1, id, fire, rest);
    OneStep(NEW, NOTHING, id, offer, [fire] + rest);
    events := [offer] + ([fire] + rest);
  }

  lemma {:induction false} RunOn(e: EndpointState, h: History, id: nat, a: seq<Event>, b: seq<Event>)
    requires Run(e, id, a) && Run(End(e, h, id, a).0, id, b)
    ensures Run(e, id, a + b)
    ensures End(e, h, id, a + b) == End(End(e, h, id, a).0, End(e, h, id, a).1, id, b)
    decreases |a|
  {
    if a == [] {
      assert a + b == b;
    } else {
      assert (a + b)[1..] == a[1..] + b;
      RunOn(Step(e, id, a[0]), Noted(h, e, id, a[0]), id, a[1..], b);
    }
  }

  /** A delivery on a closing endpoint that is ready. */
  lemma DeliveryFails(e: EndpointState, h: History, id: nat, envelopes: seq<Envelope>, rest: seq<CallOut>, guid: Bytes,
                      context: Context)
    requires e.closing && e.state == Ready && e.callouts == [Deliver(envelopes)] + rest
    requires Queue(e) + envelopes != [] && context !in e.outgoing
    ensures var fire, queue := Fire(0, true, guid, [context]), Queue(e) + envelopes;
      && Possible(e, fire)
      && Step(e, id, fire) == e.(queue := Some(queue), callouts := rest, outgoing := e.outgoing[context := queue[0]])
      && Noted(h, e, id, fire) ==
           h.(accepted := h.accepted + envelopes, failed := true, unsent := h.unsent + multiset{(context, queue[0])})
  {
    assert Without(e.callouts, 0) == rest;
  }

  /** An acknowledgement on a closing endpoint with more in the queue, or with nothing more. */
  lemma AcknowledgementFails(e: EndpointState, h: History, id: nat, envelope: Envelope, rest: seq<CallOut>, guid: Bytes,
                             context: Context)
    requires e.closing && e.callouts == [Delivered(envelope, 200)] + rest
    requires Queue(e) != [] && context !in e.outgoing
    ensures var fire, queue := Fire(0, true, guid, [context]), Queue(e)[1..];
      && Possible(e, fire)
      && var e', h' := Step(e, id, fire), Noted(h, e, id, fire);
      && Queue(e') == queue && e'.callouts == rest && e'.closing
      && e'.outgoing == (if queue == [] then e.outgoing else e.outgoing[context := queue[0]])
      && h'.offered == h.offered && h'.acknowledged == h.acknowledged + [envelope]
      && h'.outOfTurn == (h.outOfTurn || envelope != Queue(e)[0])
      && h'.guessed == h.guessed && e'.provisioningDone == e.provisioningDone
  {
    assert Without(e.callouts, 0) == rest;
  }

  /** An endpoint with two envelopes queued on which sending has failed twice. */
  function TwiceFailed(a: Envelope, b: Envelope, c: Context, d: Context): EndpointState {
    EndpointState(Some([a, b]), Ready, map[c := a, d := a], false, true, [], [Closing], [])
  }

  lemma TwiceFailedReached(id: nat, a: Envelope, b: Envelope, c: Context, d: Context, guid: Bytes)
    returns (events: seq<Event>)
    requires c != d
    ensures Run(NEW, id, events) && End(NEW, NOTHING, id, events).0 == TwiceFailed(a, b, c, d)
    ensures var h := End(NEW, NOTHING, id, events).1;
      h.offered == [a, b] && h.acknowledged == [] && !h.outOfTurn && h.failed
  {
    var first, second := Fire(0, true, guid, [c]), Fire(0, true, guid, [d]);
    var e1, h1 := Step(NEW, id, Offer([a])), Noted(NOTHING, NEW, id, Offer([a]));
    var e2, h2 := Step(e1, id, Offer([b])), Noted(h1, e1, id, Offer([b]));
    var e3, h3 := Step(e2, id, CloseFrame), Noted(h2, e2, id, CloseFrame);
    assert e3 == EndpointState(None, Ready, map[], false, true, [Deliver([a])] + [Deliver([b])], [Closing], []);
    DeliveryFails(e3, h3, id, [a], [Deliver([b])], guid, c);
    var e4, h4 := Step(e3, id, first), Noted(h3, e3, id, first);
    assert [Deliver([b])] == [Deliver([b])] + [];
    DeliveryFails(e4, h4, id, [b], [], guid, d);
    assert [] + [a] == [a] && [a] + [b] == [a, b];
    assert Step(e4, id, second) == TwiceFailed(a, b, c, d);
    OneStep(e4, h4, id, second, []);
    OneStep(e3, h3, id, first, [second] + []);
    OneStep(e2, h2, id, CloseFrame, [first] + ([second] + []));
    OneStep(e1, h1, id, Offer([b]), [CloseFrame] + ([first] + ([second] + [])));
    OneStep(NEW, NOTHING, id, Offer([a]), [Offer([b])] + ([CloseFrame] + ([first] + ([second] + []))));
    events := [Offer([a])] + ([Offer([b])] + ([CloseFrame] + ([first] + ([second] + []))));
  }

  /** The same endpoint with both requests answered. */
  function TwiceAnswered(a: Envelope, b: Envelope, c: Context, d: Context): EndpointState {
    TwiceFailed(a, b, c, d).(outgoing := map[], callouts := [Delivered(a, 200)] + [Delivered(a, 200)])
  }

  lemma BothAnswered(id: nat, h: History, a: Envelope, b: Envelope, c: Context, d: Context) returns (events: seq<Event>)
    requires c != d
    ensures Run(TwiceFailed(a, b, c, d), id, events)
    ensures var (e', h') := End(TwiceFailed(a, b, c, d), h, id, events);
      && e' == TwiceAnswered(a, b, c, d)
      && h'.offered == h.offered && h'.acknowledged == h.acknowledged && (h.failed ==> h'.guessed)
  {
    var e := TwiceFailed(a, b, c, d);
    var e1, h1 := Step(e, id, Answer(c, 200)), Noted(h, e, id, Answer(c, 200));
    assert e1 == e.(outgoing := map[d := a], callouts := [Delivered(a, 200)]);
    assert map[d := a] - {d} == map[];
    OneStep(e1, h1, id, Answer(d, 200), []);
    OneStep(e, h, id, Answer(c, 200), [Answer(d, 200)] + []);
    events := [Answer(c, 200)] + ([Answer(d, 200)] + []);
  }

  lemma BothAcknowledged(id: nat, h: History, a: Envelope, b: Envelope, c: Context, d: Context, guid: Bytes)
    returns (events: seq<Event>)
    requires c != d && a != b
    ensures Run(TwiceAnswered(a, b, c, d), id, events)
    ensures var (e', h') := End(TwiceAnswered(a, b, c, d), h, id, events);
      && h'.outOfTurn && h'.offered == h.offered && h'.acknowledged == (h.acknowledged + [a]) + [a] && Handed(e') == []
      && h'.guessed == h.guessed && !e'.provisioningDone && e'.outgoing == map[c := b] && e'.callouts == []
  {
    var first, second := Fire(0, true, guid, [c]), Fire(0, true, guid, [d]);
    var e := TwiceAnswered(a, b, c, d);
    AcknowledgementFails(e, h, id, a, [Delivered(a, 200)], guid, c);
    var e1, h1 := Step(e, id, first), Noted(h, e, id, first);
    assert [Delivered(a, 200)] == [Delivered(a, 200)] + [];
    AcknowledgementFails(e1, h1, id, a, [], guid, d);
    OneStep(e1, h1, id, second, []);
    OneStep(e, h, id, first, [second] + []);
    events := [first] + ([second] + []);
  }

  /** A client that answers two requests that it was never sent, both for the head of the queue,
      makes the endpoint forget the envelope behind it: nothing acknowledges it, and closing does
      not hand it over. */
  lemma OutOfTurnReached(id: nat, a: Envelope, b: Envelope, c: Context, d: Context, guid: Bytes) returns (events: seq<Event>)
    requires c != d && a != b
    ensures Run(NEW, id, events)
    ensures var (e, h) := End(NEW, NOTHING, id, events);
      && h.outOfTurn && h.offered == [a, b] && h.acknowledged == [a, a] && Handed(e) == []
      && h.guessed && !e.provisioningDone && e.outgoing == map[c := b] && e.callouts == []
  {
    var before := TwiceFailedReached(id, a, b, c, d, guid);
    var h := End(NEW, NOTHING, id, before).1;
    var answers := BothAnswered(id, h, a, b, c, d);
    RunOn(NEW, NOTHING, id, before, answers);
    var both := before + answers;
    var h' := End(NEW, NOTHING, id, both).1;
    assert End(NEW, NOTHING, id, both).0 == TwiceAnswered(a, b, c, d);
    var after := BothAcknowledged(id, h', a, b, c, d, guid);
    RunOn(NEW, NOTHING, id, both, after);
    assert (h.acknowledged + [a]) + [a] == [a, a];
    events := both + after;
  }

  /** When it then answers the request that would have been for that envelope, the handler
      indexes an empty queue. */
  lemma FaultReached(id: nat, a: Envelope, b: Envelope, c: Context, d: Context, guid: Bytes) returns (events: seq<Event>)
    requires c != d && a != b
    ensures Run(NEW, id, events)
    ensures var (e, h) := End(NEW, NOTHING, id, events);
      e.callouts == [Delivered(b, 200)] && Queue(e) == [] && Faults(e, e.callouts[0])
  {
    var before := OutOfTurnReached(id, a, b, c, d, guid);
    var (e, h) := End(NEW, NOTHING, id, before);
    OneStep(e, h, id, Answer(c, 200), []);
    RunOn(NEW, NOTHING, id, before, [Answer(c, 200)] + []);
    events := before + ([Answer(c, 200)] + []);
  }
}
