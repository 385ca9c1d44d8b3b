/** Contact discovery: a conversation of a few messages in a fixed order, and then the numbers
    looked up a few at a time. */
module Discoveries {
  import opened ByteStrings
  import opened Wrappers
  import opened StringBuffers
  import opened DiscoveryRequests

  datatype State = Init | Handshake | Receive | ReceiveAck | Done

  datatype Reason = IllegalArgument | Failure | Finished | ByClient

  datatype Sent = Cdsi | ReadyMessage | Token | Results(numbers: seq<Bytes>) | Closing(reason: Reason)

  /** The numbers of the request; whether the WebSocket is closing, so that sending is an error;
      what was sent; the lists of numbers being looked up, of which the first few are finished. */
  datatype Conversation = Conversation(state: State, numbers: seq<Bytes>, closing: bool, wire: seq<Sent>,
                                       batches: seq<seq<Bytes>>, finished: nat)

  const START := Conversation(Init, [], false, [], [], 0)

  /** The word "Client", which has to make up the whole first chunk of a message. */
  const CLIENT: Bytes := [67, 108, 105, 101, 110, 116]

  predicate IsGreeting(chunks: seq<Bytes>) {
    chunks != [] && chunks[0] == CLIENT
  }

  predicate IsCut(chunks: seq<Bytes>, text: Bytes) {
    NonEmpty(chunks) && Concat(chunks) == text
  }

  lemma InTwo(a: Bytes, b: Bytes)
    ensures Concat([a]) == a && Concat([a, b]) == a + b
  {
    assert [a, b][1..] == [b] && [b][1..] == [] && Concat([b]) == b;
    assert [a][1..] == [];
  }

  /** Whether a message is a greeting depends on how it is cut into chunks, exactly if it starts
      with that word. */
  lemma GreetingByCut(text: Bytes)
    ensures (forall a: seq<Bytes>, b: seq<Bytes> :: IsCut(a, text) && IsCut(b, text) ==> (IsGreeting(a) <==> IsGreeting(b))) <==>
            !(CLIENT <= text)
  {
    if CLIENT <= text {
      var rest := text[6..];
      var a := if rest == [] then [CLIENT] else [CLIENT, rest];
      var b := [text[..1], text[1..]];
      InTwo(CLIENT, rest);
      InTwo(text[..1], text[1..]);
      assert text == CLIENT + rest == text[..1] + text[1..];
      assert IsCut(a, text) && IsGreeting(a);
      assert IsCut(b, text) && b[0] != CLIENT;
    } else {
      forall a | IsCut(a, text)
        ensures !IsGreeting(a)
      {
        assert a != [] ==> a[0] <= text;
      }
    }
  }

  /** A message is sent and the state moves on, or there is an error and neither happens. */
  function Said(c: Conversation, what: Sent, state: State): Conversation {
    if c.closing then c else c.(wire := c.wire + [what], state := state)
  }

  /** The closing message is sent once, whoever begins. */
  function Closed(c: Conversation, reason: Reason): Conversation {
    if c.closing then c else c.(closing := true, wire := c.wire + [Closing(reason)])
  }

  function AfterAttest(c: Conversation): Conversation {
    Said(c, Cdsi, Handshake)
  }

  /** When the token cannot be sent, the error is caught. */
  function AfterRequest(c: Conversation, request: Option<ClientRequest>): Conversation {
    match request
    case None => Closed(c, Failure).(state := Done)
    case Some(Ask(numbers)) =>
      if c.closing then c.(numbers := numbers, state := Done) else Said(c.(numbers := numbers), Token, ReceiveAck)
    case Some(Acknowledge) => Closed(c.(numbers := []), IllegalArgument).(state := Done)
  }

  function AfterAcknowledgement(c: Conversation, request: Option<ClientRequest>): Conversation {
    match request
    case None => Closed(c, Failure).(state := Done)
    case Some(Ask(_)) => c.(state := Done)
    case Some(Acknowledge) => c.(state := Done, batches := c.batches + [c.numbers])
  }

  /** A message counts as a greeting, or for the request in it. */
  function AfterMessage(c: Conversation, greeting: bool, request: Option<ClientRequest>): Conversation {
    match c.state
    case Init => Closed(c, IllegalArgument).(state := Done)
    case Handshake =>
      if greeting then Said(c, ReadyMessage, Receive) else Closed(c, IllegalArgument).(state := Done)
    case Receive => AfterRequest(c, request)
    case ReceiveAck => AfterAcknowledgement(c, request)
    case Done => Closed(c, IllegalArgument)
  }

  function AfterChunk(c: Conversation, chunks: seq<Bytes>): Conversation {
    AfterMessage(c, IsGreeting(chunks), FlatClientRequest(Concat(chunks)))
  }

  /** The last batch is done: the results are sent and the WebSocket closed, or there is an error. */
  function AfterLookup(c: Conversation): Conversation
    requires c.finished < |c.batches|
  {
    Closed(Said(c, Results(c.batches[c.finished]), c.state), Finished).(finished := c.finished + 1)
  }

  class Discovery {
    var state: State
    var numbers: seq<Bytes>
    var closing: bool
    var wire: seq<Sent>
    var batches: seq<seq<Bytes>>
    var finished: nat

    ghost function Value(): Conversation
      reads this
    {
      Conversation(state, numbers, closing, wire, batches, finished)
    }

    constructor ()
      ensures Value() == START
    {
      state, numbers, closing, wire, batches, finished := Init, [], false, [], [], 0;
    }

    /** False when the WebSocket is closing: an error. */
    method SendChunk(what: Sent) returns (ok: bool)
      modifies this
      ensures Value() == Said(old(Value()), what, old(state)) && (ok <==> !old(closing))
    {
      ok := !closing;
      if ok {
        wire := wire + [what];
      }
    }

    method SendClose(reason: Reason)
      modifies this
      ensures Value() == Closed(old(Value()), reason)
    {
      if !closing {
        closing := true;
        wire := wire + [Closing(reason)];
      }
    }

    /** False when it ends in an error. */
    method Attest() returns (ok: bool)
      modifies this
      ensures Value() == AfterAttest(old(Value())) && (ok <==> !old(closing))
    {
      ok := SendChunk(Cdsi);
      if !ok {
        return;
      }
      state := Handshake;
    }

    method ReceiveRequest(chunk: StringBuffer)
      requires chunk.Valid()
      modifies this, chunk
      ensures Value() == AfterRequest(old(Value()), FlatClientRequest(old(chunk.Text())))
    {
      var request := ParseClientRequest(chunk);
      if request.Err? {
        SendClose(Failure);
        state := Done;
      } else if request.value.Ask? {
        numbers := request.value.numbers;
        var ok := SendChunk(Token);
        if !ok {
          SendClose(Failure);
          state := Done;
          return;
        }
        state := ReceiveAck;
      } else {
        numbers := [];
        SendClose(IllegalArgument);
        state := Done;
      }
    }

    method ReceiveAcknowledgement(chunk: StringBuffer)
      requires chunk.Valid()
      modifies this, chunk
      ensures Value() == AfterAcknowledgement(old(Value()), FlatClientRequest(old(chunk.Text())))
    {
      var request := ParseClientRequest(chunk);
      if request.Err? {
        SendClose(Failure);
      } else if request.value.Acknowledge? {
        batches := batches + [numbers];
      }
      state := Done;
    }

    /** False when it ends in an error. */
    method ReceiveChunk(chunk: StringBuffer) returns (ok: bool)
      requires chunk.Valid()
      modifies this, chunk
      ensures Value() == AfterChunk(old(Value()), old(chunk.chunks))
      ensures ok <==> !old(closing && state == Handshake && IsGreeting(chunk.chunks))
    {
      ok := true;
      match state
      case Init =>
        SendClose(IllegalArgument);
        state := Done;
      case Handshake =>
        if chunk.chunks != [] && chunk.chunks[0] == CLIENT {
          ok := SendChunk(ReadyMessage);
          if !ok {
            return;
          }
          state := Receive;
        } else {
          SendClose(IllegalArgument);
          state := Done;
        }
      case Receive => ReceiveRequest(chunk);
      case ReceiveAck => ReceiveAcknowledgement(chunk);
      case Done => SendClose(IllegalArgument);
    }

    /** False when it ends in an error. */
    method FinishLookup() returns (ok: bool)
      requires finished < |batches|
      modifies this
      ensures Value() == AfterLookup(old(Value())) && (ok <==> !old(closing))
    {
      finished := finished + 1;
      ok := SendChunk(Results(batches[finished - 1]));
      if !ok {
        return;
      }
      SendClose(Finished);
    }
  }

  // ---------------------------------------------------------------- every run

  /** The conversation so far: attested, greeted, asked about numbers, acknowledged. */
  datatype Step = Attested | Greeted | Asked(numbers: seq<Bytes>) | Acknowledged

  /** The attestation is scheduled once; the client's messages may come before and after it, and
      the client may begin to close at any time. */
  datatype Event = Attestation | Message(chunks: seq<Bytes>) | CloseFrame | LookupDone

  predicate Possible(c: Conversation, ev: Event) {
    ev.LookupDone? ==> c.finished < |c.batches|
  }

  function After(c: Conversation, ev: Event): Conversation
    requires Possible(c, ev)
  {
    match ev
    case Attestation => AfterAttest(c)
    case Message(chunks) => AfterChunk(c, chunks)
    case CloseFrame => Closed(c, ByClient)
    case LookupDone => AfterLookup(c)
  }

  /** The step a request takes: asking when the token has been sent, and acknowledging. */
  function RequestStep(c: Conversation, request: Option<ClientRequest>): seq<Step> {
    match request
    case None => []
    case Some(Ask(numbers)) => if c.state == Receive && !c.closing then [Asked(numbers)] else []
    case Some(Acknowledge) => if c.state == ReceiveAck then [Acknowledged] else []
  }

  /** A step is taken when what it says has been sent; the acknowledgement says nothing. */
  function MessageSteps(c: Conversation, greeting: bool, request: Option<ClientRequest>): seq<Step> {
    if c.state == Receive || c.state == ReceiveAck then RequestStep(c, request)
    else if c.state == Handshake && greeting && !c.closing then [Greeted]
    else []
  }

  function Noted(steps: seq<Step>, c: Conversation, ev: Event): seq<Step> {
    match ev
    case Attestation => if c.closing then steps else steps + [Attested]
    case Message(chunks) => steps + MessageSteps(c, IsGreeting(chunks), FlatClientRequest(Concat(chunks)))
    case _ => steps
  }

  predicate Run(c: Conversation, events: seq<Event>)
    decreases |events|
  {
    events == [] || (Possible(c, events[0]) && Run(After(c, events[0]), events[1..]))
  }

  function End(c: Conversation, steps: seq<Step>, events: seq<Event>): (Conversation, seq<Step>)
    requires Run(c, events)
    decreases |events|
  {
    if events == [] then (c, steps) else End(After(c, events[0]), Noted(steps, c, events[0]), events[1..])
  }

  /** The steps of a complete conversation about some numbers. */
  function Complete(numbers: seq<Bytes>): seq<Step> {
    [Attested, Greeted, Asked(numbers), Acknowledged]
  }

  /** What was sent but for closing messages. */
  function Answers(wire: seq<Sent>): seq<Sent> {
    if wire == [] then []
    else
      var last := wire[|wire| - 1];
      Answers(wire[..|wire| - 1]) + (if last.Closing? then [] else [last])
  }

  function Expected(numbers: seq<Bytes>, steps: nat, results: bool): seq<Sent> {
    [Cdsi, ReadyMessage, Token][..if steps < 3 then steps else 3] + (if results then [Results(numbers)] else [])
  }

  /** A closing message is the last one sent. */
  predicate ClosedOnce(c: Conversation) {
    if c.closing then
      c.wire != [] && c.wire[|c.wire| - 1].Closing? && forall i :: 0 <= i < |c.wire| - 1 ==> !c.wire[i].Closing?
    else
      forall i :: 0 <= i < |c.wire| ==> !c.wire[i].Closing?
  }

  /** The results were sent, and then the WebSocket was closed. */
  predicate Told(c: Conversation) {
    c.wire != [] && c.wire[|c.wire| - 1] == Closing(Finished)
  }

  predicate StateFits(c: Conversation, steps: nat) {
    match c.state
    case Init => steps == 0
    case Handshake => steps == 1
    case Receive => steps == 2
    case ReceiveAck => steps == 3
    case Done => c.closing || steps >= 3
  }

  /** How far a conversation has got says all that has been said in it, closing messages apart,
      and whether numbers are looked up. */
  predicate InStep(c: Conversation, steps: seq<Step>) {
    && |steps| <= 4 && steps == Complete(c.numbers)[..|steps|]
    && StateFits(c, |steps|)
    && Answers(c.wire) == Expected(c.numbers, |steps|, Told(c))
    && ClosedOnce(c)
    && c.batches == (if |steps| == 4 then [c.numbers] else [])
    && c.finished <= |c.batches| && (|steps| == 4 ==> c.state == Done) && (Told(c) ==> c.finished == 1)
    && (c.finished == 1 ==> c.closing)
  }

  predicate AttestedOnce(events: seq<Event>) {
    forall i, j :: 0 <= i < j < |events| ==> !(events[i].Attestation? && events[j].Attestation?)
  }

  lemma AddedSent(wire: seq<Sent>, what: Sent)
    ensures Answers(wire + [what]) == Answers(wire) + if what.Closing? then [] else [what]
  {
    assert (wire + [what])[..|wire|] == wire;
  }

  lemma ClosedKeeps(c: Conversation, steps: seq<Step>, reason: Reason)
    requires InStep(c, steps) && reason != Finished
    ensures InStep(Closed(c, reason), steps) && InStep(Closed(c, reason).(state := Done), steps)
  {
    AddedSent(c.wire, Closing(reason));
  }

  lemma AttestedKeeps(c: Conversation, steps: seq<Step>)
    requires InStep(c, steps) && steps == [] && !c.closing
    ensures InStep(AfterAttest(c), steps + [Attested])
  {
    var c' := AfterAttest(c);
    AddedSent(c.wire, Cdsi);
    assert Answers(c'.wire) == [] + [Cdsi] == Expected(c'.numbers, 1, false);
    assert [] + [Attested] == Complete(c'.numbers)[..1];
    assert ClosedOnce(c');
  }

  lemma GreetedKeeps(c: Conversation, steps: seq<Step>)
    requires InStep(c, steps) && c.state == Handshake && !c.closing
    ensures InStep(Said(c, ReadyMessage, Receive), steps + [Greeted])
  {
    AddedSent(c.wire, ReadyMessage);
  }

  lemma AskedKeeps(c: Conversation, steps: seq<Step>, numbers: seq<Bytes>)
    requires InStep(c, steps) && c.state == Receive && !c.closing
    ensures InStep(Said(c.(numbers := numbers), Token, ReceiveAck), steps + [Asked(numbers)])
  {
    AddedSent(c.wire, Token);
  }

  lemma AcknowledgedKeeps(c: Conversation, steps: seq<Step>)
    requires InStep(c, steps) && c.state == ReceiveAck
    ensures InStep(c.(state := Done, batches := c.batches + [c.numbers]), steps + [Acknowledged])
  {
  }

  /** Two steps in, the numbers have not been asked for. */
  lemma NumbersAside(c: Conversation, steps: seq<Step>, numbers: seq<Bytes>)
    requires InStep(c, steps) && c.state == Receive
    ensures InStep(c.(numbers := numbers), steps)
  {
  }

  lemma RequestKeeps(c: Conversation, steps: seq<Step>, request: Option<ClientRequest>)
    requires InStep(c, steps) && c.state == Receive
    ensures InStep(AfterRequest(c, request), steps + RequestStep(c, request))
  {
    assert steps + [] == steps;
    match request
    case None => ClosedKeeps(c, steps, Failure);
    case Some(Ask(numbers)) =>
      if c.closing {
        NumbersAside(c, steps, numbers);
      } else {
        AskedKeeps(c, steps, numbers);
      }
    case Some(Acknowledge) =>
      NumbersAside(c, steps, []);
      ClosedKeeps(c.(numbers := []), steps, IllegalArgument);
  }

  lemma AcknowledgementKeeps(c: Conversation, steps: seq<Step>, request: Option<ClientRequest>)
    requires InStep(c, steps) && c.state == ReceiveAck
    ensures InStep(AfterAcknowledgement(c, request), steps + RequestStep(c, request))
  {
    assert steps + [] == steps;
    match request
    case None => ClosedKeeps(c, steps, Failure);
    case Some(Ask(_)) =>
    case Some(Acknowledge) => AcknowledgedKeeps(c, steps);
  }

  /** A message that takes no step. */
  lemma IllegalMessage(c: Conversation, greeting: bool, request: Option<ClientRequest>)
    requires c.state == Init || c.state == Done || (c.state == Handshake && !greeting)
    ensures AfterMessage(c, greeting, request) == Closed(c, IllegalArgument).(state := Done)
    ensures MessageSteps(c, greeting, request) == []
  {
  }

  lemma GreetingKeeps(c: Conversation, steps: seq<Step>, request: Option<ClientRequest>)
    requires InStep(c, steps) && c.state == Handshake
    ensures InStep(AfterMessage(c, true, request), steps + MessageSteps(c, true, request))
  {
    if c.closing {
      assert steps + [] == steps;
    } else {
      GreetedKeeps(c, steps);
    }
  }

  lemma MessageKeeps(c: Conversation, steps: seq<Step>, greeting: bool, request: Option<ClientRequest>)
    requires InStep(c, steps)
    ensures InStep(AfterMessage(c, greeting, request), steps + MessageSteps(c, greeting, request))
  {
    if c.state == Receive {
      RequestKeeps(c, steps, request);
    } else if c.state == ReceiveAck {
      AcknowledgementKeeps(c, steps, request);
    } else if c.state == Handshake && greeting {
      GreetingKeeps(c, steps, request);
    } else {
      IllegalMessage(c, greeting, request);
      ClosedKeeps(c, steps, IllegalArgument);
      assert steps + [] == steps;
    }
  }

  lemma LookupKeeps(c: Conversation, steps: seq<Step>)
    requires InStep(c, steps) && c.finished < |c.batches|
    ensures InStep(AfterLookup(c), steps)
  {
    var results := Said(c, Results(c.batches[c.finished]), c.state);
    AddedSent(c.wire, Results(c.batches[c.finished]));
    AddedSent(results.wire, Closing(Finished));
  }

  lemma StepKeeps(c: Conversation, steps: seq<Step>, ev: Event)
    requires InStep(c, steps) && Possible(c, ev) && (ev.Attestation? ==> steps == [])
    ensures InStep(After(c, ev), Noted(steps, c, ev))
  {
    match ev
    case Attestation =>
      if !c.closing {
        AttestedKeeps(c, steps);
      }
    case Message(chunks) => MessageKeeps(c, steps, IsGreeting(chunks), FlatClientRequest(Concat(chunks)));
    case CloseFrame => ClosedKeeps(c, steps, ByClient);
    case LookupDone => LookupKeeps(c, steps);
  }

  /** Attestation is still to come, or is not to come again. */
  predicate AttestationAhead(steps: seq<Step>, events: seq<Event>) {
    AttestedOnce(events) && (steps != [] ==> forall i :: 0 <= i < |events| ==> !events[i].Attestation?)
  }

  lemma AheadStep(c: Conversation, steps: seq<Step>, events: seq<Event>)
    requires AttestationAhead(steps, events) && events != [] && InStep(c, steps)
    ensures AttestationAhead(Noted(steps, c, events[0]), events[1..])
    ensures events[0].Attestation? ==> steps == []
  {
    if !events[0].Attestation? && steps == [] {
      assert c.state != Handshake && c.state != Receive && c.state != ReceiveAck;
    }
  }

  lemma {:induction false} RunKeeps(c: Conversation, steps: seq<Step>, events: seq<Event>)
    requires InStep(c, steps) && Run(c, events) && AttestationAhead(steps, events)
    ensures var (c', steps') := End(c, steps, events); InStep(c', steps')
    decreases |events|
  {
    if events != [] {
      AheadStep(c, steps, events);
      StepKeeps(c, steps, events[0]);
      RunKeeps(After(c, events[0]), Noted(steps, c, events[0]), events[1..]);
    }
  }

  /** Numbers are looked up at most once, and exactly when the whole conversation was had in
      order, each part of it sent: attestation, greeting, a request for just these numbers, an
      acknowledgement. The results, if the WebSocket is still open, are the last thing said. */
  lemma LookedUpWhenAsked(events: seq<Event>)
    requires Run(START, events) && AttestedOnce(events)
    ensures var (c, steps) := End(START, [], events);
      && InStep(c, steps)
      && (c.batches == [c.numbers] <==> steps == Complete(c.numbers))
      && (c.batches == [] <==> steps != Complete(c.numbers))
  {
    RunKeeps(START, [], events);
  }

  /** Once closing, nothing is sent, and nothing opens: an acknowledgement of what was asked for
      before is all that is still understood. */
  lemma ClosedMessage(c: Conversation, greeting: bool, request: Option<ClientRequest>)
    requires c.closing
    ensures var c' := AfterMessage(c, greeting, request);
      c'.closing && c'.wire == c.wire && (c'.state == c.state || c'.state == Done)
    ensures MessageSteps(c, greeting, request) == [] ||
            (c.state == ReceiveAck && MessageSteps(c, greeting, request) == [Acknowledged])
  {
  }

  lemma ClosedStep(c: Conversation, steps: seq<Step>, ev: Event)
    requires c.closing && Possible(c, ev)
    ensures After(c, ev).closing && After(c, ev).wire == c.wire
    ensures c.state == After(c, ev).state || After(c, ev).state == Done
    ensures Noted(steps, c, ev) == steps || (c.state == ReceiveAck && Noted(steps, c, ev) == steps + [Acknowledged])
  {
    assert steps + [] == steps;
    if ev.Message? {
      ClosedMessage(c, IsGreeting(ev.chunks), FlatClientRequest(Concat(ev.chunks)));
    }
  }

  lemma {:induction false} NothingAfterClosing(c: Conversation, steps: seq<Step>, events: seq<Event>)
    requires c.closing && Run(c, events)
    ensures End(c, steps, events).0.closing && End(c, steps, events).0.wire == c.wire
    ensures c.state != ReceiveAck ==> End(c, steps, events).1 == steps
    decreases |events|
  {
    if events != [] {
      ClosedStep(c, steps, events[0]);
      NothingAfterClosing(After(c, events[0]), Noted(steps, c, events[0]), events[1..]);
    }
  }

  /** The reason that a message is answered with, if it makes the WebSocket close: what cannot be
      read is a failure, and what is read but is out of place an illegal argument. */
  function Complaint(c: Conversation, chunks: seq<Bytes>): Option<Reason> {
    var request := FlatClientRequest(Concat(chunks));
    if c.state in {Receive, ReceiveAck} && request.None? then Some(Failure)
    else if c.state in {Init, Done} || (c.state == Handshake && !IsGreeting(chunks))
            || (c.state == Receive && request == Some(Acknowledge)) then Some(IllegalArgument)
    else None
  }

  /** A message on an open WebSocket closes it for just these reasons, once: then nothing else is
      sent. And the conversation goes on from there only if there is none. */
  lemma ClosedForCause(c: Conversation, chunks: seq<Bytes>)
    requires !c.closing
    ensures var c' := After(c, Message(chunks));
      && (c'.closing <==> Complaint(c, chunks).Some?)
      && (c'.closing ==> c'.wire == c.wire + [Closing(Complaint(c, chunks).value)] && c'.state == Done)
      && c'.batches == c.batches + (if c.state == ReceiveAck && FlatClientRequest(Concat(chunks)) == Some(Acknowledge)
                                    then [c.numbers] else [])
  {
    assert c.batches + [] == c.batches;
  }

  predicate NoAttestation(events: seq<Event>) {
    forall i :: 0 <= i < |events| ==> !events[i].Attestation?
  }

  lemma {:induction false} DoneForGood(c: Conversation, steps: seq<Step>, events: seq<Event>)
    requires c.state == Done && Run(c, events) && NoAttestation(events)
    ensures var (c', steps') := End(c, steps, events); c'.state == Done && c'.batches == c.batches && steps' == steps
    decreases |events|
  {
    assert steps + [] == steps;
    if events != [] {
      assert Noted(steps, c, events[0]) == steps;
      DoneForGood(After(c, events[0]), steps, events[1..]);
    }
  }

  /** The message after the token is the only chance to acknowledge it: if it does not, nothing is
      ever looked up. */
  lemma OneChance(c: Conversation, steps: seq<Step>, chunks: seq<Bytes>, events: seq<Event>)
    requires c.state == ReceiveAck && FlatClientRequest(Concat(chunks)) != Some(Acknowledge)
    requires Run(After(c, Message(chunks)), events) && NoAttestation(events)
    ensures var (c', steps') := End(After(c, Message(chunks)), Noted(steps, c, Message(chunks)), events);
      c'.batches == c.batches && steps' == steps
  {
    assert steps + [] == steps;
    DoneForGood(After(c, Message(chunks)), steps, events);
  }

  lemma OneMore(c: Conversation, steps: seq<Step>, ev: Event, rest: seq<Event>)
    requires Possible(c, ev) && Run(After(c, ev), rest)
    ensures Run(c, [ev] + rest) && End(c, steps, [ev] + rest) == End(After(c, ev), Noted(steps, c, ev), rest)
  {
    assert ([ev] + rest)[1..] == rest;
  }

  /** Attested and greeted. */
  const GREETED := Conversation(Receive, [], false, [Cdsi, ReadyMessage], [], 0)

  lemma GreetingStep()
    ensures var c := After(START, Attestation);
      && After(c, Message([CLIENT])) == GREETED
      && Noted(Noted([], START, Attestation), c, Message([CLIENT])) == [Attested, Greeted]
  {
    assert [] + [Attested] == [Attested] && [Attested] + [Greeted] == [Attested, Greeted];
    assert [Cdsi] + [ReadyMessage] == [Cdsi, ReadyMessage];
  }

  lemma AskingStep(ask: seq<Bytes>, numbers: seq<Bytes>)
    requires FlatClientRequest(Concat(ask)) == Some(Ask(numbers))
    ensures After(GREETED, Message(ask)) == Conversation(ReceiveAck, numbers, false, [Cdsi, ReadyMessage, Token], [], 0)
    ensures Noted([Attested, Greeted], GREETED, Message(ask)) == [Attested, Greeted, Asked(numbers)]
  {
    assert [Cdsi, ReadyMessage] + [Token] == [Cdsi, ReadyMessage, Token];
  }

  lemma LookupStep(c: Conversation, steps: seq<Step>)
    requires c == Conversation(Done, c.numbers, false, [Cdsi, ReadyMessage, Token], [c.numbers], 0)
    ensures Run(c, [LookupDone]) && End(c, steps, [LookupDone]).1 == steps
    ensures End(c, steps, [LookupDone]).0.wire == [Cdsi, ReadyMessage, Token, Results(c.numbers), Closing(Finished)]
  {
    assert [LookupDone][1..] == [];
    assert Said(c, Results(c.numbers), Done).wire == [Cdsi, ReadyMessage, Token, Results(c.numbers)];
  }

  /** Acknowledged, and looked up. */
  lemma AnsweringSteps(c: Conversation, acknowledgement: seq<Bytes>)
    requires FlatClientRequest(Concat(acknowledgement)) == Some(Acknowledge)
    requires c == Conversation(ReceiveAck, c.numbers, false, [Cdsi, ReadyMessage, Token], [], 0)
    ensures var events, steps := [Message(acknowledgement)] + [LookupDone], [Attested, Greeted, Asked(c.numbers)];
      && Run(c, events)
      && End(c, steps, events).1 == Complete(c.numbers)
      && End(c, steps, events).0.wire == [Cdsi, ReadyMessage, Token, Results(c.numbers), Closing(Finished)]
  {
    var steps := [Attested, Greeted, Asked(c.numbers)];
    var c' := After(c, Message(acknowledgement));
    assert c' == c.(state := Done, batches := [c.numbers]);
    LookupStep(c', Complete(c.numbers));
    assert steps + [Acknowledged] == Complete(c.numbers);
    OneMore(c, steps, Message(acknowledgement), [LookupDone]);
  }

  /** A client that does everything in order gets its answer: however its request and its
      acknowledgement are cut, and whatever else they hold. */
  lemma AnsweredWhenAsked(ask: seq<Bytes>, numbers: seq<Bytes>, acknowledgement: seq<Bytes>) returns (events: seq<Event>)
    requires FlatClientRequest(Concat(ask)) == Some(Ask(numbers))
    requires FlatClientRequest(Concat(acknowledgement)) == Some(Acknowledge)
    ensures events == [Attestation] + ([Message([CLIENT])] + ([Message(ask)] + ([Message(acknowledgement)] + [LookupDone])))
    ensures Run(START, events)
    ensures var (c, steps) := End(START, [], events);
      && steps == Complete(numbers)
      && c.wire == [Cdsi, ReadyMessage, Token, Results(numbers), Closing(Finished)]
  {
    GreetingStep();
    AskingStep(ask, numbers);
    var asked := After(GREETED, Message(ask));
    AnsweringSteps(asked, acknowledgement);
    var rest := [Message(acknowledgement)] + [LookupDone];
    OneMore(GREETED, [Attested, Greeted], Message(ask), rest);
    rest := [Message(ask)] + rest;
    OneMore(After(START, Attestation), Noted([], START, Attestation), Message([CLIENT]), rest);
    rest := [Message([CLIENT])] + rest;
    OneMore(START, [], Attestation, rest);
    events := [Attestation] + rest;
  }

  /** So a client that speaks before the attestation has spoken in vain. */
  lemma SpokenTooSoon(chunks: seq<Bytes>, events: seq<Event>)
    requires Run(START, [Message(chunks)] + events)
    ensures var (c, steps) := End(START, [], [Message(chunks)] + events);
      steps == [] && c.wire == [Closing(IllegalArgument)]
  {
    assert ([Message(chunks)] + events)[1..] == events;
    NothingAfterClosing(After(START, Message(chunks)), [], events);
  }
}

/** Looking numbers up, a few in every call, and the response. */
module DiscoveryBatches {
  import opened ByteStrings
  import opened Wrappers
  import opened StringBuffers
  import opened Proto

  const BATCH_SIZE := 5

  /** What the account server says of a number: an identifier for the number and one for the account. */
  type Lookup = Bytes -> Option<(Bytes, Bytes)>

  function Triple(number: Bytes, lookup: Lookup): Bytes {
    number + match lookup(number)
             case Some((pni, aci)) => pni + aci
             case None => Zeros(32)
  }

  function Min(a: nat, b: nat): nat {
    if a < b then a else b
  }

  /** The results from the offset on, up to the end of the batch, are filled in. */
  function Filled(numbers: seq<Bytes>, results: seq<Bytes>, offset: nat, lookup: Lookup): (r: seq<Bytes>)
    requires |results| == |numbers| && offset <= |numbers|
    ensures |r| == |results|
  {
    seq(|results|, i requires 0 <= i < |results| =>
      if offset <= i < offset + BATCH_SIZE then Triple(numbers[i], lookup) else results[i])
  }

  /** Where the next batch starts, or the end of the last. */
  method CdsiBatch(numbers: seq<Bytes>, results: array<Bytes>, offset: nat, lookup: Lookup) returns (next: Option<nat>)
    requires results.Length == |numbers| && offset <= |numbers|
    modifies results
    ensures results[..] == Filled(numbers, old(results[..]), offset, lookup)
    ensures next == if offset + BATCH_SIZE < |numbers| then Some(offset + BATCH_SIZE) else None
  {
    var size := Min(|numbers|, offset + BATCH_SIZE);
    var i := offset;
    while i < size
      invariant offset <= i <= size
      invariant forall j :: 0 <= j < |numbers| ==>
                  results[j] == if offset <= j < i then Triple(numbers[j], lookup) else old(results[j])
    {
      results[i] := Triple(numbers[i], lookup);
      i := i + 1;
    }
    next := if i < |numbers| then Some(i) else None;
  }

  /** The results after all batches from the offset on; what is known of accounts may change
      from one batch to the next. */
  function AllFilled(numbers: seq<Bytes>, results: seq<Bytes>, offset: nat, lookups: nat -> Lookup): (r: seq<Bytes>)
    requires |results| == |numbers| && offset <= |numbers|
    ensures |r| == |results|
    decreases |numbers| - offset
  {
    var filled := Filled(numbers, results, offset, lookups(offset / BATCH_SIZE));
    if offset + BATCH_SIZE < |numbers| then AllFilled(numbers, filled, offset + BATCH_SIZE, lookups) else filled
  }

  lemma SameBatch(offset: nat, i: nat)
    requires offset % BATCH_SIZE == 0 && offset <= i < offset + BATCH_SIZE
    ensures i / BATCH_SIZE == offset / BATCH_SIZE
  {}

  /** Every number is looked up, once, in its own batch, and stays in its place. */
  lemma {:induction false} EveryNumberLookedUp(numbers: seq<Bytes>, results: seq<Bytes>, offset: nat,
                                               lookups: nat -> Lookup, i: nat)
    requires |results| == |numbers| && offset <= |numbers| && offset % BATCH_SIZE == 0 && i < |numbers|
    ensures AllFilled(numbers, results, offset, lookups)[i] ==
            if i < offset then results[i] else Triple(numbers[i], lookups(i / BATCH_SIZE))
    decreases |numbers| - offset
  {
    var filled := Filled(numbers, results, offset, lookups(offset / BATCH_SIZE));
    if offset <= i < offset + BATCH_SIZE { SameBatch(offset, i); }
    if offset + BATCH_SIZE < |numbers| {
      assert (offset + BATCH_SIZE) % BATCH_SIZE == 0;
      EveryNumberLookedUp(numbers, filled, offset + BATCH_SIZE, lookups, i);
    }
  }

  // ---------------------------------------------------------------- the response

  /** How many results are put together in one string, which keeps it below 65536 bytes. */
  const PIECE := 1638

  function ResponseOf(results: seq<Bytes>): Bytes {
    [10] + (StringOf(Concat(results)) + ([32] + VarintOf(0)))
  }

  lemma {:induction false} ConcatLength(results: seq<Bytes>, length: nat)
    requires forall i :: 0 <= i < |results| ==> |results[i]| == length
    ensures |Concat(results)| == length * |results|
  {
    if results != [] {
      ConcatLength(results[1..], length);
    }
  }

  /** A piece of triples, forty bytes each, fits. */
  lemma PieceFits(results: seq<Bytes>)
    requires |results| <= PIECE && forall i :: 0 <= i < |results| ==> |results[i]| == 40
    ensures |Concat(results)| < 0x1_0000
  {
    ConcatLength(results, 40);
  }

  /** The triples put together piece by piece. */
  method ListTriples(results: seq<Bytes>) returns (triples: StringBuffer)
    ensures fresh(triples) && triples.Valid() && triples.Text() == Concat(results)
  {
    triples := new StringBuffer([]);
    var i, size := 0, |results|;
    while i + PIECE < size
      invariant 0 <= i <= size && triples.Valid() && fresh(triples)
      invariant triples.Text() == Concat(results[..i])
    {
      ConcatAppend(results[..i], results[i..i + PIECE]);
      assert results[..i] + results[i..i + PIECE] == results[..i + PIECE];
      triples.Append(Concat(results[i..i + PIECE]));
      i := i + PIECE;
    }
    ConcatAppend(results[..i], results[i..]);
    assert results[..i] + results[i..] == results;
    triples.Append(Concat(results[i..]));
  }

  // ---------------------------------------------------------------- the response read back

  /** The client's reading of forty bytes: the number, then the identifier for the number, then
      that of the account; or zeros, when the number is not known. */
  predicate Says(entry: Bytes, number: Bytes, found: Option<(Bytes, Bytes)>) {
    && |entry| == 40 && entry[..8] == number
    && (found.Some? ==> entry[8..24] == found.value.0 && entry[24..40] == found.value.1)
    && (found.None? ==> forall k :: 8 <= k < 40 ==> entry[k] == 0)
  }

  predicate SixteenEach(found: Option<(Bytes, Bytes)>) {
    found.Some? ==> |found.value.0| == |found.value.1| == 16
  }

  lemma TripleSays(number: Bytes, lookup: Lookup)
    requires |number| == 8 && SixteenEach(lookup(number))
    ensures Says(Triple(number, lookup), number, lookup(number))
  {
    var found := lookup(number);
    if found.Some? {
      var triple := number + found.value.0 + found.value.1;
      assert Triple(number, lookup) == triple;
      assert triple[8..24] == found.value.0 && triple[24..40] == found.value.1;
    }
  }

  lemma {:induction false} EntryAt(results: seq<Bytes>, i: nat)
    requires i < |results| && forall j :: 0 <= j < |results| ==> |results[j]| == 40
    ensures 40 * i + 40 <= |Concat(results)| && Concat(results)[40 * i..40 * i + 40] == results[i]
  {
    ConcatLength(results, 40);
    var rest := Concat(results[1..]);
    if i == 0 {
      assert (results[0] + rest)[..40] == results[0];
    } else {
      EntryAt(results[1..], i - 1);
      assert (results[0] + rest)[40 * i..40 * i + 40] == rest[40 * (i - 1)..40 * (i - 1) + 40];
    }
  }

  lemma ResponseReads(results: seq<Bytes>)
    requires |Concat(results)| < 0x8000_0000
    ensures var s := ResponseOf(results); s[0] == 10 && FlatString(s[1..]) == Got(Concat(results), [32, 0])
  {
    var s, rest := ResponseOf(results), [32] + VarintOf(0);
    assert rest == [32, 0] && s[1..] == StringOf(Concat(results)) + rest;
    StringRoundTrip(Concat(results), rest);
  }

  /** The client reads, in the order of its numbers, an entry for every one of them, with what
      was known of it when its batch was looked up. */
  lemma ClientReadsEntries(numbers: seq<Bytes>, results: seq<Bytes>, lookups: nat -> Lookup)
    requires |results| == |numbers| && 40 * |numbers| < 0x8000_0000
    requires forall i :: 0 <= i < |numbers| ==> |numbers[i]| == 8 && SixteenEach(lookups(i / BATCH_SIZE)(numbers[i]))
    ensures var s := ResponseOf(AllFilled(numbers, results, 0, lookups));
      && s[0] == 10
      && FlatString(s[1..]).Got? && FlatString(s[1..]).rest == [32, 0]
      && var list := FlatString(s[1..]).value;
      && |list| == 40 * |numbers|
      && forall i :: 0 <= i < |numbers| ==>
           Says(list[40 * i..40 * i + 40], numbers[i], lookups(i / BATCH_SIZE)(numbers[i]))
  {
    var filled := AllFilled(numbers, results, 0, lookups);
    forall i | 0 <= i < |numbers|
      ensures |filled[i]| == 40 && Says(filled[i], numbers[i], lookups(i / BATCH_SIZE)(numbers[i]))
    {
      EveryNumberLookedUp(numbers, results, 0, lookups, i);
      TripleSays(numbers[i], lookups(i / BATCH_SIZE));
    }
    ConcatLength(filled, 40);
    ResponseReads(filled);
    forall i | 0 <= i < |numbers|
      ensures Says(Concat(filled)[40 * i..40 * i + 40], numbers[i], lookups(i / BATCH_SIZE)(numbers[i]))
    {
      EntryAt(filled, i);
    }
  }

  method SendClientResponse(results: seq<Bytes>) returns (response: StringBuffer)
    requires |Concat(results)| < 0x1_0000_0000
    ensures fresh(response) && response.Valid() && response.Text() == ResponseOf(results)
  {
    var triples := ListTriples(results);
    response := new StringBuffer([10]);
    var list := ProtoStrbuf(triples);
    response.AppendBuffer(list);
    var flag := ProtoInt(0);
    response.Append([32] + flag);
    assert ([10] + StringOf(Concat(results))) + ([32] + flag) == ResponseOf(results);
  }
}
