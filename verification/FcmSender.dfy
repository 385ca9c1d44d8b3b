/** The client for a single POST request, which tells its caller the outcome once. */
module Oneshots {
  import opened Wrappers
  import opened ByteStrings

  datatype Phase = Connecting | Open | Gone

  /** Whether the callback is still there to be run. */
  datatype Client = Client(phase: Phase, callback: bool)

  /** What the callback can read of an entity: nothing, when there is none or it is not as it
      should be, or an object that may have a token in it. */
  datatype Entity = Unreadable | Readable(token: Option<Bytes>)

  /** What a callback is run with: a code, and the entity of a response if there was one. */
  datatype Outcome = Outcome(code: int, entity: Entity)

  const NEW_CLIENT := Client(Connecting, true)
  const ASKED := Client(Open, true)
  const ANSWERED := Client(Open, false)

  datatype ClientEvent = Created(code: int) | Response(code: int, entity: Entity) | Close

  /** What the connection can bring next: the outcome of the attempt first, then a response to
      the request that was sent if there was none, or the close. */
  predicate Possible(c: Client, ev: ClientEvent) {
    match ev
    case Created(_) => c.phase == Connecting
    case Response(_, _) => c.phase == Open && c.callback
    case Close => c.phase == Open
  }

  function After(c: Client, ev: ClientEvent): (Client, Option<Outcome>) {
    match ev
    case Created(code) =>
      if code == 200 then (c.(phase := Open), None) else (c.(phase := Gone), Some(Outcome(code, Unreadable)))
    case Response(code, entity) => (c.(callback := false), Some(Outcome(code, entity)))
    case Close => (c.(phase := Gone), if c.callback then Some(Outcome(-1, Unreadable)) else None)
  }

  class OneshotClient {
    var phase: Phase
    var callback: bool

    ghost function Value(): Client
      reads this
    {
      Client(phase, callback)
    }

    constructor ()
      ensures Value() == NEW_CLIENT
    {
      phase := Connecting;
      callback := true;
    }

    method ConnectionCreated(code: int) returns (outcome: Option<Outcome>)
      modifies this
      ensures (Value(), outcome) == After(old(Value()), Created(code))
    {
      outcome := None;
      if code == 200 {
        phase := Open;
      } else {
        outcome := Some(Outcome(code, Unreadable));
        phase := Gone;
      }
    }

    method HandleResponse(code: int, entity: Entity) returns (outcome: Option<Outcome>)
      requires callback
      modifies this
      ensures (Value(), outcome) == After(old(Value()), Response(code, entity))
    {
      outcome := Some(Outcome(code, entity));
      callback := false;
    }

    method HandleClose() returns (outcome: Option<Outcome>)
      modifies this
      ensures (Value(), outcome) == After(old(Value()), Close)
    {
      outcome := None;
      if callback {
        outcome := Some(Outcome(-1, Unreadable));
      }
      phase := Gone;
    }
  }

  /** The outcomes of a run. */
  function Outcomes(c: Client, events: seq<ClientEvent>): seq<Outcome>
    decreases |events|
  {
    if events == [] then []
    else
      var (c', outcome) := After(c, events[0]);
      (if outcome.Some? then [outcome.value] else []) + Outcomes(c', events[1..])
  }

  function Last(c: Client, events: seq<ClientEvent>): Client
    decreases |events|
  {
    if events == [] then c else Last(After(c, events[0]).0, events[1..])
  }

  predicate Run(c: Client, events: seq<ClientEvent>)
    decreases |events|
  {
    events == [] || (Possible(c, events[0]) && Run(After(c, events[0]).0, events[1..]))
  }

  predicate Unanswered(c: Client) {
    c.phase != Gone && c.callback
  }

  /** Before the connection is made, the callback has not been run. */
  predicate Sound(c: Client) {
    c.phase == Connecting ==> c.callback
  }

  /** An event takes a client from new to asked, or gives its outcome if it had none yet. */
  lemma OneEvent(c: Client, ev: ClientEvent)
    requires Sound(c) && Possible(c, ev)
    ensures var (c', outcome) := After(c, ev);
      && Sound(c') && c' != c && c' != NEW_CLIENT
      && (c' == ASKED ==> c == NEW_CLIENT)
      && (outcome.Some? <==> (c == NEW_CLIENT || c == ASKED) && c' != ASKED)
  {}

  /** One outcome and no more, exactly from the moment the client is no longer unanswered;
      in particular by the time it is gone. */
  lemma {:induction false} OneOutcome(c: Client, events: seq<ClientEvent>)
    requires Sound(c) && Run(c, events)
    ensures |Outcomes(c, events)| == (if Unanswered(c) then 1 else 0) - (if Unanswered(Last(c, events)) then 1 else 0)
    ensures Last(c, events).phase == Gone ==> !Unanswered(Last(c, events))
    decreases |events|
  {
    if events != [] {
      var (c', outcome) := After(c, events[0]);
      OneOutcome(c', events[1..]);
      assert Outcomes(c, events) == (if outcome.Some? then [outcome.value] else []) + Outcomes(c', events[1..]);
    }
  }

  /** What the callback is run with, for a client from its start: the code of an attempt that
      failed; or the response to the request; or -1, when the connection closes before that. */
  function Expected(events: seq<ClientEvent>): seq<Outcome> {
    if events == [] || !events[0].Created? then []
    else if events[0].code != 200 then [Outcome(events[0].code, Unreadable)]
    else if |events| == 1 then []
    else if events[1].Response? then [Outcome(events[1].code, events[1].entity)]
    else [Outcome(-1, Unreadable)]
  }

  /** Nothing more comes of a client that has given its outcome. */
  lemma NoneAfter(c: Client, events: seq<ClientEvent>)
    requires c.phase != Connecting && !Unanswered(c) && Run(c, events)
    ensures Outcomes(c, events) == []
  {
    OneOutcome(c, events);
  }

  lemma OutcomeExpected(events: seq<ClientEvent>)
    requires Run(NEW_CLIENT, events)
    ensures Outcomes(NEW_CLIENT, events) == Expected(events)
  {
    if events != [] {
      var (c1, _) := After(NEW_CLIENT, events[0]);
      if c1.phase == Gone {
        NoneAfter(c1, events[1..]);
      } else if |events| > 1 {
        assert events[1..][0] == events[1] && events[1..][1..] == events[2..];
        NoneAfter(After(c1, events[1]).0, events[2..]);
      }
    }
  }
}

/** The sender of push notifications: one at a time over a connection that may close, with a
    token that may expire. Whatever is scheduled or requested may happen next, in any order. */
module FcmSenders {
  import opened ByteStrings
  import opened Wrappers
  import opened Oneshots

  const ATTEMPTS := 3
  const OK := 200
  const BAD_REQUEST := 400
  const UNAUTHORIZED := 401
  const NOT_FOUND := 404

  datatype Notification = Notification(target: Bytes, kind: Bytes, message: Bytes, urgent: bool, callback: Option<nat>)

  /** What goes out: a message for a target, with the token in the header. */
  datatype Request = Request(note: Notification, token: Bytes)

  datatype Entry = Entry(attempts: int, note: Notification)

  datatype CallOut = SendMessage | StartConnection | GetAccessToken | Enqueue(note: Notification)

  /** The fields; then what is scheduled, the connection attempts and token clients under
      way, the outcomes of token requests on their way back, and whether a request is out; then
      the requests sent and the callbacks run. */
  datatype Sender = Sender(queue: seq<Entry>, active: bool, requested: bool, accessToken: Option<Bytes>,
                           pending: multiset<CallOut>, connecting: nat, clients: multiset<Client>,
                           outcomes: multiset<Outcome>, out: bool, sent: seq<Request>, ran: seq<(nat, int)>)

  const NEW_SENDER := Sender([], false, false, None, multiset{}, 0, multiset{}, multiset{}, false, [], [])

  // ---------------------------------------------------------------- the handlers, as functions

  function Scheduled(s: Sender, call: CallOut): Sender {
    s.(pending := s.pending + multiset{call})
  }

  function AfterStart(s: Sender): Sender {
    s.(connecting := s.connecting + 1)
  }

  function AfterStarted(s: Sender, code: int): Sender {
    if code == OK then Scheduled(s.(active := true), SendMessage) else Scheduled(s, StartConnection)
  }

  /** On an empty queue the indexing is an error, and without a token the header is, when it is
      already noted that there is a request. */
  function AfterSend(s: Sender): Sender {
    if !s.active then AfterStart(s)
    else if s.queue == [] then s
    else if s.accessToken == None then s.(requested := true)
    else s.(requested := true, out := true, sent := s.sent + [Request(s.queue[0].note, s.accessToken.value)])
  }

  function CallbackRun(s: Sender, code: int): Sender
    requires s.queue != []
  {
    var callback := s.queue[0].note.callback;
    if callback.Some? then s.(ran := s.ran + [(callback.value, code)]) else s
  }

  function Dequeued(s: Sender, code: int): Sender
    requires s.queue != []
  {
    var next := CallbackRun(s, code).(queue := s.queue[1..]);
    if next.queue != [] then Scheduled(next, SendMessage) else next
  }

  function AfterResponse(s: Sender, code: int): Sender {
    var idle := s.(requested := false, out := false);
    if code == NOT_FOUND || code == OK then
      if s.queue == [] then idle
      else if code == OK then Dequeued(idle, code)
      else
        var less := idle.(queue := [s.queue[0].(attempts := s.queue[0].attempts - 1)] + s.queue[1..]);
        if less.queue[0].attempts > 0 then Scheduled(less, SendMessage) else Dequeued(less, code)
    else if code == UNAUTHORIZED then Scheduled(idle, GetAccessToken)
    else Scheduled(idle, SendMessage)
  }

  function AfterClose(s: Sender): Sender {
    var closed := s.(active := false, out := false);
    if s.requested then Scheduled(closed.(requested := false), StartConnection) else closed
  }

  function AfterGetToken(s: Sender): Sender {
    s.(clients := s.clients + multiset{NEW_CLIENT})
  }

  /** The token is what the entity of a response with code 200 says, even when it has none; an
      entity that cannot be read is an error, as the rejection of the service account is. */
  function AfterToken(s: Sender, outcome: Outcome): Sender {
    if outcome.code == OK then
      if outcome.entity.Readable? then AfterSend(s.(accessToken := outcome.entity.token)) else s
    else if outcome.code == BAD_REQUEST || outcome.code == UNAUTHORIZED then s
    else Scheduled(s, GetAccessToken)
  }

  function AfterEnqueue(s: Sender, note: Notification): Sender {
    var longer := s.(queue := s.queue + [Entry(ATTEMPTS, note)]);
    if |longer.queue| != 1 then longer
    else if s.accessToken == None then AfterGetToken(longer)
    else AfterSend(longer)
  }

  // ---------------------------------------------------------------- the object

  class FcmSender {
    var queue: seq<Entry>
    var active: bool
    var requested: bool
    var accessToken: Option<Bytes>
    var pending: multiset<CallOut>
    var connecting: nat
    var clients: multiset<Client>
    var outcomes: multiset<Outcome>
    var out: bool
    var sent: seq<Request>
    var ran: seq<(nat, int)>

    ghost function Value(): Sender
      reads this
    {
      Sender(queue, active, requested, accessToken, pending, connecting, clients, outcomes, out, sent, ran)
    }

    constructor ()
      ensures Value() == NEW_SENDER
    {
      queue, active, requested, accessToken := [], false, false, None;
      pending, connecting, clients, outcomes := multiset{}, 0, multiset{}, multiset{};
      out, sent, ran := false, [], [];
    }

    method DoCallOut(call: CallOut)
      modifies this
      ensures Value() == Scheduled(old(Value()), call)
    {
      pending := pending + multiset{call};
    }

    method DoStartConnection()
      modifies this
      ensures Value() == AfterStart(old(Value()))
    {
      connecting := connecting + 1;
    }

    method Started(code: int)
      modifies this
      ensures Value() == AfterStarted(old(Value()), code)
    {
      if code == OK {
        active := true;
        DoCallOut(SendMessage);
      } else {
        DoCallOut(StartConnection);
      }
    }

    /** False when the handler ends in an error. */
    method DoSendMessage() returns (ok: bool)
      modifies this
      ensures Value() == AfterSend(old(Value()))
      ensures ok <==> old(!active || (queue != [] && accessToken.Some?))
    {
      if !active {
        DoStartConnection();
      } else {
        if |queue| == 0 {
          return false;
        }
        requested := true;
        if accessToken.None? {
          return false;
        }
        out := true;
        sent := sent + [Request(queue[0].note, accessToken.value)];
      }
      ok := true;
    }

    /** The head of the queue leaves, and its callback is run. */
    method Dequeue(code: int)
      requires queue != []
      modifies this
      ensures Value() == Dequeued(old(Value()), code)
    {
      var callback := queue[0].note.callback;
      if callback.Some? {
        ran := ran + [(callback.value, code)];
      }
      queue := queue[1..];
      if |queue| != 0 {
        DoCallOut(SendMessage);
      }
    }

    /** False when the handler ends in an error. */
    method HandleResponse(code: int) returns (ok: bool)
      modifies this
      ensures Value() == AfterResponse(old(Value()), code)
      ensures ok <==> old(queue) != [] || code !in {OK, NOT_FOUND}
    {
      requested, out := false, false;
      if code == NOT_FOUND || code == OK {
        if |queue| == 0 {
          return false;
        }
        if code == NOT_FOUND {
          queue := [queue[0].(attempts := queue[0].attempts - 1)] + queue[1..];
          if queue[0].attempts > 0 {
            DoCallOut(SendMessage);
            return true;
          }
        }
        Dequeue(code);
      } else if code == UNAUTHORIZED {
        DoCallOut(GetAccessToken);
      } else {
        DoCallOut(SendMessage);
      }
      ok := true;
    }

    method HandleClose()
      modifies this
      ensures Value() == AfterClose(old(Value()))
    {
      active, out := false, false;
      if requested {
        requested := false;
        DoCallOut(StartConnection);
      }
    }

    method DoGetAccessToken()
      modifies this
      ensures Value() == AfterGetToken(old(Value()))
    {
      clients := clients + multiset{NEW_CLIENT};
    }

    /** False when the handler ends in an error. */
    method StoreAccessToken(outcome: Outcome) returns (ok: bool)
      modifies this
      ensures Value() == AfterToken(old(Value()), outcome)
      ensures ok <==> if outcome.code == OK then
                        outcome.entity.Readable? && (old(!active) || (old(queue) != [] && outcome.entity.token.Some?))
                      else outcome.code !in {BAD_REQUEST, UNAUTHORIZED}
    {
      if outcome.code == OK {
        if outcome.entity.Unreadable? {
          return false;
        }
        accessToken := outcome.entity.token;
        ok := DoSendMessage();
      } else if outcome.code == BAD_REQUEST || outcome.code == UNAUTHORIZED {
        ok := false;
      } else {
        DoCallOut(GetAccessToken);
        ok := true;
      }
    }

    method DoEnqueue(note: Notification)
      modifies this
      ensures Value() == AfterEnqueue(old(Value()), note)
    {
      queue := queue + [Entry(ATTEMPTS, note)];
      if |queue| == 1 {
        if accessToken.None? {
          DoGetAccessToken();
        } else {
          var _ := DoSendMessage();
        }
      }
    }

    method Notify(note: Notification)
      modifies this
      ensures Value() == Scheduled(old(Value()), Enqueue(note))
    {
      DoCallOut(Enqueue(note));
    }
  }
}
