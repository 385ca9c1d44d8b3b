/** Every run of the push sender: a queue that is not empty has exactly one thing under way
    that moves it on; messages leave in order, each callback is run once, when its message
    leaves; and the cases where the sender stops for good. */
module FcmRuns {
  import opened ByteStrings
  import opened Wrappers
  import opened Oneshots
  import opened FcmSenders

  datatype Event =
    | Notify(note: Notification)
    | Fire(call: CallOut)
    | Started(code: int)
    | Answered(code: int)
    | Closed
    | AtClient(client: Client, what: ClientEvent)
    | TokenOutcome(outcome: Outcome)

  /** Each connection attempt has one outcome; each request a response or a close. */
  predicate Possible(s: Sender, ev: Event) {
    match ev
    case Notify(_) => true
    case Fire(call) => call in s.pending
    case Started(_) => s.connecting > 0
    case Answered(_) => s.out
    case Closed => s.active
    case AtClient(client, what) => client in s.clients && Oneshots.Possible(client, what)
    case TokenOutcome(outcome) => outcome in s.outcomes
  }

  function Fired(s: Sender, call: CallOut): Sender {
    match call
    case SendMessage => AfterSend(s)
    case StartConnection => AfterStart(s)
    case GetAccessToken => AfterGetToken(s)
    case Enqueue(note) => AfterEnqueue(s, note)
  }

  function ClientMoved(s: Sender, client: Client, what: ClientEvent): Sender {
    var (client', outcome) := After(client, what);
    s.(clients := s.clients - multiset{client} + multiset{client'},
       outcomes := s.outcomes + if outcome.Some? then multiset{outcome.value} else multiset{})
  }

  function Step(s: Sender, ev: Event): Sender
    requires Possible(s, ev)
  {
    match ev
    case Notify(note) => Scheduled(s, Enqueue(note))
    case Fire(call) => Fired(s.(pending := s.pending - multiset{call}), call)
    case Started(code) => AfterStarted(s.(connecting := s.connecting - 1), code)
    case Answered(code) => AfterResponse(s, code)
    case Closed => AfterClose(s)
    case AtClient(client, what) => ClientMoved(s, client, what)
    case TokenOutcome(outcome) => AfterToken(s.(outcomes := s.outcomes - multiset{outcome}), outcome)
  }

  // ---------------------------------------------------------------- histories

  /** A message that has left the queue, with the codes of all responses it got. */
  datatype Done = Done(note: Notification, codes: seq<int>)

  /** The messages enqueued; those done; the codes the head of the queue has got so far; whether
      a token outcome has ended in an error, or brought an object without a token; whether the
      token has been refused since it was brought; and the token last brought. */
  datatype History = History(enqueued: seq<Notification>, done: seq<Done>, codes: seq<int>, fatal: bool, tokenless: bool,
                             expired: bool, token: Option<Bytes>)

  const NOTHING := History([], [], [], false, false, false, None)

  predicate Fatal(outcome: Outcome) {
    outcome.code == BAD_REQUEST || outcome.code == UNAUTHORIZED || (outcome.code == OK && outcome.entity == Unreadable)
  }

  predicate Tokenless(outcome: Outcome) {
    outcome.code == OK && outcome.entity == Readable(None)
  }

  /** An outcome that brings a token, or an object that has none. */
  predicate Renews(outcome: Outcome) {
    outcome.code == OK && outcome.entity.Readable?
  }

  /** Whether a response is the last one for the head of the queue. */
  predicate Final(s: Sender, code: int) {
    s.queue != [] && (code == OK || (code == NOT_FOUND && s.queue[0].attempts <= 1))
  }

  function NotedToken(h: History, outcome: Outcome): History {
    h.(fatal := h.fatal || Fatal(outcome), tokenless := h.tokenless || Tokenless(outcome),
       expired := h.expired && !Renews(outcome), token := if Renews(outcome) then outcome.entity.token else h.token)
  }

  function Noted(h: History, s: Sender, ev: Event): History {
    match ev
    case Fire(call) => if call.Enqueue? then h.(enqueued := h.enqueued + [call.note]) else h
    case Answered(code) =>
      var codes := h.codes + [code];
      if Final(s, code) then h.(done := h.done + [Done(s.queue[0].note, codes)], codes := [])
      else h.(codes := codes, expired := h.expired || code == UNAUTHORIZED)
    case TokenOutcome(outcome) => NotedToken(h, outcome)
    case _ => h
  }

  // ---------------------------------------------------------------- what every run keeps

  function TokenDrivers(s: Sender): nat {
    s.pending[GetAccessToken] + s.clients[NEW_CLIENT] + s.clients[ASKED] + |s.outcomes|
  }

  function SendDrivers(s: Sender): nat {
    s.pending[SendMessage] + s.pending[StartConnection] + s.connecting + if s.requested then 1 else 0
  }

  /** Everything that, by the sender's fields, will move the queue on. */
  function Drivers(s: Sender): nat {
    TokenDrivers(s) + SendDrivers(s)
  }

  /** Everything that really will, a close of the connection aside. */
  function Underway(s: Sender): nat {
    TokenDrivers(s) + s.pending[SendMessage] + s.pending[StartConnection] + s.connecting + if s.out then 1 else 0
  }

  predicate OneDriver(s: Sender, h: History) {
    && Drivers(s) == (if s.queue == [] || h.fatal then 0 else 1)
    && (h.fatal ==> s.queue != [])
  }

  predicate ClientsSound(s: Sender) {
    forall c :: c in s.clients ==> Sound(c)
  }

  /** A request is out only on a connection, connections are started only when there is none,
      and nothing of this happens without a token. */
  predicate Connected(s: Sender, h: History) {
    && (s.requested ==> s.active)
    && (s.connecting > 0 || s.pending[StartConnection] > 0 ==> !s.active)
    && (if h.tokenless then Barren(s) else (s.requested <==> s.out) && (s.accessToken == None ==> SendDrivers(s) == 0))
  }

  /** There is no token, and nothing under way that would bring one. */
  predicate Barren(s: Sender) {
    s.accessToken == None && TokenDrivers(s) == 0 && s.queue != [] && !s.out
  }

  function Notes(queue: seq<Entry>): seq<Notification> {
    if queue == [] then [] else [queue[0].note] + Notes(queue[1..])
  }

  function DoneNotes(done: seq<Done>): seq<Notification> {
    if done == [] then [] else DoneNotes(done[..|done| - 1]) + [done[|done| - 1].note]
  }

  /** First in, first out. */
  predicate InOrder(s: Sender, h: History) {
    h.enqueued == DoneNotes(h.done) + Notes(s.queue)
  }

  function NotFounds(codes: seq<int>): nat {
    if codes == [] then 0
    else NotFounds(codes[..|codes| - 1]) + if codes[|codes| - 1] == NOT_FOUND then 1 else 0
  }

  /** A message leaves at the first 200 or at the third 404, whichever is first. */
  predicate Settled(codes: seq<int>) {
    && codes != []
    && OK !in codes[..|codes| - 1]
    && (codes[|codes| - 1] == OK || codes[|codes| - 1] == NOT_FOUND)
    && NotFounds(codes) <= ATTEMPTS
    && (codes[|codes| - 1] == NOT_FOUND <==> NotFounds(codes) == ATTEMPTS)
  }

  /** The head of the queue has as many attempts left as it has not been refused. */
  predicate Attempts(s: Sender, h: History) {
    && (s.queue == [] ==> h.codes == [])
    && (s.queue != [] ==> s.queue[0].attempts == ATTEMPTS - NotFounds(h.codes) > 0 && OK !in h.codes)
    && (forall i :: 0 < i < |s.queue| ==> s.queue[i].attempts == ATTEMPTS)
    && (forall d :: d in h.done ==> Settled(d.codes))
  }

  /** The callbacks of messages that have left, with the code that settled them. */
  function Callbacks(done: seq<Done>): seq<(nat, int)>
    requires forall d :: d in done ==> d.codes != []
  {
    if done == [] then []
    else
      var d := done[|done| - 1];
      Callbacks(done[..|done| - 1]) +
      (if d.note.callback.Some? then [(d.note.callback.value, d.codes[|d.codes| - 1])] else [])
  }

  predicate CalledBack(s: Sender, h: History) {
    (forall d :: d in h.done ==> Settled(d.codes)) && s.ran == Callbacks(h.done)
  }

  /** The request that is out is for the head of the queue, with the token there is. */
  predicate AsksForHead(s: Sender) {
    s.out ==>
      && s.queue != [] && s.sent != []
      && s.sent[|s.sent| - 1].note == s.queue[0].note && Some(s.sent[|s.sent| - 1].token) == s.accessToken
  }

  /** The token is the one last brought; once it is refused, nothing leads to sending. */
  predicate Renewing(s: Sender, h: History) {
    && s.accessToken == h.token
    && (h.expired ==> s.queue != [] && SendDrivers(s) == 0 && !s.out && !h.tokenless)
  }

  predicate Driven(s: Sender, h: History) {
    OneDriver(s, h) && Connected(s, h) && AsksForHead(s) && ClientsSound(s) && Renewing(s, h)
  }

  predicate Settling(s: Sender, h: History) {
    InOrder(s, h) && Attempts(s, h) && CalledBack(s, h)
  }

  predicate Invariant(s: Sender, h: History) {
    Driven(s, h) && Settling(s, h)
  }

  // ---------------------------------------------------------------- every step keeps the driver

  lemma DequeueDrives(s: Sender, h: History, code: int)
    requires s.queue != [] && Drivers(s) == 0 && !h.fatal && !h.tokenless && Connected(s, h) && !s.requested && s.active
    requires s.accessToken != None && ClientsSound(s) && s.accessToken == h.token && !h.expired
    ensures Driven(Dequeued(s, code), h)
  {
  }

  lemma RefusalDrives(s: Sender, h: History)
    requires s.queue != [] && Drivers(s) == 0 && !h.fatal && !h.tokenless && Connected(s, h) && !s.requested && s.active
    requires s.accessToken != None && ClientsSound(s) && s.accessToken == h.token && !h.expired
    ensures var less := s.(queue := [s.queue[0].(attempts := s.queue[0].attempts - 1)] + s.queue[1..]);
      Driven(if less.queue[0].attempts > 0 then Scheduled(less, SendMessage) else Dequeued(less, NOT_FOUND), h)
  {
    var less := s.(queue := [s.queue[0].(attempts := s.queue[0].attempts - 1)] + s.queue[1..]);
    assert Drivers(less) == 0;
    if less.queue[0].attempts <= 0 {
      DequeueDrives(less, h, NOT_FOUND);
    }
  }

  lemma AnswerDrives(s: Sender, h: History, code: int)
    requires Driven(s, h) && s.out
    ensures Driven(AfterResponse(s, code), Noted(h, s, Answered(code)))
  {
    var idle := s.(requested := false, out := false);
    assert Drivers(idle) == 0;
    if code == OK {
      DequeueDrives(idle, Noted(h, s, Answered(code)), code);
    } else if code == NOT_FOUND {
      RefusalDrives(idle, Noted(h, s, Answered(code)));
    }
  }

  lemma SendDrives(s: Sender, h: History)
    requires s.queue != [] && Drivers(s) == 0 && !h.fatal && Connected(s, h) && ClientsSound(s)
    requires (s.accessToken == None ==> h.tokenless) && s.accessToken == h.token && !h.expired
    ensures Driven(AfterSend(s), h)
  {
  }

  lemma TokenDrives(s: Sender, h: History, outcome: Outcome)
    requires Driven(s, h) && outcome in s.outcomes
    ensures Driven(Step(s, TokenOutcome(outcome)), Noted(h, s, TokenOutcome(outcome)))
  {
    var taken := s.(outcomes := s.outcomes - multiset{outcome});
    assert |taken.outcomes| == |s.outcomes| - 1;
    assert s.queue != [] && !h.fatal && !h.tokenless && !s.requested;
    if outcome.code == OK && outcome.entity.Readable? {
      SendDrives(taken.(accessToken := outcome.entity.token), NotedToken(h, outcome));
    }
  }

  lemma ClientCounts(clients: multiset<Client>, client: Client, client': Client)
    requires client in clients && client != client'
    ensures var moved := clients - multiset{client} + multiset{client'};
      && moved[NEW_CLIENT] == clients[NEW_CLIENT] - (if client == NEW_CLIENT then 1 else 0) +
           (if client' == NEW_CLIENT then 1 else 0)
      && moved[ASKED] == clients[ASKED] - (if client == ASKED then 1 else 0) + (if client' == ASKED then 1 else 0)
      && forall c :: c in moved ==> c in clients || c == client'
  {
  }

  lemma OutcomeCount(outcomes: multiset<Outcome>, outcome: Option<Outcome>)
    ensures |outcomes + if outcome.Some? then multiset{outcome.value} else multiset{}| ==
            |outcomes| + if outcome.Some? then 1 else 0
  {}

  /** A client that is still unanswered drives the sender, and after that its outcome does. */
  lemma ClientKeepsCount(s: Sender, client: Client, client': Client, outcome: Option<Outcome>)
    requires client in s.clients && client' != client && client' != NEW_CLIENT && (client' == ASKED ==> client == NEW_CLIENT)
    requires outcome.Some? <==> (client == NEW_CLIENT || client == ASKED) && client' != ASKED
    ensures TokenDrivers(s.(clients := s.clients - multiset{client} + multiset{client'},
                            outcomes := s.outcomes + if outcome.Some? then multiset{outcome.value} else multiset{})) ==
            TokenDrivers(s)
  {
    ClientCounts(s.clients, client, client');
    OutcomeCount(s.outcomes, outcome);
  }

  /** A step of the token request leaves the sender's own fields alone. */
  lemma TokenStepDrives(s: Sender, s': Sender, h: History)
    requires Driven(s, h) && ClientsSound(s') && TokenDrivers(s') == TokenDrivers(s)
    requires s' == s.(clients := s'.clients, outcomes := s'.outcomes)
    ensures Driven(s', h)
  {
    assert SendDrivers(s') == SendDrivers(s);
  }

  lemma ClientDrives(s: Sender, h: History, client: Client, what: ClientEvent)
    requires Driven(s, h) && Possible(s, AtClient(client, what))
    ensures Driven(ClientMoved(s, client, what), h)
  {
    OneEvent(client, what);
    var (client', outcome) := After(client, what);
    ClientCounts(s.clients, client, client');
    ClientKeepsCount(s, client, client', outcome);
    TokenStepDrives(s, ClientMoved(s, client, what), h);
  }

  lemma LongerDrives(s: Sender, h: History, note: Notification)
    requires Driven(s, h)
    ensures Driven(AfterEnqueue(s, note), h)
  {
    var longer := s.(queue := s.queue + [Entry(ATTEMPTS, note)]);
    assert Drivers(longer) == Drivers(s);
    if s.queue == [] && s.accessToken != None {
      SendDrives(longer, h);
    }
  }

  lemma EnqueueDrives(s: Sender, h: History, note: Notification)
    requires Driven(s, h) && Enqueue(note) in s.pending
    ensures Driven(Step(s, Fire(Enqueue(note))), Noted(h, s, Fire(Enqueue(note))))
  {
    var taken := s.(pending := s.pending - multiset{Enqueue(note)});
    assert Driven(taken, h);
    LongerDrives(taken, h.(enqueued := h.enqueued + [note]), note);
  }

  lemma FireDrives(s: Sender, h: History, call: CallOut)
    requires Driven(s, h) && call in s.pending
    ensures Driven(Step(s, Fire(call)), Noted(h, s, Fire(call)))
  {
    var taken := s.(pending := s.pending - multiset{call});
    match call
    case SendMessage => SendDrives(taken, h);
    case StartConnection =>
    case GetAccessToken =>
    case Enqueue(note) => EnqueueDrives(s, h, note);
  }

  lemma ConnectionDrives(s: Sender, h: History, code: int)
    requires Driven(s, h) && s.connecting > 0
    ensures Driven(AfterStarted(s.(connecting := s.connecting - 1), code), h)
  {
  }

  lemma CloseDrives(s: Sender, h: History)
    requires Driven(s, h)
    ensures Driven(AfterClose(s), h)
  {
  }

  lemma StepDrives(s: Sender, h: History, ev: Event)
    requires Driven(s, h) && Possible(s, ev)
    ensures Driven(Step(s, ev), Noted(h, s, ev))
  {
    match ev
    case Notify(_) =>
    case Fire(call) => FireDrives(s, h, call);
    case Started(code) => ConnectionDrives(s, h, code);
    case Answered(code) => AnswerDrives(s, h, code);
    case Closed => CloseDrives(s, h);
    case AtClient(client, what) => ClientDrives(s, h, client, what);
    case TokenOutcome(outcome) => TokenDrives(s, h, outcome);
  }

  // ---------------------------------------------------------------- every step keeps the order

  lemma {:induction false} NotesAppend(queue: seq<Entry>, entry: Entry)
    ensures Notes(queue + [entry]) == Notes(queue) + [entry.note]
  {
    if queue != [] {
      NotesAppend(queue[1..], entry);
      assert (queue + [entry])[1..] == queue[1..] + [entry];
    }
  }

  lemma LongerSettles(s: Sender, h: History, note: Notification, s': Sender)
    requires Settling(s, h) && s'.queue == s.queue + [Entry(ATTEMPTS, note)] && s'.ran == s.ran
    ensures Settling(s', h.(enqueued := h.enqueued + [note]))
  {
    NotesAppend(s.queue, Entry(ATTEMPTS, note));
    assert NotFounds([]) == 0;
    assert CalledBack(s', h.(enqueued := h.enqueued + [note]));
  }

  lemma EnqueueSettles(s: Sender, h: History, note: Notification)
    requires Settling(s, h)
    ensures Settling(AfterEnqueue(s, note), h.(enqueued := h.enqueued + [note]))
  {
    LongerSettles(s, h, note, AfterEnqueue(s, note));
  }

  /** A final response takes the head off the queue and runs its callback, and only that. */
  lemma FinalLeaves(s: Sender, code: int)
    requires Final(s, code)
    ensures AfterResponse(s, code).queue == s.queue[1..]
    ensures AfterResponse(s, code).ran == CallbackRun(s, code).ran
  {
  }

  lemma FinalCodes(s: Sender, h: History, code: int)
    requires Attempts(s, h) && s.queue != [] && Final(s, code)
    ensures Settled(h.codes + [code])
  {
    var codes := h.codes + [code];
    assert codes[..|codes| - 1] == h.codes;
  }

  lemma CallbacksStep(done: seq<Done>, d: Done)
    requires d.codes != [] && forall d :: d in done ==> d.codes != []
    ensures Callbacks(done + [d]) ==
            Callbacks(done) + if d.note.callback.Some? then [(d.note.callback.value, d.codes[|d.codes| - 1])] else []
    ensures DoneNotes(done + [d]) == DoneNotes(done) + [d.note]
  {
    assert (done + [d])[..|done|] == done;
  }

  lemma LeavingOrder(done: seq<Done>, queue: seq<Entry>, d: Done)
    requires queue != [] && d.note == queue[0].note
    ensures DoneNotes(done) + Notes(queue) == DoneNotes(done + [d]) + Notes(queue[1..])
  {
    assert (done + [d])[..|done|] == done;
    assert DoneNotes(done) + ([d.note] + Notes(queue[1..])) == (DoneNotes(done) + [d.note]) + Notes(queue[1..]);
  }

  lemma LeavingSettles(s: Sender, h: History, code: int, s': Sender)
    requires Settling(s, h) && s.queue != [] && Settled(h.codes + [code])
    requires s'.queue == s.queue[1..] && s'.ran == CallbackRun(s, code).ran
    ensures Settling(s', h.(done := h.done + [Done(s.queue[0].note, h.codes + [code])], codes := []))
  {
    var d := Done(s.queue[0].note, h.codes + [code]);
    var h' := h.(done := h.done + [d], codes := []);
    assert InOrder(s', h') by { LeavingOrder(h.done, s.queue, d); }
    assert Attempts(s', h') by { assert NotFounds([]) == 0; }
    assert CalledBack(s', h') by {
      CallbacksStep(h.done, d);
      assert d.codes[|d.codes| - 1] == code;
    }
  }

  lemma FinalSettles(s: Sender, h: History, code: int)
    requires Settling(s, h) && s.queue != [] && Final(s, code)
    ensures Settling(AfterResponse(s, code), Noted(h, s, Answered(code)))
  {
    FinalLeaves(s, code);
    FinalCodes(s, h, code);
    LeavingSettles(s, h, code, AfterResponse(s, code));
  }

  /** Any other response leaves the queue as it is, but for an attempt that is used up by a 404. */
  lemma LaterStays(s: Sender, code: int)
    requires s.queue != [] && !Final(s, code)
    ensures AfterResponse(s, code).ran == s.ran
    ensures AfterResponse(s, code).queue ==
            if code == NOT_FOUND then [s.queue[0].(attempts := s.queue[0].attempts - 1)] + s.queue[1..] else s.queue
  {
  }

  lemma StayingSettles(s: Sender, h: History, code: int, s': Sender)
    requires Settling(s, h) && s.queue != [] && !Final(s, code) && s'.ran == s.ran
    requires s'.queue ==
             if code == NOT_FOUND then [s.queue[0].(attempts := s.queue[0].attempts - 1)] + s.queue[1..] else s.queue
    ensures Settling(s', h.(codes := h.codes + [code]))
  {
    var codes := h.codes + [code];
    assert codes[..|codes| - 1] == h.codes;
    assert Notes(s'.queue) == [s.queue[0].note] + Notes(s.queue[1..]) == Notes(s.queue);
    assert CalledBack(s', h.(codes := codes));
  }

  lemma LaterSettles(s: Sender, h: History, code: int)
    requires Settling(s, h) && s.queue != [] && !Final(s, code)
    ensures Settling(AfterResponse(s, code), Noted(h, s, Answered(code)))
  {
    LaterStays(s, code);
    StayingSettles(s, h, code, AfterResponse(s, code));
  }

  /** Steps that leave the queue and the callbacks alone. */
  lemma AsideSettles(s: Sender, s': Sender, h: History, h': History)
    requires Settling(s, h) && s'.queue == s.queue && s'.ran == s.ran && h'.enqueued == h.enqueued
    requires h'.done == h.done && h'.codes == h.codes
    ensures Settling(s', h')
  {
  }

  lemma SendingAside(s: Sender)
    ensures AfterSend(s).queue == s.queue && AfterSend(s).ran == s.ran
  {
  }

  lemma FireAside(s: Sender, call: CallOut)
    requires !call.Enqueue?
    ensures Fired(s, call).queue == s.queue && Fired(s, call).ran == s.ran
  {
    if call.SendMessage? { SendingAside(s); }
  }

  lemma TokenAside(s: Sender, outcome: Outcome)
    ensures AfterToken(s, outcome).queue == s.queue && AfterToken(s, outcome).ran == s.ran
  {
    if outcome.entity.Readable? { SendingAside(s.(accessToken := outcome.entity.token)); }
  }

  lemma ConnectionAside(s: Sender, code: int)
    ensures AfterStarted(s, code).queue == s.queue && AfterStarted(s, code).ran == s.ran
    ensures AfterClose(s).queue == s.queue && AfterClose(s).ran == s.ran
  {}

  lemma OnlyAnswersSettle(s: Sender, ev: Event)
    requires Possible(s, ev) && !ev.Answered? && !(ev.Fire? && ev.call.Enqueue?)
    ensures Step(s, ev).queue == s.queue && Step(s, ev).ran == s.ran
  {
    match ev
    case Notify(_) =>
    case Fire(call) => FireAside(s.(pending := s.pending - multiset{call}), call);
    case Started(code) => ConnectionAside(s.(connecting := s.connecting - 1), code);
    case Closed => ConnectionAside(s, 0);
    case AtClient(_, _) =>
    case TokenOutcome(outcome) => TokenAside(s.(outcomes := s.outcomes - multiset{outcome}), outcome);
  }

  lemma StepSettles(s: Sender, h: History, ev: Event)
    requires Invariant(s, h) && Possible(s, ev)
    ensures Settling(Step(s, ev), Noted(h, s, ev))
  {
    if ev.Answered? {
      if Final(s, ev.code) {
        FinalSettles(s, h, ev.code);
      } else {
        LaterSettles(s, h, ev.code);
      }
    } else if ev.Fire? && ev.call.Enqueue? {
      EnqueueSettles(s.(pending := s.pending - multiset{ev.call}), h, ev.call.note);
    } else {
      OnlyAnswersSettle(s, ev);
      AsideSettles(s, Step(s, ev), h, Noted(h, s, ev));
    }
  }

  predicate Run(s: Sender, events: seq<Event>)
    decreases |events|
  {
    events == [] || (Possible(s, events[0]) && Run(Step(s, events[0]), events[1..]))
  }

  function End(s: Sender, h: History, events: seq<Event>): (Sender, History)
    requires Run(s, events)
    decreases |events|
  {
    if events == [] then (s, h) else End(Step(s, events[0]), Noted(h, s, events[0]), events[1..])
  }

  lemma {:induction false} RunKeeps(s: Sender, h: History, events: seq<Event>)
    requires Invariant(s, h) && Run(s, events)
    ensures Invariant(End(s, h, events).0, End(s, h, events).1)
    decreases |events|
  {
    if events != [] {
      StepDrives(s, h, events[0]);
      StepSettles(s, h, events[0]);
      RunKeeps(Step(s, events[0]), Noted(h, s, events[0]), events[1..]);
    }
  }

  // ---------------------------------------------------------------- what it comes to

  ghost predicate Reached(s: Sender, h: History) {
    exists events :: Run(NEW_SENDER, events) && End(NEW_SENDER, NOTHING, events) == (s, h)
  }

  /** In every state a run can reach, whatever the order of events. */
  lemma EveryRunKeeps(s: Sender, h: History)
    requires Reached(s, h)
    ensures Invariant(s, h)
  {
    var events :| Run(NEW_SENDER, events) && End(NEW_SENDER, NOTHING, events) == (s, h);
    assert NotFounds([]) == 0 && Callbacks([]) == [];
    assert Invariant(NEW_SENDER, NOTHING);
    RunKeeps(NEW_SENDER, NOTHING, events);
  }

  /** The handler indexes a queue that is empty. */
  predicate Faults(s: Sender, ev: Event) {
    match ev
    case Fire(call) => call == SendMessage && s.active && s.queue == []
    case Answered(code) => (code == OK || code == NOT_FOUND) && s.queue == []
    case TokenOutcome(outcome) => outcome.code == OK && s.active && s.queue == []
    case _ => false
  }

  /** No handler ever indexes an empty queue. */
  lemma NeverFaults(s: Sender, h: History, ev: Event)
    requires Reached(s, h) && Possible(s, ev)
    ensures !Faults(s, ev)
  {
    EveryRunKeeps(s, h);
  }

  /** The sender is stuck, with messages queued and nothing under way, exactly when a token
      outcome has ended in an error, or has brought no token and it has since come to sending; in
      every other state with messages queued just one thing is under way. */
  lemma StuckExactly(s: Sender, h: History)
    requires Reached(s, h)
    ensures s.queue != [] && Underway(s) == 0 <==> h.fatal || (h.tokenless && s.requested)
    ensures Underway(s) <= 1
  {
    EveryRunKeeps(s, h);
  }

  lemma StoppedMeans(s: Sender, h: History)
    requires Driven(s, h) && (h.fatal || h.tokenless)
    ensures s.queue != [] && !s.out && s.outcomes == multiset{}
    ensures s.accessToken == None || s.pending[SendMessage] == 0
  {
    assert TokenDrivers(s) == 0;
  }

  lemma StoppedFire(s: Sender, call: CallOut)
    requires s.queue != [] && (call == SendMessage ==> s.accessToken == None)
    ensures Fired(s, call).sent == s.sent && Fired(s, call).ran == s.ran
  {
    match call
    case SendMessage =>
    case StartConnection =>
    case GetAccessToken =>
    case Enqueue(_) =>
  }

  lemma StoppedNoted(s: Sender, h: History, ev: Event)
    requires !ev.Answered? && !ev.TokenOutcome?
    ensures Noted(h, s, ev).done == h.done && Noted(h, s, ev).fatal == h.fatal && Noted(h, s, ev).tokenless == h.tokenless
  {
  }

  lemma StoppedStep(s: Sender, ev: Event)
    requires Possible(s, ev) && s.queue != [] && !s.out && s.outcomes == multiset{}
    requires s.accessToken == None || s.pending[SendMessage] == 0
    ensures !ev.Answered? && !ev.TokenOutcome?
    ensures Step(s, ev).sent == s.sent && Step(s, ev).ran == s.ran
  {
    if ev.Fire? {
      StoppedFire(s.(pending := s.pending - multiset{ev.call}), ev.call);
    }
  }

  /** After such an outcome no message is sent again and none leaves the queue, whatever happens. */
  lemma {:induction false} StoppedForever(s: Sender, h: History, events: seq<Event>)
    requires Invariant(s, h) && (h.fatal || h.tokenless) && Run(s, events)
    ensures var (s', h') := End(s, h, events); s'.sent == s.sent && s'.ran == s.ran && h'.done == h.done
    decreases |events|
  {
    if events != [] {
      StoppedMeans(s, h);
      StoppedStep(s, events[0]);
      StoppedNoted(s, h, events[0]);
      StepDrives(s, h, events[0]);
      StepSettles(s, h, events[0]);
      StoppedForever(Step(s, events[0]), Noted(h, s, events[0]), events[1..]);
    }
  }

  /** Every callback run is that of a message that has left the queue, in order, with the code
      that settled it: 200, or the third 404. */
  lemma CallbacksInOrder(s: Sender, h: History)
    requires Reached(s, h)
    ensures InOrder(s, h) && CalledBack(s, h)
  {
    EveryRunKeeps(s, h);
  }

  /** A request is sent with a token, over a connection, for the oldest message. */
  lemma RequestsForTheHead(s: Sender, h: History)
    requires Reached(s, h) && s.out
    ensures s.active && s.accessToken != None
    ensures s.queue != [] && s.sent != [] && |h.done| < |h.enqueued|
    ensures s.sent[|s.sent| - 1].note == s.queue[0].note == h.enqueued[|h.done|]
    ensures Some(s.sent[|s.sent| - 1].token) == h.token
  {
    EveryRunKeeps(s, h);
    DoneLength(h.done);
    assert Notes(s.queue)[0] == s.queue[0].note;
  }

  lemma {:induction false} DoneLength(done: seq<Done>)
    ensures |DoneNotes(done)| == |done|
  {
    if done != [] {
      DoneLength(done[..|done| - 1]);
    }
  }

  // ---------------------------------------------------------------- tokens

  /** From a 401 until a new token is brought, the one thing under way is getting that token,
      unless that has ended in an error. */
  lemma RefusedMeansRenewing(s: Sender, h: History)
    requires Reached(s, h) && h.expired
    ensures s.queue != [] && SendDrivers(s) == 0 && !s.out
    ensures TokenDrivers(s) == if h.fatal then 0 else 1
  {
    EveryRunKeeps(s, h);
  }

  predicate SendsOne(s: Sender, s': Sender) {
    s'.sent == s.sent || (s'.out && |s'.sent| == |s.sent| + 1 && s'.sent[..|s.sent|] == s.sent)
  }

  lemma FiredSends(s: Sender, call: CallOut)
    ensures SendsOne(s, Fired(s, call))
  {
    match call
    case SendMessage =>
    case StartConnection =>
    case GetAccessToken =>
    case Enqueue(_) =>
  }

  /** A step sends nothing, or a request that is then out. */
  lemma SendingStep(s: Sender, ev: Event)
    requires Possible(s, ev)
    ensures SendsOne(s, Step(s, ev))
  {
    match ev
    case Notify(_) =>
    case Fire(call) => FiredSends(s.(pending := s.pending - multiset{call}), call);
    case Started(_) =>
    case Answered(code) => AnswerAsks(s, code);
    case Closed =>
    case AtClient(_, _) =>
    case TokenOutcome(_) =>
  }

  /** Whatever is sent is sent once, for the oldest message, with the token last brought, and that
      token has not been refused. */
  lemma SentWithFreshToken(s: Sender, h: History, ev: Event)
    requires Reached(s, h) && Possible(s, ev)
    ensures var s', h' := Step(s, ev), Noted(h, s, ev);
      s'.sent == s.sent
      || (&& s'.queue != [] && h'.token.Some? && !h'.expired
          && s'.sent == s.sent + [Request(s'.queue[0].note, h'.token.value)])
  {
    EveryRunKeeps(s, h);
    StepDrives(s, h, ev);
    SendingStep(s, ev);
    var s' := Step(s, ev);
    if s'.sent != s.sent {
      assert s'.sent == s'.sent[..|s.sent|] + [s'.sent[|s.sent|]];
    }
  }

  lemma FiredAsks(s: Sender, call: CallOut)
    requires TokenDrivers(s) == 0 && call in s.pending
    ensures TokenDrivers(Step(s, Fire(call))) > 0 <==> call.Enqueue? && s.queue == [] && s.accessToken == None
  {
    var taken := s.(pending := s.pending - multiset{call});
    assert TokenDrivers(taken) == 0;
    match call
    case SendMessage =>
    case StartConnection =>
    case GetAccessToken =>
    case Enqueue(_) =>
  }

  lemma LeavingAsks(s: Sender, code: int)
    requires s.queue != []
    ensures TokenDrivers(Dequeued(s, code)) == TokenDrivers(s) && Dequeued(s, code).sent == s.sent
  {}

  lemma RefusalAsks(s: Sender)
    requires s.queue != []
    ensures TokenDrivers(AfterResponse(s, NOT_FOUND)) == TokenDrivers(s) && AfterResponse(s, NOT_FOUND).sent == s.sent
  {
    var idle := s.(requested := false, out := false);
    LeavingAsks(idle.(queue := [s.queue[0].(attempts := s.queue[0].attempts - 1)] + s.queue[1..]), NOT_FOUND);
  }

  lemma AnswerAsks(s: Sender, code: int)
    ensures TokenDrivers(AfterResponse(s, code)) == TokenDrivers(s) + if code == UNAUTHORIZED then 1 else 0
    ensures AfterResponse(s, code).sent == s.sent
  {
    if s.queue != [] {
      if code == NOT_FOUND {
        RefusalAsks(s);
      } else if code == OK {
        LeavingAsks(s.(requested := false, out := false), code);
      }
    }
  }

  /** A client that has had its answer brings nothing more. */
  lemma ClientAsks(s: Sender, client: Client, what: ClientEvent)
    requires TokenDrivers(s) == 0 && ClientsSound(s) && Possible(s, AtClient(client, what))
    ensures TokenDrivers(ClientMoved(s, client, what)) == 0
  {
    OneEvent(client, what);
    assert client != NEW_CLIENT && client != ASKED;
    ClientKeepsCount(s, client, After(client, what).0, After(client, what).1);
  }

  lemma ConnectionAsks(s: Sender, code: int)
    ensures TokenDrivers(AfterStarted(s, code)) == TokenDrivers(AfterClose(s)) == TokenDrivers(s)
  {}

  /** A token is asked for after a 401, and for the first message of a sender that has none yet;
      by nothing else. */
  lemma TokenAskedExactly(s: Sender, h: History, ev: Event)
    requires Reached(s, h) && Possible(s, ev) && TokenDrivers(s) == 0
    ensures TokenDrivers(Step(s, ev)) > 0 <==>
            ev == Answered(UNAUTHORIZED) || (ev.Fire? && ev.call.Enqueue? && s.queue == [] && s.accessToken == None)
  {
    match ev
    case Notify(_) =>
    case Fire(call) => FiredAsks(s, call);
    case Started(code) => ConnectionAsks(s.(connecting := s.connecting - 1), code);
    case Answered(code) => AnswerAsks(s, code);
    case Closed => ConnectionAsks(s, 0);
    case AtClient(client, what) =>
      EveryRunKeeps(s, h);
      ClientAsks(s, client, what);
    case TokenOutcome(_) =>
  }

  lemma LeavingStarts(s: Sender, code: int)
    requires s.queue != []
    ensures Dequeued(s, code).pending[StartConnection] == s.pending[StartConnection]
  {}

  lemma RefusalStarts(s: Sender)
    requires s.queue != []
    ensures AfterResponse(s, NOT_FOUND).pending[StartConnection] == s.pending[StartConnection]
  {
    var idle := s.(requested := false, out := false);
    LeavingStarts(idle.(queue := [s.queue[0].(attempts := s.queue[0].attempts - 1)] + s.queue[1..]), NOT_FOUND);
  }

  lemma ResponseStarts(s: Sender, code: int)
    ensures AfterResponse(s, code).pending[StartConnection] == s.pending[StartConnection]
  {
    if s.queue != [] {
      if code == NOT_FOUND {
        RefusalStarts(s);
      } else if code == OK {
        LeavingStarts(s.(requested := false, out := false), code);
      }
    }
  }

  lemma FiredStarts(s: Sender, call: CallOut)
    requires call in s.pending
    ensures Step(s, Fire(call)).pending[StartConnection] <= s.pending[StartConnection]
  {
    match call
    case SendMessage =>
    case StartConnection =>
    case GetAccessToken =>
    case Enqueue(_) =>
  }

  lemma ConnectionStarts(s: Sender, code: int)
    ensures AfterStarted(s, code).pending[StartConnection] == s.pending[StartConnection] + if code == OK then 0 else 1
    ensures AfterClose(s).pending[StartConnection] == s.pending[StartConnection] + if s.requested then 1 else 0
  {}

  lemma TokenStarts(s: Sender, outcome: Outcome)
    ensures AfterToken(s, outcome).pending[StartConnection] == s.pending[StartConnection]
  {}

  /** Another attempt to connect is scheduled after one that failed, and when the connection closes
      before there was a response; by nothing else. */
  lemma ReconnectsExactly(s: Sender, ev: Event)
    requires Possible(s, ev)
    ensures Step(s, ev).pending[StartConnection] > s.pending[StartConnection] <==>
            (ev.Started? && ev.code != OK) || (ev.Closed? && s.requested)
  {
    match ev
    case Notify(_) =>
    case Fire(call) => FiredStarts(s, call);
    case Started(code) => ConnectionStarts(s.(connecting := s.connecting - 1), code);
    case Answered(code) => ResponseStarts(s, code);
    case Closed => ConnectionStarts(s, 0);
    case AtClient(_, _) =>
    case TokenOutcome(outcome) => TokenStarts(s.(outcomes := s.outcomes - multiset{outcome}), outcome);
  }

  // ---------------------------------------------------------------- messages can still leave

  /** No message can leave any more: a token outcome that ends in an error, or has no token, has
      come or is on its way. */
  predicate Doomed(s: Sender, h: History) {
    h.fatal || h.tokenless || exists outcome :: outcome in s.outcomes && (Fatal(outcome) || Tokenless(outcome))
  }

  /** An outcome for which the request is made again. */
  predicate Again(s: Sender) {
    exists outcome :: outcome in s.outcomes && outcome.code !in {OK, BAD_REQUEST, UNAUTHORIZED}
  }

  /** How many events there are, at best, until the head of the queue leaves. */
  function Distance(s: Sender): nat {
    if s.out then 1
    else if s.pending[SendMessage] > 0 && s.active then 2
    else if s.connecting > 0 then 3
    else if s.pending[SendMessage] > 0 || s.pending[StartConnection] > 0 then 4
    else if Again(s) then 9
    else if s.outcomes != multiset{} then 5
    else if s.clients[ASKED] > 0 then 6
    else if s.clients[NEW_CLIENT] > 0 then 7
    else 8
  }

  /** An event after which the head of the queue is one closer to leaving. */
  predicate Advances(s: Sender, h: History, ev: Event) {
    && Possible(s, ev)
    && Step(s, ev).queue == s.queue && Distance(Step(s, ev)) < Distance(s)
    && Noted(h, s, ev).done == h.done && Noted(h, s, ev).codes == h.codes
    && !Doomed(Step(s, ev), Noted(h, s, ev))
  }

  lemma StartedAdvances(s: Sender, h: History)
    requires Driven(s, h) && !Doomed(s, h) && s.queue != [] && s.connecting > 0
    ensures Advances(s, h, Started(OK))
  {}

  lemma StartAdvances(s: Sender, h: History)
    requires Driven(s, h) && !Doomed(s, h) && s.queue != [] && s.pending[StartConnection] > 0
    ensures Advances(s, h, Fire(StartConnection))
  {}

  lemma SendAdvances(s: Sender, h: History)
    requires Driven(s, h) && !Doomed(s, h) && s.queue != [] && s.pending[SendMessage] > 0
    ensures Advances(s, h, Fire(SendMessage))
  {}

  lemma AdvanceSending(s: Sender, h: History) returns (ev: Event)
    requires Driven(s, h) && !Doomed(s, h) && s.queue != [] && !s.out && SendDrivers(s) > 0
    ensures Advances(s, h, ev)
  {
    if s.connecting > 0 {
      ev := Started(OK);
      StartedAdvances(s, h);
    } else if s.pending[SendMessage] > 0 {
      ev := Fire(SendMessage);
      SendAdvances(s, h);
    } else {
      ev := Fire(StartConnection);
      StartAdvances(s, h);
    }
  }

  lemma AdvanceOutcome(s: Sender, h: History, outcome: Outcome)
    requires Driven(s, h) && !Doomed(s, h) && s.queue != [] && SendDrivers(s) == 0 && outcome in s.outcomes
    ensures Advances(s, h, TokenOutcome(outcome))
  {
    var taken := s.(outcomes := s.outcomes - multiset{outcome});
    assert |taken.outcomes| == |s.outcomes| - 1 == 0;
    assert taken.outcomes == multiset{} && s.outcomes == taken.outcomes + multiset{outcome};
  }

  predicate Waiting(s: Sender, h: History) {
    Driven(s, h) && !Doomed(s, h) && s.queue != [] && SendDrivers(s) == 0 && s.outcomes == multiset{}
  }

  lemma AskedAdvances(s: Sender, h: History, token: Bytes)
    requires Waiting(s, h) && s.clients[ASKED] > 0
    ensures Advances(s, h, AtClient(ASKED, Response(OK, Readable(Some(token)))))
  {
    var outcome := Outcome(OK, Readable(Some(token)));
    var s' := ClientMoved(s, ASKED, Response(OK, Readable(Some(token))));
    assert s'.outcomes == multiset{outcome};
    assert !Again(s');
  }

  lemma NewAdvances(s: Sender, h: History)
    requires Waiting(s, h) && s.clients[NEW_CLIENT] > 0
    ensures s.clients[ASKED] == 0 && Advances(s, h, AtClient(NEW_CLIENT, Created(OK)))
  {
    var s' := ClientMoved(s, NEW_CLIENT, Created(OK));
    assert s'.clients == s.clients - multiset{NEW_CLIENT} + multiset{ASKED};
    assert s'.outcomes == multiset{};
  }

  lemma AskingAdvances(s: Sender, h: History)
    requires Waiting(s, h) && s.clients[ASKED] == 0 && s.clients[NEW_CLIENT] == 0
    ensures Advances(s, h, Fire(GetAccessToken))
  {
    var s' := Step(s, Fire(GetAccessToken));
    assert s'.outcomes == multiset{};
  }

  lemma AdvanceClient(s: Sender, h: History, token: Bytes) returns (ev: Event)
    requires Waiting(s, h)
    ensures Advances(s, h, ev)
  {
    if s.clients[ASKED] > 0 {
      ev := AtClient(ASKED, Response(OK, Readable(Some(token))));
      AskedAdvances(s, h, token);
    } else if s.clients[NEW_CLIENT] > 0 {
      ev := AtClient(NEW_CLIENT, Created(OK));
      NewAdvances(s, h);
    } else {
      ev := Fire(GetAccessToken);
      AskingAdvances(s, h);
    }
  }

  lemma Advance(s: Sender, h: History, token: Bytes) returns (ev: Event)
    requires Driven(s, h) && !Doomed(s, h) && s.queue != [] && !s.out
    ensures Advances(s, h, ev)
  {
    if SendDrivers(s) > 0 {
      ev := AdvanceSending(s, h);
    } else if s.outcomes != multiset{} {
      var outcome :| outcome in s.outcomes;
      AdvanceOutcome(s, h, outcome);
      ev := TokenOutcome(outcome);
    } else {
      ev := AdvanceClient(s, h, token);
    }
  }

  /** A run at whose end the head of the queue has left, with a 200. */
  lemma {:induction false} LeavingRun(s: Sender, h: History, token: Bytes) returns (events: seq<Event>)
    requires Driven(s, h) && !Doomed(s, h) && s.queue != []
    ensures Run(s, events)
    ensures End(s, h, events).1.done == h.done + [Done(s.queue[0].note, h.codes + [OK])]
    decreases Distance(s)
  {
    if s.out {
      events := [Answered(OK)];
    } else {
      var ev := Advance(s, h, token);
      StepDrives(s, h, ev);
      var rest := LeavingRun(Step(s, ev), Noted(h, s, ev), token);
      OneStep(s, h, ev, rest);
      events := [ev] + rest;
    }
  }

  lemma OnlyOutcome(outcomes: multiset<Outcome>, a: Outcome, b: Outcome)
    requires |outcomes| == 1 && a in outcomes && b in outcomes
    ensures a == b
  {
    var rest := outcomes - multiset{a};
    assert |rest| == 0;
    assert outcomes == rest + multiset{a} && rest == multiset{};
  }

  lemma OutcomesStay(s: Sender, ev: Event)
    requires Possible(s, ev) && !ev.TokenOutcome? && !ev.Answered?
    ensures forall outcome :: outcome in s.outcomes ==> outcome in Step(s, ev).outcomes
  {
  }

  lemma DoomedStep(s: Sender, h: History, ev: Event)
    requires Driven(s, h) && Doomed(s, h) && Possible(s, ev)
    ensures Doomed(Step(s, ev), Noted(h, s, ev)) && Noted(h, s, ev).done == h.done
  {
    if h.fatal || h.tokenless {
      StoppedMeans(s, h);
      StoppedStep(s, ev);
      StoppedNoted(s, h, ev);
    } else {
      var outcome :| outcome in s.outcomes && (Fatal(outcome) || Tokenless(outcome));
      assert |s.outcomes| == 1 && !s.out;
      if ev.TokenOutcome? {
        OnlyOutcome(s.outcomes, outcome, ev.outcome);
      } else {
        OutcomesStay(s, ev);
        StoppedNoted(s, h, ev);
      }
    }
  }

  lemma {:induction false} DoomedForever(s: Sender, h: History, events: seq<Event>)
    requires Driven(s, h) && Doomed(s, h) && Run(s, events)
    ensures End(s, h, events).1.done == h.done
    decreases |events|
  {
    if events != [] {
      DoomedStep(s, h, events[0]);
      StepDrives(s, h, events[0]);
      DoomedForever(Step(s, events[0]), Noted(h, s, events[0]), events[1..]);
    }
  }

  /** From any state with messages queued there is a run in which the oldest of them leaves,
      exactly when no such outcome has come or is on its way. */
  lemma LeavesExactly(s: Sender, h: History)
    requires Reached(s, h) && s.queue != []
    ensures (exists events :: Run(s, events) && End(s, h, events).1.done != h.done) <==> !Doomed(s, h)
  {
    EveryRunKeeps(s, h);
    if Doomed(s, h) {
      forall events | Run(s, events)
        ensures End(s, h, events).1.done == h.done
      {
        DoomedForever(s, h, events);
      }
    } else {
      var events := LeavingRun(s, h, []);
    }
  }

  // ---------------------------------------------------------------- a run that ends

  lemma OneStep(s: Sender, h: History, ev: Event, rest: seq<Event>)
    requires Possible(s, ev) && Run(Step(s, ev), rest)
    ensures Run(s, [ev] + rest) && End(s, h, [ev] + rest) == End(Step(s, ev), Noted(h, s, ev), rest)
  {
    assert ([ev] + rest)[1..] == rest;
  }

  /** A sender that has asked for a token, for its first message. */
  function TokenAsked(note: Notification, clients: multiset<Client>, outcomes: multiset<Outcome>): Sender {
    NEW_SENDER.(queue := [Entry(ATTEMPTS, note)], clients := clients, outcomes := outcomes)
  }

  lemma Enqueued(note: Notification)
    ensures var s := Step(NEW_SENDER, Notify(note));
      && Possible(s, Fire(Enqueue(note)))
      && Step(s, Fire(Enqueue(note))) == TokenAsked(note, multiset{NEW_CLIENT}, multiset{})
  {
    assert multiset{} + multiset{Enqueue(note)} - multiset{Enqueue(note)} == multiset{};
    assert multiset{} + multiset{NEW_CLIENT} == multiset{NEW_CLIENT};
  }

  lemma Rejected(note: Notification, outcome: Outcome)
    ensures var asked := TokenAsked(note, multiset{NEW_CLIENT}, multiset{});
      var connected := Step(asked, AtClient(NEW_CLIENT, Created(OK)));
      && connected == TokenAsked(note, multiset{ASKED}, multiset{})
      && Step(connected, AtClient(ASKED, Response(outcome.code, outcome.entity))) ==
           TokenAsked(note, multiset{ANSWERED}, multiset{outcome})
  {
    assert multiset{NEW_CLIENT} - multiset{NEW_CLIENT} + multiset{ASKED} == multiset{ASKED};
    assert multiset{ASKED} - multiset{ASKED} + multiset{ANSWERED} == multiset{ANSWERED};
    assert multiset{} + multiset{outcome} == multiset{outcome};
  }

  /** The token client connects, gets its response, and tells the sender. */
  lemma OutcomeRun(note: Notification, outcome: Outcome, h: History, rest: seq<Event>) returns (events: seq<Event>)
    requires Run(AfterToken(TokenAsked(note, multiset{ANSWERED}, multiset{}), outcome), rest)
    ensures var asked := TokenAsked(note, multiset{NEW_CLIENT}, multiset{});
      && Run(asked, events)
      && End(asked, h, events) ==
           End(AfterToken(TokenAsked(note, multiset{ANSWERED}, multiset{}), outcome), NotedToken(h, outcome), rest)
  {
    var token := TokenOutcome(outcome);
    var connect, answer := AtClient(NEW_CLIENT, Created(OK)), AtClient(ASKED, Response(outcome.code, outcome.entity));
    Rejected(note, outcome);
    var s2 := TokenAsked(note, multiset{NEW_CLIENT}, multiset{});
    var s3 := TokenAsked(note, multiset{ASKED}, multiset{});
    var s4 := TokenAsked(note, multiset{ANSWERED}, multiset{outcome});
    assert multiset{outcome} - multiset{outcome} == multiset{};
    OneStep(s4, h, token, rest);
    OneStep(s3, h, answer, [token] + rest);
    OneStep(s2, h, connect, [answer] + ([token] + rest));
    events := [connect] + ([answer] + ([token] + rest));
  }

  /** The first message, and a token request with some outcome. */
  lemma FirstOutcome(note: Notification, outcome: Outcome, rest: seq<Event>) returns (events: seq<Event>)
    requires Run(AfterToken(TokenAsked(note, multiset{ANSWERED}, multiset{}), outcome), rest)
    ensures Run(NEW_SENDER, events)
    ensures End(NEW_SENDER, NOTHING, events) ==
            End(AfterToken(TokenAsked(note, multiset{ANSWERED}, multiset{}), outcome),
                NotedToken(NOTHING.(enqueued := [note]), outcome), rest)
  {
    Enqueued(note);
    var fire := Fire(Enqueue(note));
    var s1, h1 := Step(NEW_SENDER, Notify(note)), Noted(NOTHING, NEW_SENDER, Notify(note));
    var s2, h2 := Step(s1, fire), Noted(h1, s1, fire);
    assert h2 == NOTHING.(enqueued := [note]);
    var later := OutcomeRun(note, outcome, h2, rest);
    OneStep(s1, h1, fire, later);
    OneStep(NEW_SENDER, NOTHING, Notify(note), [fire] + later);
    events := [Notify(note)] + ([fire] + later);
  }

  /** The first message, and a token request that ends in an error: rejected, or not readable. */
  lemma FatalReached(note: Notification, outcome: Outcome) returns (events: seq<Event>)
    requires Fatal(outcome)
    ensures Run(NEW_SENDER, events)
    ensures var (s, h) := End(NEW_SENDER, NOTHING, events); h.fatal && Notes(s.queue) == [note]
  {
    events := FirstOutcome(note, outcome, []);
    assert Notes([Entry(ATTEMPTS, note)]) == [note] + Notes([]);
  }

  /** The same with an answer that has no token in it: the connection is made all the same, and
      with it the sender is stuck. */
  lemma TokenlessReached(note: Notification) returns (events: seq<Event>)
    ensures Run(NEW_SENDER, events)
    ensures var (s, h) := End(NEW_SENDER, NOTHING, events);
      h.tokenless && s.requested && Underway(s) == 0 && Notes(s.queue) == [note]
  {
    var outcome := Outcome(OK, Readable(None));
    var s1 := AfterToken(TokenAsked(note, multiset{ANSWERED}, multiset{}), outcome);
    var h1 := NotedToken(NOTHING.(enqueued := [note]), outcome);
    var s2 := Step(s1, Started(OK));
    assert s2.pending == multiset{SendMessage};
    var s3 := Step(s2, Fire(SendMessage));
    assert s3.pending == multiset{};
    OneStep(s2, h1, Fire(SendMessage), []);
    OneStep(s1, h1, Started(OK), [Fire(SendMessage)] + []);
    events := FirstOutcome(note, outcome, [Started(OK)] + ([Fire(SendMessage)] + []));
    assert Notes([Entry(ATTEMPTS, note)]) == [note] + Notes([]);
  }
}
