/** Every run of the message server: each mailbox is a first-in first-out queue that loses only
    what expires, and hands out what was stacked exactly if it is never emptied while one of its
    guids is stored with another envelope. */
module MailboxRuns {
  import opened ByteStrings
  import opened Envelopes
  import opened Mailboxes
  import opened Wrappers

  datatype Event =
    | Stack(envelopes: seq<Envelope>)
    | Send(accountId: Bytes, deviceId: int, online: bool)
    | Expire(guid: Guid)

  function Step(s: Store, ev: Event): Store {
    match ev
    case Stack(envelopes) =>
      (match Stacked(s, envelopes)
       case Ok(s') => s'
       case Err(_) => s)
    case Send(accountId, deviceId, online) => Drained(s, IndexOf(deviceId, accountId), online).0
    case Expire(guid) => s.(messages := s.messages - {guid})
  }

  /** What has happened to one mailbox: the envelopes stacked for it, and for each that has
      left it since whether its guid was still stored then; the envelopes handed out; the guids
      that expired; whether a batch was taken, for any mailbox, with a guid that stood in this one;
      and whether it was emptied while one of its guids was stored with another envelope. */
  datatype History = History(stacked: seq<Envelope>, kept: seq<bool>, delivered: seq<Envelope>, expired: set<Guid>,
                             reused: bool, mistaken: bool)

  const NOTHING := History([], [], [], {}, false, false)

  function GuidSet(envelopes: seq<Envelope>): set<Guid> {
    set e | e in envelopes :: e.guid
  }

  predicate Stands(queue: seq<Guid>, envelopes: seq<Envelope>) {
    exists i :: 0 <= i < |envelopes| && envelopes[i].guid in queue
  }

  /** Some envelope in the queue is not the one that is stored under its guid. */
  predicate Mistaken(messages: map<Guid, Envelope>, queued: seq<Envelope>) {
    exists i :: 0 <= i < |queued| && queued[i].guid in messages && messages[queued[i].guid] != queued[i]
  }

  function Marks(messages: map<Guid, Envelope>, envelopes: seq<Envelope>): (r: seq<bool>)
    ensures |r| == |envelopes|
  {
    seq(|envelopes|, i requires 0 <= i < |envelopes| => envelopes[i].guid in messages)
  }

  function Noted(h: History, at: Index, s: Store, ev: Event): History
    requires |h.kept| <= |h.stacked|
  {
    match ev
    case Stack(envelopes) =>
      if Stacked(s, envelopes).Err? then h
      else
        var here := IndexOf(envelopes[0].destinationDeviceId, envelopes[0].destinationId) == at;
        h.(stacked := h.stacked + (if here then envelopes else []), reused := h.reused || Stands(QueueOf(s, at), envelopes))
    case Send(accountId, deviceId, online) =>
      if IndexOf(deviceId, accountId) != at || !online then h
      else
        var queued := h.stacked[|h.kept|..];
        h.(kept := h.kept + Marks(s.messages, queued), delivered := h.delivered + Drained(s, at, online).1,
           mistaken := h.mistaken || Mistaken(s.messages, queued))
    case Expire(guid) => h.(expired := h.expired + {guid})
  }

  // ---------------------------------------------------------------- what every run keeps

  /** Those of the envelopes that were still stored when they left. */
  function Kept(envelopes: seq<Envelope>, kept: seq<bool>): seq<Envelope>
    requires |envelopes| == |kept|
  {
    if envelopes == [] then []
    else
      var n := |envelopes| - 1;
      Kept(envelopes[..n], kept[..n]) + (if kept[n] then [envelopes[n]] else [])
  }

  predicate DistinctGuids(envelopes: seq<Envelope>) {
    forall i, j :: 0 <= i < j < |envelopes| ==> envelopes[i].guid != envelopes[j].guid
  }

  predicate ByGuid(messages: map<Guid, Envelope>) {
    forall guid :: guid in messages ==> messages[guid].guid == guid
  }

  /** A queued guid is stored, or has expired. */
  predicate StoredOrExpired(messages: map<Guid, Envelope>, queued: seq<Envelope>, expired: set<Guid>) {
    forall i :: 0 <= i < |queued| ==> queued[i].guid in messages || queued[i].guid in expired
  }

  /** What is stored under the guid of a queued envelope is that envelope. */
  predicate StoredAsStacked(messages: map<Guid, Envelope>, queued: seq<Envelope>) {
    DistinctGuids(queued) && !Mistaken(messages, queued)
  }

  /** The mailbox holds what was stacked and has not left, in order. */
  predicate Remaining(s: Store, h: History, at: Index) {
    |h.kept| <= |h.stacked| && Guids(h.stacked[|h.kept|..]) == QueueOf(s, at)
  }

  /** As many were handed out as were still stored of all that has left, and just those, in order,
      exactly if the mailbox was never emptied while a guid was stored with another envelope. */
  predicate HandedOut(h: History) {
    && |h.kept| <= |h.stacked|
    && |h.delivered| == |Kept(h.stacked[..|h.kept|], h.kept)|
    && (h.delivered == Kept(h.stacked[..|h.kept|], h.kept) <==> !h.mistaken)
    && (forall i :: 0 <= i < |h.kept| && !h.kept[i] ==> h.stacked[i].guid in h.expired)
  }

  predicate AnyExpired(envelopes: seq<Envelope>, expired: set<Guid>) {
    exists i :: 0 <= i < |envelopes| && envelopes[i].guid in expired
  }

  /** A guid was used again only after it had expired; and before that nothing is mistaken. */
  predicate Guarded(messages: map<Guid, Envelope>, h: History)
    requires |h.kept| <= |h.stacked|
  {
    if h.reused then AnyExpired(h.stacked, h.expired)
    else !h.mistaken && StoredAsStacked(messages, h.stacked[|h.kept|..])
  }

  predicate Invariant(s: Store, h: History, at: Index) {
    && ByGuid(s.messages) && Remaining(s, h, at) && HandedOut(h)
    && StoredOrExpired(s.messages, h.stacked[|h.kept|..], h.expired) && Guarded(s.messages, h)
  }

  lemma {:induction false} KeptAppend(a: seq<Envelope>, ka: seq<bool>, b: seq<Envelope>, kb: seq<bool>)
    requires |a| == |ka| && |b| == |kb|
    ensures Kept(a + b, ka + kb) == Kept(a, ka) + Kept(b, kb)
  {
    if b == [] {
      assert a + b == a && ka + kb == ka;
    } else {
      var n := |b| - 1;
      KeptAppend(a, ka, b[..n], kb[..n]);
      assert (a + b)[..|a| + n] == a + b[..n] && (ka + kb)[..|a| + n] == ka + kb[..n];
    }
  }

  lemma {:induction false} GuidsAppend(a: seq<Envelope>, b: seq<Envelope>)
    ensures Guids(a + b) == Guids(a) + Guids(b)
  {
    assert forall i :: 0 <= i < |a + b| ==> Guids(a + b)[i] == (Guids(a) + Guids(b))[i];
  }

  /** Send finds as many envelopes by guid as are still stored, and finds those that were stacked
      exactly if none is stored under the guid of another. */
  lemma {:induction false} UnexpiredAgainstKept(messages: map<Guid, Envelope>, envelopes: seq<Envelope>)
    ensures |Unexpired(messages, Guids(envelopes))| == |Kept(envelopes, Marks(messages, envelopes))|
    ensures Unexpired(messages, Guids(envelopes)) == Kept(envelopes, Marks(messages, envelopes)) <==>
            !Mistaken(messages, envelopes)
  {
    if envelopes != [] {
      var n := |envelopes| - 1;
      var front, last := envelopes[..n], envelopes[n];
      UnexpiredAgainstKept(messages, front);
      assert Guids(envelopes)[..n] == Guids(front);
      assert Marks(messages, envelopes)[..n] == Marks(messages, front);
      MistakenSnoc(messages, front, last);
      assert envelopes == front + [last];
      var found, kept := Unexpired(messages, Guids(front)), Kept(front, Marks(messages, front));
      if last.guid in messages {
        BothParts(found, [messages[last.guid]], kept, [last]);
      } else {
        BothParts(found, [], kept, []);
      }
    }
  }

  lemma MistakenSnoc(messages: map<Guid, Envelope>, front: seq<Envelope>, last: Envelope)
    ensures Mistaken(messages, front + [last]) <==>
            Mistaken(messages, front) || (last.guid in messages && messages[last.guid] != last)
  {
    var all := front + [last];
    assert all[|front|] == last;
    if Mistaken(messages, front) {
      var i :| 0 <= i < |front| && front[i].guid in messages && messages[front[i].guid] != front[i];
      assert all[i] == front[i];
    }
  }

  lemma BothParts(a: seq<Envelope>, b: seq<Envelope>, c: seq<Envelope>, d: seq<Envelope>)
    requires |a| == |c|
    ensures a + b == c + d <==> a == c && b == d
  {
    if a + b == c + d {
      assert a == (a + b)[..|a|] == c && b == (a + b)[|a|..] == d;
    }
  }

  lemma {:induction false} AddedValues(messages: map<Guid, Envelope>, envelopes: seq<Envelope>)
    requires forall i, j :: 0 <= i < j < |envelopes| ==> envelopes[i].guid != envelopes[j].guid
    ensures forall i :: 0 <= i < |envelopes| ==>
              envelopes[i].guid in Added(messages, envelopes) && Added(messages, envelopes)[envelopes[i].guid] == envelopes[i]
    ensures forall guid :: guid in messages && guid !in GuidSet(envelopes) ==>
              guid in Added(messages, envelopes) && Added(messages, envelopes)[guid] == messages[guid]
    ensures Added(messages, envelopes).Keys == messages.Keys + GuidSet(envelopes)
  {
    if envelopes != [] {
      var n := |envelopes| - 1;
      AddedValues(messages, envelopes[..n]);
      assert envelopes == envelopes[..n] + [envelopes[n]];
      assert GuidSet(envelopes) == GuidSet(envelopes[..n]) + {envelopes[n].guid};
    }
  }

  lemma StackKeepsStored(messages: map<Guid, Envelope>, queued: seq<Envelope>, envelopes: seq<Envelope>, more: seq<Envelope>)
    requires StoredAsStacked(messages, queued) && DistinctGuids(envelopes) && (more == [] || more == envelopes)
    requires !Stands(Guids(queued), envelopes)
    ensures StoredAsStacked(Added(messages, envelopes), queued + more)
  {
    AddedValues(messages, envelopes);
    forall i | 0 <= i < |queued|
      ensures queued[i].guid !in GuidSet(envelopes)
    {
      assert Guids(queued)[i] == queued[i].guid;
    }
  }

  lemma StackKeepsPresent(messages: map<Guid, Envelope>, queued: seq<Envelope>, expired: set<Guid>,
                          envelopes: seq<Envelope>, more: seq<Envelope>)
    requires StoredOrExpired(messages, queued, expired) && (more == [] || more == envelopes)
    ensures StoredOrExpired(Added(messages, envelopes), queued + more, expired)
  {
    AddedKeys(messages, envelopes);
  }

  lemma AnyExpiredGrows(envelopes: seq<Envelope>, more: seq<Envelope>, expired: set<Guid>, expired': set<Guid>)
    requires AnyExpired(envelopes, expired) && expired <= expired'
    ensures AnyExpired(envelopes + more, expired')
  {
    var i :| 0 <= i < |envelopes| && envelopes[i].guid in expired;
    assert (envelopes + more)[i] == envelopes[i];
  }

  /** A guid that stands in the queue is taken again only after it has expired. */
  lemma UsedAgain(messages: map<Guid, Envelope>, h: History, envelopes: seq<Envelope>)
    requires |h.kept| <= |h.stacked|
    requires StoredOrExpired(messages, h.stacked[|h.kept|..], h.expired) && Stands(Guids(h.stacked[|h.kept|..]), envelopes)
    requires forall i :: 0 <= i < |envelopes| ==> envelopes[i].guid !in messages
    ensures AnyExpired(h.stacked, h.expired)
  {
    var queued := h.stacked[|h.kept|..];
    var i :| 0 <= i < |envelopes| && envelopes[i].guid in Guids(queued);
    var j :| 0 <= j < |queued| && Guids(queued)[j] == envelopes[i].guid;
    assert queued[j] == h.stacked[|h.kept| + j];
  }

  lemma {:induction false} AddedByGuid(messages: map<Guid, Envelope>, envelopes: seq<Envelope>)
    requires ByGuid(messages)
    ensures ByGuid(Added(messages, envelopes))
  {
    if envelopes != [] {
      AddedByGuid(messages, envelopes[..|envelopes| - 1]);
    }
  }

  lemma QueueGrows(h: History, envelopes: seq<Envelope>)
    requires |h.kept| <= |h.stacked|
    ensures var stacked := h.stacked + envelopes;
      && stacked[..|h.kept|] == h.stacked[..|h.kept|]
      && Guids(stacked[|h.kept|..]) == Guids(h.stacked[|h.kept|..]) + Guids(envelopes)
  {
    GuidsAppend(h.stacked[|h.kept|..], envelopes);
    assert (h.stacked + envelopes)[|h.kept|..] == h.stacked[|h.kept|..] + envelopes;
  }

  lemma StackKeepsQueue(s: Store, h: History, at: Index, index: Index, envelopes: seq<Envelope>)
    requires Remaining(s, h, at)
    ensures Remaining(StackedAt(s, index, envelopes), h.(stacked := h.stacked + if index == at then envelopes else []), at)
  {
    if index == at {
      QueueGrows(h, envelopes);
    } else {
      assert h.stacked + [] == h.stacked;
      assert QueueOf(StackedAt(s, index, envelopes), at) == QueueOf(s, at);
    }
  }

  lemma HandedOutStays(h: History, more: seq<Envelope>)
    requires HandedOut(h)
    ensures HandedOut(h.(stacked := h.stacked + more))
    ensures (h.stacked + more)[|h.kept|..] == h.stacked[|h.kept|..] + more
  {
    assert (h.stacked + more)[..|h.kept|] == h.stacked[..|h.kept|];
  }

  lemma StackGuarded(messages: map<Guid, Envelope>, h: History, envelopes: seq<Envelope>, more: seq<Envelope>)
    requires |h.kept| <= |h.stacked| && Guarded(messages, h) && StoredOrExpired(messages, h.stacked[|h.kept|..], h.expired)
    requires DistinctGuids(envelopes) && (more == [] || more == envelopes)
    requires forall i :: 0 <= i < |envelopes| ==> envelopes[i].guid !in messages
    ensures Guarded(Added(messages, envelopes),
                    h.(stacked := h.stacked + more, reused := h.reused || Stands(Guids(h.stacked[|h.kept|..]), envelopes)))
  {
    var queued := h.stacked[|h.kept|..];
    if h.reused || Stands(Guids(queued), envelopes) {
      if !h.reused { UsedAgain(messages, h, envelopes); }
      AnyExpiredGrows(h.stacked, more, h.expired, h.expired);
    } else {
      assert StoredAsStacked(Added(messages, envelopes), (h.stacked + more)[|h.kept|..]) by {
        StackKeepsStored(messages, queued, envelopes, more);
        assert (h.stacked + more)[|h.kept|..] == queued + more;
      }
    }
  }

  lemma StackTaken(s: Store, h: History, at: Index, index: Index, envelopes: seq<Envelope>)
    requires Invariant(s, h, at) && AllNew(s, envelopes)
    ensures Invariant(StackedAt(s, index, envelopes),
                      h.(stacked := h.stacked + (if index == at then envelopes else []),
                         reused := h.reused || Stands(QueueOf(s, at), envelopes)), at)
  {
    var more := if index == at then envelopes else [];
    AddedByGuid(s.messages, envelopes);
    StackKeepsQueue(s, h, at, index, envelopes);
    HandedOutStays(h, more);
    StackKeepsPresent(s.messages, h.stacked[|h.kept|..], h.expired, envelopes, more);
    StackGuarded(s.messages, h, envelopes, more);
  }

  lemma StackKeeps(s: Store, h: History, at: Index, envelopes: seq<Envelope>)
    requires Invariant(s, h, at)
    ensures Invariant(Step(s, Stack(envelopes)), Noted(h, at, s, Stack(envelopes)), at)
  {
    if Stacked(s, envelopes).Ok? {
      var index := IndexOf(envelopes[0].destinationDeviceId, envelopes[0].destinationId);
      StackTaken(s, h, at, index, envelopes);
    }
  }

  lemma SendHandsOut(messages: map<Guid, Envelope>, h: History, h': History)
    requires HandedOut(h) && StoredOrExpired(messages, h.stacked[|h.kept|..], h.expired)
    requires var queued := h.stacked[|h.kept|..];
      h' == h.(kept := h.kept + Marks(messages, queued), delivered := h.delivered + Unexpired(messages, Guids(queued)),
               mistaken := h.mistaken || Mistaken(messages, queued))
    ensures HandedOut(h')
  {
    var front, queued := h.stacked[..|h.kept|], h.stacked[|h.kept|..];
    var marks := Marks(messages, queued);
    assert h.stacked[..|h'.kept|] == front + queued;
    KeptAppend(front, h.kept, queued, marks);
    UnexpiredAgainstKept(messages, queued);
    BothParts(h.delivered, Unexpired(messages, Guids(queued)), Kept(front, h.kept), Kept(queued, marks));
    forall i | 0 <= i < |h'.kept| && !h'.kept[i]
      ensures h.stacked[i].guid in h.expired
    {
      if i >= |h.kept| { assert queued[i - |h.kept|] == h.stacked[i]; }
    }
  }

  lemma SendKeeps(s: Store, h: History, at: Index, ev: Event)
    requires Invariant(s, h, at) && ev.Send?
    ensures Invariant(Step(s, ev), Noted(h, at, s, ev), at)
  {
    if ev.online && IndexOf(ev.deviceId, ev.accountId) == at {
      var h' := Noted(h, at, s, ev);
      assert Drained(s, at, true).1 == Unexpired(s.messages, Guids(h.stacked[|h.kept|..]));
      SendHandsOut(s.messages, h, h');
      assert h'.stacked[|h'.kept|..] == [];
    }
  }

  lemma ExpireKeeps(messages: map<Guid, Envelope>, h: History, guid: Guid)
    requires HandedOut(h) && StoredOrExpired(messages, h.stacked[|h.kept|..], h.expired) && Guarded(messages, h)
    ensures var messages', h' := messages - {guid}, h.(expired := h.expired + {guid});
      HandedOut(h') && StoredOrExpired(messages', h'.stacked[|h'.kept|..], h'.expired) && Guarded(messages', h')
  {
    if h.reused {
      AnyExpiredGrows(h.stacked, [], h.expired, h.expired + {guid});
      assert h.stacked + [] == h.stacked;
    }
  }

  lemma StepKeeps(s: Store, h: History, at: Index, ev: Event)
    requires Invariant(s, h, at)
    ensures Invariant(Step(s, ev), Noted(h, at, s, ev), at)
  {
    match ev
    case Stack(envelopes) => StackKeeps(s, h, at, envelopes);
    case Send(_, _, _) => SendKeeps(s, h, at, ev);
    case Expire(guid) => ExpireKeeps(s.messages, h, guid);
  }

  /** Any sequence of events can happen. */
  function End(s: Store, h: History, at: Index, events: seq<Event>): (Store, History)
    requires |h.kept| <= |h.stacked|
    decreases |events|
  {
    if events == [] then (s, h) else End(Step(s, events[0]), Noted(h, at, s, events[0]), at, events[1..])
  }

  lemma {:induction false} RunKeeps(s: Store, h: History, at: Index, events: seq<Event>)
    requires Invariant(s, h, at)
    ensures Invariant(End(s, h, at, events).0, End(s, h, at, events).1, at)
    decreases |events|
  {
    if events != [] {
      StepKeeps(s, h, at, events[0]);
      RunKeeps(Step(s, events[0]), Noted(h, at, s, events[0]), at, events[1..]);
    }
  }

  // ---------------------------------------------------------------- what it comes to

  ghost predicate Reached(s: Store, h: History, at: Index) {
    exists events :: End(EMPTY, NOTHING, at, events) == (s, h)
  }

  lemma EveryRunKeeps(s: Store, h: History, at: Index)
    requires Reached(s, h, at)
    ensures Invariant(s, h, at)
  {
    var events :| End(EMPTY, NOTHING, at, events) == (s, h);
    assert Invariant(EMPTY, NOTHING, at);
    RunKeeps(EMPTY, NOTHING, at, events);
  }

  lemma {:induction false} KeptAll(envelopes: seq<Envelope>, kept: seq<bool>)
    requires |envelopes| == |kept| && forall i :: 0 <= i < |kept| ==> kept[i]
    ensures Kept(envelopes, kept) == envelopes
  {
    if envelopes != [] {
      KeptAll(envelopes[..|envelopes| - 1], kept[..|kept| - 1]);
    }
  }

  /** As long as nothing stacked for it has expired, a mailbox loses nothing: what was handed
      out and what it holds is what was stacked, in order. */
  lemma LosslessUntilExpiry(s: Store, h: History, at: Index)
    requires Reached(s, h, at) && !AnyExpired(h.stacked, h.expired)
    ensures |h.delivered| <= |h.stacked| && h.delivered == h.stacked[..|h.delivered|]
    ensures QueueOf(s, at) == Guids(h.stacked[|h.delivered|..])
  {
    EveryRunKeeps(s, h, at);
    KeptAll(h.stacked[..|h.kept|], h.kept);
  }

  lemma {:induction false} KeptDistinct(envelopes: seq<Envelope>, kept: seq<bool>)
    requires |envelopes| == |kept| && DistinctGuids(envelopes)
    ensures forall e :: e in Kept(envelopes, kept) ==> e in envelopes
    ensures DistinctGuids(Kept(envelopes, kept))
  {
    if envelopes != [] {
      var n := |envelopes| - 1;
      KeptDistinct(envelopes[..n], kept[..n]);
      var front := Kept(envelopes[..n], kept[..n]);
      forall i | 0 <= i < |front|
        ensures front[i].guid != envelopes[n].guid
      {
        assert front[i] in envelopes[..n];
      }
    }
  }

  /** Each time an envelope is stacked it is handed out at most once, in order, from the mailbox
      it was stacked for -- exactly if the mailbox was never emptied while one of its guids was
      stored with another envelope. What is not handed out has expired in any case. */
  lemma HandedOutExactly(s: Store, h: History, at: Index)
    requires Reached(s, h, at)
    ensures |h.kept| <= |h.stacked| && QueueOf(s, at) == Guids(h.stacked[|h.kept|..])
    ensures |h.delivered| == |Kept(h.stacked[..|h.kept|], h.kept)|
    ensures h.delivered == Kept(h.stacked[..|h.kept|], h.kept) <==> !h.mistaken
    ensures forall i :: 0 <= i < |h.kept| && !h.kept[i] ==> h.stacked[i].guid in h.expired
  {
    EveryRunKeeps(s, h, at);
  }

  /** So it is as long as no batch is taken with a guid that stands in the mailbox. */
  lemma HandedOutOnce(s: Store, h: History, at: Index)
    requires Reached(s, h, at) && !h.reused
    ensures |h.kept| <= |h.stacked| && h.delivered == Kept(h.stacked[..|h.kept|], h.kept)
    ensures DistinctGuids(h.stacked) ==> DistinctGuids(h.delivered)
  {
    EveryRunKeeps(s, h, at);
    if DistinctGuids(h.stacked) {
      KeptDistinct(h.stacked[..|h.kept|], h.kept);
    }
  }

  // ---------------------------------------------------------------- giving back

  /** A batch is taken exactly when it has different guids and none of them is stored. */
  lemma TakenExactly(s: Store, envelopes: seq<Envelope>)
    ensures Stacked(s, envelopes).Ok? <==>
            envelopes != [] && DistinctGuids(envelopes) && forall e :: e in envelopes ==> e.guid !in s.messages
  {
    if Stacked(s, envelopes).Ok? {
      forall e | e in envelopes
        ensures e.guid !in s.messages
      {
        var i :| 0 <= i < |envelopes| && envelopes[i] == e;
      }
    }
  }

  /** Some envelopes expire, one after another. */
  function Expiries(s: Store, guids: seq<Guid>): Store
    decreases |guids|
  {
    if guids == [] then s else Expiries(Step(s, Expire(guids[0])), guids[1..])
  }

  lemma {:induction false} ExpiriesLeave(s: Store, guids: seq<Guid>)
    ensures Expiries(s, guids).mboxes == s.mboxes
    ensures forall guid :: guid in Expiries(s, guids).messages <==> guid in s.messages && guid !in guids
    decreases |guids|
  {
    if guids != [] {
      ExpiriesLeave(Step(s, Expire(guids[0])), guids[1..]);
    }
  }

  lemma {:induction false} UnexpiredIn(messages: map<Guid, Envelope>, queue: seq<Guid>, e: Envelope)
    requires e in Unexpired(messages, queue)
    ensures exists guid :: guid in queue && guid in messages && messages[guid] == e
  {
    var n := |queue| - 1;
    if queue[n] in messages && messages[queue[n]] == e {
      assert queue[n] in queue;
    } else {
      UnexpiredIn(messages, queue[..n], e);
    }
  }

  /** The batch that a mailbox hands out is stored still, and has different guids as long as
      none was taken while it stood there. */
  lemma HandedOutStored(s: Store, h: History, at: Index)
    requires Reached(s, h, at)
    ensures forall e :: e in Drained(s, at, true).1 ==> e.guid in s.messages
    ensures !h.reused ==> DistinctGuids(Drained(s, at, true).1)
  {
    EveryRunKeeps(s, h, at);
    forall e | e in Drained(s, at, true).1
      ensures e.guid in s.messages
    {
      UnexpiredIn(s.messages, QueueOf(s, at), e);
    }
    if !h.reused {
      var rest := h.stacked[|h.kept|..];
      UnexpiredAgainstKept(s.messages, rest);
      KeptDistinct(rest, Marks(s.messages, rest));
    }
  }

  /** An envelope that was handed out stays stored until it expires. So what a mailbox has handed
      out is taken back, as when an endpoint closes at once, exactly when all of it has expired
      and no guid is in it twice. */
  lemma TakenBackExactly(s: Store, h: History, at: Index, guids: seq<Guid>)
    requires Reached(s, h, at) && Drained(s, at, true).1 != []
    ensures var (s', batch) := Drained(s, at, true);
      && (Stacked(Expiries(s', guids), batch).Ok? <==> DistinctGuids(batch) && forall e :: e in batch ==> e.guid in guids)
      && (!h.reused ==> DistinctGuids(batch))
  {
    var (s', batch) := Drained(s, at, true);
    HandedOutStored(s, h, at);
    ExpiriesLeave(s', guids);
    TakenExactly(Expiries(s', guids), batch);
  }

  /** A run after which a mailbox holds an envelope that it will not take back once it has
      handed it out. */
  lemma NotTakenBack(e: Envelope)
    ensures var at := IndexOf(e.destinationDeviceId, e.destinationId);
      var (s', batch) := Drained(End(EMPTY, NOTHING, at, [Stack([e])]).0, at, true);
      batch == [e] && Stacked(s', batch) == Err(GuidExists)
  {
    var at := IndexOf(e.destinationDeviceId, e.destinationId);
    OneEnvelope(EMPTY, e);
    var s := Step(EMPTY, Stack([e]));
    assert End(EMPTY, NOTHING, at, [Stack([e])]).0 == s by {
      assert [Stack([e])][1..] == [];
    }
    assert Unexpired(s.messages, [e.guid]) == Unexpired(s.messages, []) + [e];
  }

  lemma OneEnvelope(s: Store, e: Envelope)
    requires e.guid !in s.messages
    ensures var at := IndexOf(e.destinationDeviceId, e.destinationId);
      Stacked(s, [e]) == Ok(Store(s.messages[e.guid := e], s.mboxes[at := QueueOf(s, at) + [e.guid]]))
  {
    assert [e][..0] == [] && [e][0] == e;
    assert Added(s.messages, [e]) == Added(s.messages, [])[e.guid := e];
    assert Guids([e]) == [e.guid];
    assert AllNew(s, [e]);
  }

  lemma EndStep(s: Store, h: History, at: Index, ev: Event, rest: seq<Event>)
    requires |h.kept| <= |h.stacked|
    ensures End(s, h, at, [ev] + rest) == End(Step(s, ev), Noted(h, at, s, ev), at, rest)
  {
    assert ([ev] + rest)[1..] == rest;
  }

  lemma Restacked(e: Envelope, e': Envelope)
    requires e.guid == e'.guid
    requires e.destinationDeviceId == e'.destinationDeviceId && e.destinationId == e'.destinationId
    ensures var at := IndexOf(e.destinationDeviceId, e.destinationId);
      var s1, h1 := Step(EMPTY, Stack([e])), Noted(NOTHING, at, EMPTY, Stack([e]));
      var s2, h2 := Step(s1, Expire(e.guid)), Noted(h1, at, s1, Expire(e.guid));
      var s3, h3 := Step(s2, Stack([e'])), Noted(h2, at, s2, Stack([e']));
      && QueueOf(s3, at) == [e.guid, e.guid] && e.guid in s3.messages && s3.messages[e.guid] == e'
      && h3.stacked == [e, e'] && h3.kept == [] && h3.delivered == []
  {
    var at := IndexOf(e.destinationDeviceId, e.destinationId);
    OneEnvelope(EMPTY, e);
    var s1 := Step(EMPTY, Stack([e]));
    var s2 := Step(s1, Expire(e.guid));
    assert QueueOf(s1, at) == [e.guid] && QueueOf(s2, at) == [e.guid];
    OneEnvelope(s2, e');
  }

  lemma EndOfTwo(s: Store, h: History, at: Index, a: Event, b: Event, rest: seq<Event>)
    requires |h.kept| <= |h.stacked|
    ensures var s1, h1 := Step(s, a), Noted(h, at, s, a);
      End(s, h, at, [a, b] + rest) == End(Step(s1, b), Noted(h1, at, s1, b), at, rest)
  {
    EndStep(Step(s, a), Noted(h, at, s, a), at, b, rest);
    EndStep(s, h, at, a, [b] + rest);
    assert [a] + ([b] + rest) == [a, b] + rest;
  }

  lemma UnexpiredPair(messages: map<Guid, Envelope>, guid: Guid)
    requires guid in messages
    ensures Unexpired(messages, [guid, guid]) == [messages[guid], messages[guid]]
  {
    assert [guid, guid][..1] == [guid] && [guid][..0] == [];
    assert Unexpired(messages, [guid]) == [messages[guid]];
  }

  /** A guid must not be used again for another envelope while it stands in a mailbox, even when
      the first one has expired: the new envelope is then handed out in the expired one's place,
      and again in its own. */
  lemma HandedOutTwice(e: Envelope, e': Envelope)
    requires e.guid == e'.guid && e != e'
    requires e.destinationDeviceId == e'.destinationDeviceId && e.destinationId == e'.destinationId
    ensures var at := IndexOf(e.destinationDeviceId, e.destinationId);
      var (_, h) := End(EMPTY, NOTHING, at, [Stack([e]), Expire(e.guid), Stack([e']),
                                             Send(e.destinationId, e.destinationDeviceId, true)]);
      h.mistaken && h.stacked == [e, e'] && h.delivered == [e', e']
  {
    var at := IndexOf(e.destinationDeviceId, e.destinationId);
    var send := Send(e.destinationId, e.destinationDeviceId, true);
    Restacked(e, e');
    var s1, h1 := Step(EMPTY, Stack([e])), Noted(NOTHING, at, EMPTY, Stack([e]));
    var s2, h2 := Step(s1, Expire(e.guid)), Noted(h1, at, s1, Expire(e.guid));
    var s3, h3 := Step(s2, Stack([e'])), Noted(h2, at, s2, Stack([e']));
    SentPair(s3, h3, at, send, e, e');
    EndOfTwo(s2, h2, at, Stack([e']), send, []);
    EndOfTwo(EMPTY, NOTHING, at, Stack([e]), Expire(e.guid), [Stack([e']), send] + []);
    assert [Stack([e]), Expire(e.guid)] + ([Stack([e']), send] + []) == [Stack([e]), Expire(e.guid), Stack([e']), send];
  }

  lemma SentPair(s: Store, h: History, at: Index, send: Event, e: Envelope, e': Envelope)
    requires send.Send? && send.online && at == IndexOf(send.deviceId, send.accountId)
    requires h.stacked == [e, e'] && h.kept == [] && h.delivered == [] && QueueOf(s, at) == [e.guid, e.guid]
    requires e.guid in s.messages && s.messages[e.guid] == e' != e
    ensures var h' := Noted(h, at, s, send); h'.mistaken && h'.stacked == [e, e'] && h'.delivered == [e', e']
  {
    UnexpiredPair(s.messages, e.guid);
    assert h.stacked[|h.kept|..] == [e, e'] && [e, e'][0] == e;
  }
}
