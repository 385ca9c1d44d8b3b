/** The message server: envelopes by their guid, which expire, and for every device a mailbox
    with the guids of what is kept for it. */
module Mailboxes {
  import opened ByteStrings
  import opened Decimals
  import opened Envelopes
  import opened Wrappers

  type Guid = Bytes
  type Index = Bytes

  datatype StoreError = NoEnvelopes | GuidExists

  datatype Store = Store(messages: map<Guid, Envelope>, mboxes: map<Index, seq<Guid>>)

  const EMPTY := Store(map[], map[])

  /** A device's mailbox: the device number in decimal, followed by the account. */
  function IndexOf(deviceId: int, accountId: Bytes): Index {
    Decimal(deviceId) + accountId
  }

  /** Accounts have sixteen bytes, so no two devices share a mailbox. */
  lemma IndexInjective(device: int, account: Bytes, device': int, account': Bytes)
    requires |account| == 16 && |account'| == 16 && IndexOf(device, account) == IndexOf(device', account')
    ensures device == device' && account == account'
  {
    var index := IndexOf(device, account);
    assert index[..|index| - 16] == Decimal(device) && index[|index| - 16..] == account;
    assert index[..|index| - 16] == Decimal(device') && index[|index| - 16..] == account';
    DecimalInjective(device, device');
  }

  function QueueOf(s: Store, index: Index): seq<Guid> {
    if index in s.mboxes then s.mboxes[index] else []
  }

  function Guids(envelopes: seq<Envelope>): (r: seq<Guid>)
    ensures |r| == |envelopes|
    ensures forall i :: 0 <= i < |r| ==> r[i] == envelopes[i].guid
  {
    if envelopes == [] then [] else Guids(envelopes[..|envelopes| - 1]) + [envelopes[|envelopes| - 1].guid]
  }

  // ---------------------------------------------------------------- stack and send

  /** No guid is stored already, or twice in the batch. */
  predicate AllNew(s: Store, envelopes: seq<Envelope>) {
    && (forall i :: 0 <= i < |envelopes| ==> envelopes[i].guid !in s.messages)
    && (forall i, j :: 0 <= i < j < |envelopes| ==> envelopes[i].guid != envelopes[j].guid)
  }

  function Added(messages: map<Guid, Envelope>, envelopes: seq<Envelope>): map<Guid, Envelope> {
    if envelopes == [] then messages
    else
      var last := envelopes[|envelopes| - 1];
      Added(messages, envelopes[..|envelopes| - 1])[last.guid := last]
  }

  /** The whole batch goes to the mailbox of its first envelope, or nothing is changed. */
  function Stacked(s: Store, envelopes: seq<Envelope>): Result<Store, StoreError> {
    if envelopes == [] then
      Err(NoEnvelopes)
    else if !AllNew(s, envelopes) then
      Err(GuidExists)
    else
      var index := IndexOf(envelopes[0].destinationDeviceId, envelopes[0].destinationId);
      Ok(StackedAt(s, index, envelopes))
  }

  function StackedAt(s: Store, index: Index, envelopes: seq<Envelope>): Store {
    Store(Added(s.messages, envelopes), s.mboxes[index := QueueOf(s, index) + Guids(envelopes)])
  }

  /** What of a queue is still stored, in order. */
  function Unexpired(messages: map<Guid, Envelope>, queue: seq<Guid>): (r: seq<Envelope>)
    ensures forall i :: 0 <= i < |r| ==> r[i] in messages.Values
  {
    if queue == [] then []
    else
      var last := queue[|queue| - 1];
      Unexpired(messages, queue[..|queue| - 1]) + (if last in messages then [messages[last]] else [])
  }

  /** The batch that send hands to an endpoint, if any, and the store it leaves. */
  function Drained(s: Store, index: Index, online: bool): (Store, seq<Envelope>) {
    if online && QueueOf(s, index) != [] then
      (s.(mboxes := s.mboxes[index := []]), Unexpired(s.messages, QueueOf(s, index)))
    else
      (s, [])
  }

  lemma {:induction false} AddedKeys(messages: map<Guid, Envelope>, envelopes: seq<Envelope>)
    ensures forall guid :: guid in Added(messages, envelopes) <==>
                           guid in messages || exists i :: 0 <= i < |envelopes| && envelopes[i].guid == guid
  {
    if envelopes != [] {
      var front := envelopes[..|envelopes| - 1];
      AddedKeys(messages, front);
      assert forall i :: 0 <= i < |front| ==> front[i] == envelopes[i];
    }
  }

  lemma StackNone(s: Store, index: Index, envelopes: seq<Envelope>)
    ensures AllNew(s, envelopes[..0])
    ensures StackedAt(s, index, envelopes[..0]) == s.(mboxes := s.mboxes[index := QueueOf(s, index)])
  {
    assert QueueOf(s, index) + [] == QueueOf(s, index);
  }

  /** One more envelope of the batch is refused exactly when the batch is. */
  lemma NewStep(s: Store, envelopes: seq<Envelope>, i: nat)
    requires i < |envelopes| && AllNew(s, envelopes[..i])
    ensures if envelopes[i].guid in Added(s.messages, envelopes[..i]) then !AllNew(s, envelopes)
            else AllNew(s, envelopes[..i + 1])
  {
    var earlier := envelopes[..i];
    AddedKeys(s.messages, earlier);
    if envelopes[i].guid in Added(s.messages, earlier) && envelopes[i].guid !in s.messages {
      var j :| 0 <= j < |earlier| && earlier[j].guid == envelopes[i].guid;
      assert envelopes[j].guid == envelopes[i].guid;
    }
  }

  lemma StackStep(s: Store, index: Index, envelopes: seq<Envelope>, i: nat)
    requires i < |envelopes|
    ensures var now, guid := StackedAt(s, index, envelopes[..i]), envelopes[i].guid;
      StackedAt(s, index, envelopes[..i + 1]) ==
      Store(now.messages[guid := envelopes[i]], now.mboxes[index := now.mboxes[index] + [guid]])
  {
    assert envelopes[..i + 1][..i] == envelopes[..i];
    var queue := QueueOf(s, index);
    assert queue + (Guids(envelopes[..i]) + [envelopes[i].guid]) == (queue + Guids(envelopes[..i])) + [envelopes[i].guid];
  }

  class MessageServer {
    var messages: map<Guid, Envelope>
    var mboxes: map<Index, seq<Guid>>

    ghost function Value(): Store
      reads this
    {
      Store(messages, mboxes)
    }

    constructor ()
      ensures Value() == EMPTY
    {
      messages := map[];
      mboxes := map[];
    }

    /** Atomic: when an envelope's guid exists already, all that was done is undone. */
    method Stack(envelopes: seq<Envelope>) returns (r: Result<(), StoreError>)
      modifies this
      ensures match Stacked(old(Value()), envelopes)
        case Ok(s) => r == Ok(()) && Value() == s
        case Err(error) => r == Err(error) && Value() == old(Value())
    {
      if |envelopes| == 0 {
        return Err(NoEnvelopes);
      }
      var messages', mboxes' := messages, mboxes;
      var index := IndexOf(envelopes[0].destinationDeviceId, envelopes[0].destinationId);
      StackNone(Value(), index, envelopes);
      if index !in mboxes {
        mboxes := mboxes[index := []];
      }
      assert mboxes == mboxes'[index := QueueOf(old(Value()), index)];
      var i := 0;
      while i < |envelopes|
        invariant 0 <= i <= |envelopes|
        invariant AllNew(old(Value()), envelopes[..i])
        invariant Value() == StackedAt(old(Value()), index, envelopes[..i])
      {
        NewStep(old(Value()), envelopes, i);
        StackStep(old(Value()), index, envelopes, i);
        if envelopes[i].guid in messages {
          messages, mboxes := messages', mboxes';
          return Err(GuidExists);
        }
        messages := messages[envelopes[i].guid := envelopes[i]];
        mboxes := mboxes[index := mboxes[index] + [envelopes[i].guid]];
        i := i + 1;
      }
      assert envelopes[..i] == envelopes;
      r := Ok(());
    }

    method Send(accountId: Bytes, deviceId: int, online: bool) returns (envelopes: seq<Envelope>)
      modifies this
      ensures (Value(), envelopes) == Drained(old(Value()), IndexOf(deviceId, accountId), online)
    {
      envelopes := [];
      var index := IndexOf(deviceId, accountId);
      if online && index in mboxes {
        var queue := mboxes[index];
        if |queue| != 0 {
          mboxes := mboxes[index := []];
          var i := 0;
          while i < |queue|
            invariant 0 <= i <= |queue|
            invariant envelopes == Unexpired(messages, queue[..i])
          {
            assert queue[..i + 1][..i] == queue[..i];
            if queue[i] in messages {
              envelopes := envelopes + [messages[queue[i]]];
            }
            i := i + 1;
          }
          assert queue[..i] == queue;
        }
      }
    }
  }
}
