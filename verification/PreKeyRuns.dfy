/** Every run of the key server, seen from one device: from one store to the next, keys are
    handed out in the order of their numbers, each once, until none is left. */
module PreKeyRuns {
  import opened PreKeys
  import opened Wrappers

  datatype Event =
    | Store(id: Id, deviceId: int, preKeys: seq<PreKey>)
    | Take(id: Id, deviceId: int)
    | TakeAll(id: Id)
    | DeleteAccount(id: Id)
    | DeleteOne(id: Id, deviceId: int)

  function Step(keys: Keys, ev: Event): Keys {
    match ev
    case Store(id, deviceId, preKeys) => Stored(keys, id, deviceId, preKeys)
    case Take(id, deviceId) => if Has(keys, id, deviceId) then OneTaken(keys, id, deviceId) else keys
    case TakeAll(id) => if id in keys then keys[id := AllTaken(keys[id])] else keys
    case DeleteAccount(id) => keys - {id}
    case DeleteOne(id, deviceId) => if id in keys then keys[id := keys[id] - {deviceId}] else keys
  }

  /** What was last stored for a device, and what has been handed out since. */
  datatype Record = Record(stored: KeyMap, handed: seq<PreKey>)

  /** The keys of one device in the outcome of takeKeys. */
  function ForDevice(taken: seq<DeviceKey>, deviceId: int): seq<PreKey> {
    if taken == [] then []
    else
      var last := taken[|taken| - 1];
      ForDevice(taken[..|taken| - 1], deviceId) + (if last.deviceId == deviceId then [last.key] else [])
  }

  /** The keys that an event hands out for a device, as returned. */
  function Handed(keys: Keys, id: Id, deviceId: int, ev: Event): seq<PreKey> {
    match ev
    case Take(id', deviceId') =>
      if id' == id && deviceId' == deviceId && Has(keys, id, deviceId) && keys[id][deviceId] != map[] then
        [First(keys[id][deviceId])]
      else
        []
    case TakeAll(id') =>
      if id' == id && id in keys then ForDevice(Firsts(keys[id], Sorted(keys[id].Keys)), deviceId) else []
    case _ => []
  }

  function Noted(r: Option<Record>, keys: Keys, id: Id, deviceId: int, ev: Event): Option<Record> {
    match ev
    case Store(id', deviceId', preKeys) =>
      if id' == id && deviceId' == deviceId then Some(Record(KeyMapOf(preKeys), [])) else r
    case DeleteAccount(id') => if id' == id then None else r
    case DeleteOne(id', deviceId') => if id' == id && deviceId' == deviceId then None else r
    case _ => if r.Some? then Some(r.value.(handed := r.value.handed + Handed(keys, id, deviceId, ev))) else None
  }

  // ---------------------------------------------------------------- what every run keeps

  function Numbered(pkMap: KeyMap, keyId: int): PreKey
    requires keyId in pkMap
  {
    PreKey(keyId, pkMap[keyId])
  }

  /** With the stored key numbers in order: the first of them have been handed out, */
  predicate HandedFirst(r: Record, keyIds: seq<int>) {
    && |r.handed| <= |keyIds|
    && forall i :: 0 <= i < |r.handed| ==> keyIds[i] in r.stored && r.handed[i] == Numbered(r.stored, keyIds[i])
  }

  /** and the others are left. */
  predicate Split(r: Record, now: KeyMap, keyIds: seq<int>) {
    && HandedFirst(r, keyIds)
    && Sorted(now.Keys) == keyIds[|r.handed|..]
    && forall k :: k in now ==> k in r.stored && now[k] == r.stored[k]
  }

  predicate Accounted(r: Record, now: KeyMap) {
    Split(r, now, Sorted(r.stored.Keys))
  }

  predicate Invariant(r: Option<Record>, keys: Keys, id: Id, deviceId: int) {
    && (r.Some? <==> Has(keys, id, deviceId))
    && (r.Some? ==> Accounted(r.value, keys[id][deviceId]))
  }

  lemma SmallestInFront(now: KeyMap, keyIds: seq<int>, n: nat)
    requires n <= |keyIds| && Sorted(now.Keys) == keyIds[n..] && now != map[]
    ensures n < |keyIds| && keyIds[n] in now && First(now) == Numbered(now, keyIds[n]) && Sorted(Rest(now).Keys) == keyIds[n + 1..]
  {
    assert now.Keys != {};
    assert Sorted(now.Keys)[0] == Smallest(now.Keys);
    assert Rest(now).Keys == now.Keys - {Smallest(now.Keys)};
    assert Sorted(now.Keys)[1..] == Sorted(Rest(now).Keys);
  }

  lemma HandedNext(r: Record, keyIds: seq<int>)
    requires HandedFirst(r, keyIds) && |r.handed| < |keyIds| && keyIds[|r.handed|] in r.stored
    ensures HandedFirst(r.(handed := r.handed + [Numbered(r.stored, keyIds[|r.handed|])]), keyIds)
  {}

  lemma TakenFromFront(r: Record, now: KeyMap, keyIds: seq<int>)
    requires Split(r, now, keyIds) && now != map[]
    ensures Split(r.(handed := r.handed + [First(now)]), Rest(now), keyIds)
  {
    SmallestInFront(now, keyIds, |r.handed|);
    HandedNext(r, keyIds);
    assert First(now) == Numbered(r.stored, keyIds[|r.handed|]);
  }

  lemma {:induction false} OneForDevice(devices: DeviceMap, deviceIds: seq<int>, deviceId: int)
    requires forall d :: d in deviceIds ==> d in devices
    requires Ascending(deviceIds)
    ensures ForDevice(Firsts(devices, deviceIds), deviceId) ==
            if deviceId in deviceIds && devices[deviceId] != map[] then [First(devices[deviceId])] else []
  {
    if deviceIds != [] {
      var n := |deviceIds| - 1;
      NextIndex(deviceIds, n);
      OneForDevice(devices, deviceIds[..n], deviceId);
      assert deviceIds == deviceIds[..n] + [deviceIds[n]];
      if devices[deviceIds[n]] == map[] {
        assert Firsts(devices, deviceIds) == Firsts(devices, deviceIds[..n]);
      } else {
        ForDeviceStep(Firsts(devices, deviceIds[..n]), DeviceKey(deviceIds[n], First(devices[deviceIds[n]])), deviceId);
      }
    }
  }

  lemma ForDeviceStep(taken: seq<DeviceKey>, key: DeviceKey, deviceId: int)
    ensures ForDevice(taken + [key], deviceId) ==
            ForDevice(taken, deviceId) + if key.deviceId == deviceId then [key.key] else []
  {
    assert (taken + [key])[..|taken|] == taken;
  }

  /** Whichever way keys are taken, a device gives its first key or, if it has none, nothing. */
  lemma HandsOutFirst(keys: Keys, id: Id, deviceId: int, ev: Event)
    requires Has(keys, id, deviceId) && (ev.Take? || ev.TakeAll?)
    ensures Has(Step(keys, ev), id, deviceId)
    ensures var now, after := keys[id][deviceId], Step(keys, ev)[id][deviceId];
      || (Handed(keys, id, deviceId, ev) == [] && after == now)
      || (now != map[] && Handed(keys, id, deviceId, ev) == [First(now)] && after == Rest(now))
  {
    if ev.TakeAll? && ev.id == id {
      SortedAscends(keys[id].Keys);
      OneForDevice(keys[id], Sorted(keys[id].Keys), deviceId);
    }
  }

  lemma TakeKeeps(r: Record, keys: Keys, id: Id, deviceId: int, ev: Event)
    requires Has(keys, id, deviceId) && Accounted(r, keys[id][deviceId]) && (ev.Take? || ev.TakeAll?)
    ensures Has(Step(keys, ev), id, deviceId)
    ensures Accounted(r.(handed := r.handed + Handed(keys, id, deviceId, ev)), Step(keys, ev)[id][deviceId])
  {
    HandsOutFirst(keys, id, deviceId, ev);
    if Handed(keys, id, deviceId, ev) == [] {
      assert r.handed + [] == r.handed;
    } else {
      TakenFromFront(r, keys[id][deviceId], Sorted(r.stored.Keys));
    }
  }

  /** Other accounts and other devices are left alone by whatever is done to one. */
  lemma OthersUntouched(keys: Keys, ev: Event, id: Id, deviceId: int)
    requires ev.id != id || ((ev.Store? || ev.Take? || ev.DeleteOne?) && ev.deviceId != deviceId)
    ensures Has(Step(keys, ev), id, deviceId) <==> Has(keys, id, deviceId)
    ensures Has(keys, id, deviceId) ==> Step(keys, ev)[id][deviceId] == keys[id][deviceId]
  {
    match ev
    case Store(_, _, _) =>
    case Take(_, _) =>
    case TakeAll(_) =>
    case DeleteAccount(_) =>
    case DeleteOne(_, _) =>
  }

  /** Whether an event concerns the device. */
  predicate Concerns(ev: Event, id: Id, deviceId: int) {
    ev.id == id && ((ev.Store? || ev.Take? || ev.DeleteOne?) ==> ev.deviceId == deviceId)
  }

  lemma AsideKeeps(r: Option<Record>, keys: Keys, id: Id, deviceId: int, ev: Event)
    requires Invariant(r, keys, id, deviceId) && !Concerns(ev, id, deviceId)
    ensures Invariant(Noted(r, keys, id, deviceId, ev), Step(keys, ev), id, deviceId)
  {
    OthersUntouched(keys, ev, id, deviceId);
    if r.Some? {
      assert r.value.handed + [] == r.value.handed;
    }
    assert Noted(r, keys, id, deviceId, ev) == r;
  }

  lemma StepKeeps(r: Option<Record>, keys: Keys, id: Id, deviceId: int, ev: Event)
    requires Invariant(r, keys, id, deviceId)
    ensures Invariant(Noted(r, keys, id, deviceId, ev), Step(keys, ev), id, deviceId)
  {
    if !Concerns(ev, id, deviceId) {
      AsideKeeps(r, keys, id, deviceId, ev);
    } else if (ev.Take? || ev.TakeAll?) && r.Some? {
      TakeKeeps(r.value, keys, id, deviceId, ev);
    } else {
      assert Step(keys, ev) == keys || !Has(Step(keys, ev), id, deviceId) || ev.Store?;
    }
  }

  function End(r: Option<Record>, keys: Keys, id: Id, deviceId: int, events: seq<Event>): (Option<Record>, Keys)
    decreases |events|
  {
    if events == [] then (r, keys)
    else End(Noted(r, keys, id, deviceId, events[0]), Step(keys, events[0]), id, deviceId, events[1..])
  }

  lemma {:induction false} RunKeeps(r: Option<Record>, keys: Keys, id: Id, deviceId: int, events: seq<Event>)
    requires Invariant(r, keys, id, deviceId)
    ensures var (r', keys') := End(r, keys, id, deviceId, events); Invariant(r', keys', id, deviceId)
    decreases |events|
  {
    if events != [] {
      StepKeeps(r, keys, id, deviceId, events[0]);
      RunKeeps(Noted(r, keys, id, deviceId, events[0]), Step(keys, events[0]), id, deviceId, events[1..]);
    }
  }

  function Numbers(handed: seq<PreKey>): set<int> {
    set key | key in handed :: key.keyId
  }

  /** After any run: no key is handed out twice, in ascending order; the keys handed out and
      the keys left are the keys stored; and count is what is left of them. */
  lemma NoKeyTwice(id: Id, deviceId: int, events: seq<Event>)
    ensures var (r, keys) := End(None, map[], id, deviceId, events);
      && (r.Some? <==> Has(keys, id, deviceId))
      && (r.Some? ==>
            var now, stored, handed := keys[id][deviceId], r.value.stored, r.value.handed;
            && (forall i, j :: 0 <= i < j < |handed| ==> handed[i].keyId < handed[j].keyId)
            && (forall i :: 0 <= i < |handed| ==> handed[i].keyId in stored && handed[i].publicKey == stored[handed[i].keyId])
            && (forall k :: k in now ==> k in stored && now[k] == stored[k])
            && Conserved(stored, now, handed)
            && |now.Keys| + |handed| == |stored.Keys|)
  {
    RunKeeps(None, map[], id, deviceId, events);
    var (r, keys) := End(None, map[], id, deviceId, events);
    if r.Some? {
      AccountedFor(r.value, keys[id][deviceId]);
    }
  }

  lemma HandedNumbers(r: Record, now: KeyMap, keyIds: seq<int>)
    requires Split(r, now, keyIds)
    ensures forall k :: k in Numbers(r.handed) <==> k in keyIds[..|r.handed|]
  {
    var front := keyIds[..|r.handed|];
    forall k | k in front
      ensures k in Numbers(r.handed)
    {
      var i :| 0 <= i < |front| && front[i] == k;
      assert r.handed[i] in r.handed && r.handed[i].keyId == k;
    }
  }

  lemma AscendingParts(keyIds: seq<int>, n: nat)
    requires Ascending(keyIds) && n <= |keyIds|
    ensures forall k :: k in keyIds <==> k in keyIds[..n] || k in keyIds[n..]
    ensures forall k :: !(k in keyIds[..n] && k in keyIds[n..])
  {
    assert keyIds == keyIds[..n] + keyIds[n..];
  }

  /** Every stored key is either left or handed out, never both. */
  ghost predicate Conserved(stored: KeyMap, now: KeyMap, handed: seq<PreKey>) {
    forall k :: (k in stored <==> k in now || k in Numbers(handed)) && !(k in now && k in Numbers(handed))
  }

  lemma SplitOnce(r: Record, now: KeyMap, keyIds: seq<int>)
    requires Split(r, now, keyIds) && Ascending(keyIds) && forall k :: k in keyIds <==> k in r.stored.Keys
    ensures forall i, j :: 0 <= i < j < |r.handed| ==> r.handed[i].keyId < r.handed[j].keyId
    ensures Conserved(r.stored, now, r.handed)
    ensures |now.Keys| + |r.handed| == |keyIds|
  {
    HandedNumbers(r, now, keyIds);
    AscendingParts(keyIds, |r.handed|);
    forall k
      ensures k in now <==> k in keyIds[|r.handed|..]
    {
      assert k in Sorted(now.Keys) <==> k in now.Keys;
    }
    assert |Sorted(now.Keys)| == |now.Keys|;
  }

  lemma AccountedFor(r: Record, now: KeyMap)
    requires Accounted(r, now)
    ensures forall i, j :: 0 <= i < j < |r.handed| ==> r.handed[i].keyId < r.handed[j].keyId
    ensures Conserved(r.stored, now, r.handed)
    ensures |now.Keys| + |r.handed| == |r.stored.Keys|
  {
    SortedAscends(r.stored.Keys);
    SplitOnce(r, now, Sorted(r.stored.Keys));
  }
}
