/** One-time prekeys: for every account and device, public keys by key number. Keys are taken
    smallest number first, as the indices of a mapping come out sorted. */
module PreKeys {
  import opened ByteStrings
  import opened Wrappers

  type Id = Bytes
  type KeyMap = map<int, Bytes>
  type DeviceMap = map<int, KeyMap>
  type Keys = map<Id, DeviceMap>

  /** Indexing what is not there. */
  datatype KeyError = NoAccount | NoDevice

  datatype PreKey = PreKey(keyId: int, publicKey: Bytes)

  datatype DeviceKey = DeviceKey(deviceId: int, key: PreKey)

  // ---------------------------------------------------------------- indices in order

  lemma {:induction false} SmallestExists(s: set<int>) returns (m: int)
    requires s != {}
    ensures m in s && forall x :: x in s ==> m <= x
  {
    if forall x :: x !in s {
      assert false;
    }
    var x :| x in s;
    m := x;
    var rest := s - {x};
    if rest != {} {
      var m' := SmallestExists(rest);
      assert s == rest + {x};
      if m' < m {
        m := m';
      }
    }
  }

  function Smallest(s: set<int>): (m: int)
    requires s != {}
    ensures m in s && forall x :: x in s ==> m <= x
  {
    assert exists m :: m in s && forall x :: x in s ==> m <= x by {
      var m := SmallestExists(s);
    }
    var m :| m in s && forall x :: x in s ==> m <= x;
    m
  }

  /** map_indices. */
  function Sorted(s: set<int>): (r: seq<int>)
    ensures |r| == |s|
    ensures forall x :: x in r <==> x in s
  {
    if s == {} then [] else [Smallest(s)] + Sorted(s - {Smallest(s)})
  }

  predicate Ascending(r: seq<int>) {
    forall i, j :: 0 <= i < j < |r| ==> r[i] < r[j]
  }

  lemma {:induction false} SortedAscends(s: set<int>)
    ensures Ascending(Sorted(s))
  {
    if s != {} {
      SortedAscends(s - {Smallest(s)});
    }
  }

  lemma NextIndex(indices: seq<int>, i: nat)
    requires i < |indices| && Ascending(indices)
    ensures indices[..i + 1] == indices[..i] + [indices[i]] && indices[..i + 1][..i] == indices[..i]
    ensures indices[i] !in indices[..i]
  {}

  // ---------------------------------------------------------------- the operations, as functions

  /** Of prekeys with one number, the first counts. */
  function KeyMapOf(preKeys: seq<PreKey>): KeyMap {
    if preKeys == [] then map[] else KeyMapOf(preKeys[1..])[preKeys[0].keyId := preKeys[0].publicKey]
  }

  /** A number is stored when some prekey has it, with the public key of the first that has. */
  lemma {:induction false} FirstCounts(preKeys: seq<PreKey>, i: nat)
    requires i < |preKeys| && forall j :: 0 <= j < i ==> preKeys[j].keyId != preKeys[i].keyId
    ensures preKeys[i].keyId in KeyMapOf(preKeys) && KeyMapOf(preKeys)[preKeys[i].keyId] == preKeys[i].publicKey
  {
    if i > 0 {
      assert preKeys[0].keyId != preKeys[i].keyId;
      FirstCounts(preKeys[1..], i - 1);
    }
  }

  lemma {:induction false} OnlyThose(preKeys: seq<PreKey>, keyId: int)
    requires keyId in KeyMapOf(preKeys)
    ensures exists i :: 0 <= i < |preKeys| && preKeys[i].keyId == keyId
  {
    if preKeys[0].keyId != keyId {
      OnlyThose(preKeys[1..], keyId);
      var i :| 0 <= i < |preKeys[1..]| && preKeys[1..][i].keyId == keyId;
      assert preKeys[i + 1].keyId == keyId;
    }
  }

  function Devices(keys: Keys, id: Id): DeviceMap {
    if id in keys then keys[id] else map[]
  }

  function Stored(keys: Keys, id: Id, deviceId: int, preKeys: seq<PreKey>): Keys {
    keys[id := Devices(keys, id)[deviceId := KeyMapOf(preKeys)]]
  }

  function First(pkMap: KeyMap): PreKey
    requires pkMap != map[]
  {
    PreKey(Smallest(pkMap.Keys), pkMap[Smallest(pkMap.Keys)])
  }

  function Rest(pkMap: KeyMap): KeyMap {
    if pkMap == map[] then pkMap else pkMap - {Smallest(pkMap.Keys)}
  }

  predicate Has(keys: Keys, id: Id, deviceId: int) {
    id in keys && deviceId in keys[id]
  }

  function Lacking(keys: Keys, id: Id): KeyError {
    if id in keys then NoDevice else NoAccount
  }

  function OneTaken(keys: Keys, id: Id, deviceId: int): Keys
    requires Has(keys, id, deviceId)
  {
    keys[id := keys[id][deviceId := Rest(keys[id][deviceId])]]
  }

  /** One key of every device that has any, in the order of the devices. */
  function Firsts(devices: DeviceMap, deviceIds: seq<int>): seq<DeviceKey>
    requires forall d :: d in deviceIds ==> d in devices
  {
    if deviceIds == [] then []
    else
      var n := |deviceIds| - 1;
      var d := deviceIds[n];
      Firsts(devices, deviceIds[..n]) + (if devices[d] == map[] then [] else [DeviceKey(d, First(devices[d]))])
  }

  function AllTaken(devices: DeviceMap): DeviceMap {
    map d | d in devices :: Rest(devices[d])
  }

  /** The keys of some of the devices have been taken. */
  predicate TakenOf(devices: DeviceMap, devMap: DeviceMap, taken: seq<int>) {
    && devMap.Keys == devices.Keys
    && forall d :: d in devices ==> devMap[d] == if d in taken then Rest(devices[d]) else devices[d]
  }

  predicate TakenSoFar(devices: DeviceMap, devMap: DeviceMap, result: seq<DeviceKey>, taken: seq<int>) {
    && (forall d :: d in taken ==> d in devices)
    && TakenOf(devices, devMap, taken)
    && result == Firsts(devices, taken)
  }

  /** The next device's first key, if it has one, is taken and put at the end of the result. */
  lemma TakenStep(devices: DeviceMap, devMap: DeviceMap, result: seq<DeviceKey>, taken: seq<int>, d: int)
    requires TakenSoFar(devices, devMap, result, taken) && d in devices && d !in taken
    ensures d in devMap && devMap[d] == devices[d]
    ensures if devices[d] == map[] then TakenSoFar(devices, devMap, result, taken + [d])
            else TakenSoFar(devices, devMap[d := Rest(devices[d])], result + [DeviceKey(d, First(devices[d]))], taken + [d])
  {
    assert (taken + [d])[..|taken|] == taken;
  }

  /** What takeKey and takeKeys do with the keys of one device. */
  method TakeFirst(pkMap: KeyMap) returns (rest: KeyMap, key: Option<PreKey>)
    ensures rest == Rest(pkMap)
    ensures key == if pkMap == map[] then None else Some(First(pkMap))
  {
    var keyIds := Sorted(pkMap.Keys);
    if |keyIds| == 0 {
      assert pkMap.Keys == {};
      return pkMap, None;
    }
    rest := pkMap - {keyIds[0]};
    key := Some(PreKey(keyIds[0], pkMap[keyIds[0]]));
  }

  /** The loop of takeKeys. */
  method TakeFirsts(devices: DeviceMap, deviceIds: seq<int>) returns (devMap: DeviceMap, result: seq<DeviceKey>)
    requires Ascending(deviceIds) && forall d :: d in deviceIds ==> d in devices
    ensures TakenSoFar(devices, devMap, result, deviceIds)
  {
    devMap, result := devices, [];
    var i := 0;
    while i < |deviceIds|
      invariant 0 <= i <= |deviceIds|
      invariant TakenSoFar(devices, devMap, result, deviceIds[..i])
    {
      var d := deviceIds[i];
      NextIndex(deviceIds, i);
      TakenStep(devices, devMap, result, deviceIds[..i], d);
      var rest, key := TakeFirst(devMap[d]);
      if key.Some? {
        devMap := devMap[d := rest];
        result := result + [DeviceKey(d, key.value)];
      }
      i := i + 1;
    }
    assert deviceIds[..i] == deviceIds;
  }

  // ---------------------------------------------------------------- the object

  class KeyServer {
    var keys: Keys

    constructor ()
      ensures keys == map[]
    {
      keys := map[];
    }

    method Store(id: Id, deviceId: int, preKeys: seq<PreKey>)
      modifies this
      ensures keys == Stored(old(keys), id, deviceId, preKeys)
    {
      var deviceMap := if id in keys then keys[id] else map[];
      var pkMap: KeyMap := map[];
      var i := |preKeys|;
      while i > 0
        invariant 0 <= i <= |preKeys| && pkMap == KeyMapOf(preKeys[i..])
      {
        i := i - 1;
        assert preKeys[i..][1..] == preKeys[i + 1..];
        pkMap := pkMap[preKeys[i].keyId := preKeys[i].publicKey];
      }
      assert preKeys[0..] == preKeys;
      deviceMap := deviceMap[deviceId := pkMap];
      keys := keys[id := deviceMap];
    }

    method TakeKey(id: Id, deviceId: int) returns (r: Result<Option<PreKey>, KeyError>)
      modifies this
      ensures if Has(old(keys), id, deviceId) then
                && keys == OneTaken(old(keys), id, deviceId)
                && r == Ok(var pkMap := old(keys)[id][deviceId]; if pkMap == map[] then None else Some(First(pkMap)))
              else
                keys == old(keys) && r == Err(Lacking(keys, id))
    {
      if id !in keys {
        return Err(NoAccount);
      }
      if deviceId !in keys[id] {
        return Err(NoDevice);
      }
      var rest, key := TakeFirst(keys[id][deviceId]);
      keys := keys[id := keys[id][deviceId := rest]];
      r := Ok(key);
    }

    method TakeKeys(id: Id) returns (r: Result<seq<DeviceKey>, KeyError>)
      modifies this
      ensures if id in old(keys) then
                var devices := old(keys)[id];
                && keys == old(keys)[id := AllTaken(devices)]
                && r == Ok(Firsts(devices, Sorted(devices.Keys)))
              else
                keys == old(keys) && r == Err(NoAccount)
    {
      if id !in keys {
        return Err(NoAccount);
      }
      var deviceIds := Sorted(keys[id].Keys);
      SortedAscends(keys[id].Keys);
      var devMap, result := TakeFirsts(keys[id], deviceIds);
      assert devMap == AllTaken(keys[id]);
      keys := keys[id := devMap];
      r := Ok(result);
    }

    method Count(id: Id, deviceId: int) returns (r: Result<nat, KeyError>)
      ensures r == if Has(keys, id, deviceId) then Ok(|keys[id][deviceId]|) else Err(Lacking(keys, id))
    {
      if id !in keys {
        return Err(NoAccount);
      }
      if deviceId !in keys[id] {
        return Err(NoDevice);
      }
      r := Ok(|keys[id][deviceId]|);
    }

    method DeleteUuid(id: Id)
      modifies this
      ensures keys == old(keys) - {id}
    {
      keys := keys - {id};
    }

    method DeleteDevice(id: Id, deviceId: int) returns (r: Result<(), KeyError>)
      modifies this
      ensures if id in old(keys) then r == Ok(()) && keys == old(keys)[id := old(keys)[id] - {deviceId}]
              else r == Err(NoAccount) && keys == old(keys)
    {
      if id !in keys {
        return Err(NoAccount);
      }
      keys := keys[id := keys[id] - {deviceId}];
      r := Ok(());
    }
  }
}
