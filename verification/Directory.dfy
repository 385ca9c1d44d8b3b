/** Identifiers for phone numbers, both ways. A store that is added to with a key it has
    already raises an error; drawing identifiers is repeated until one is new. */
module PniServers {
  import opened ByteStrings
  import opened Phones
  import opened RandomDraws
  import opened Wrappers

  type Id = Bytes

  /** The stores, and the version of the data: before version 1 the keys were phone numbers as
      they are written. */
  datatype Pnis = Pnis(pni: map<Bytes, Id>, ipn: map<Id, Bytes>, version: nat)

  const EMPTY := Pnis(map[], map[], 1)

  function Added(s: Pnis, phone: Bytes, draws: seq<Id>): (Pnis, Id)
    requires IsPhone(phone) && Draws(draws, s.ipn)
  {
    var id := Fresh(draws, s.ipn);
    (s.(pni := s.pni[PhoneKey(phone) := id], ipn := s.ipn[id := phone]), id)
  }

  function IdFor(s: Pnis, phone: Bytes, draws: seq<Id>): (Pnis, Id)
    requires IsPhone(phone) && Draws(draws, s.ipn)
  {
    if PhoneKey(phone) in s.pni then (s, s.pni[PhoneKey(phone)])
    else if s.version == 0 && phone in s.pni then (s, s.pni[phone])
    else Added(s, phone, draws)
  }

  class PniServer {
    var pni: map<Bytes, Id>
    var ipn: map<Id, Bytes>
    var version: nat

    ghost function Value(): Pnis
      reads this
    {
      Pnis(pni, ipn, version)
    }

    constructor ()
      ensures Value() == EMPTY
    {
      pni, ipn, version := map[], map[], 1;
    }

    method Add(phone: Bytes, draws: seq<Id>) returns (id: Id)
      requires IsPhone(phone) && Draws(draws, ipn)
      modifies this
      ensures (Value(), id) == Added(old(Value()), phone, draws)
    {
      id := DrawFresh(draws, ipn);
      ipn := ipn[id := phone];
      var key := PhoneToNum(phone);
      pni := pni[key := id];
    }

    method GetId(phone: Bytes, draws: seq<Id>) returns (id: Id)
      requires IsPhone(phone) && Draws(draws, ipn)
      modifies this
      ensures (Value(), id) == IdFor(old(Value()), phone, draws)
    {
      var key := PhoneToNum(phone);
      if key in pni {
        id := pni[key];
      } else if version == 0 && phone in pni {
        id := pni[phone];
      } else {
        id := Add(phone, draws);
      }
    }

    method GetPhoneNumber(id: Id) returns (phone: Option<Bytes>)
      ensures phone == if id in ipn then Some(ipn[id]) else None
    {
      phone := if id in ipn then Some(ipn[id]) else None;
    }
  }

  // ---------------------------------------------------------------- every run

  predicate Inverses<K, V>(there: map<K, V>, back: map<V, K>) {
    && (forall k :: k in there ==> there[k] in back && back[there[k]] == k)
    && (forall v :: v in back ==> back[v] in there && there[back[v]] == v)
  }

  lemma InversesExtend<K, V>(there: map<K, V>, back: map<V, K>, k: K, v: V)
    requires Inverses(there, back) && k !in there && v !in back
    ensures Inverses(there[k := v], back[v := k])
  {}

  predicate AllPhones(ipn: map<Id, Bytes>) {
    forall id :: id in ipn ==> IsPhone(ipn[id])
  }

  /** The keys of the phone numbers stored. */
  function Keys(ipn: map<Id, Bytes>): map<Id, Bytes>
    requires AllPhones(ipn)
  {
    map id | id in ipn :: PhoneKey(ipn[id])
  }

  /** Each store is the inverse of the other, up to how a phone number is written. */
  predicate Inverse(s: Pnis) {
    s.version == 1 && AllPhones(s.ipn) && Inverses(s.pni, Keys(s.ipn))
  }

  predicate Extends<K, V(==)>(m: map<K, V>, m': map<K, V>) {
    forall k :: k in m ==> k in m' && m'[k] == m[k]
  }

  lemma AddedKeeps(s: Pnis, phone: Bytes, draws: seq<Id>)
    requires Inverse(s) && IsPhone(phone) && Draws(draws, s.ipn) && PhoneKey(phone) !in s.pni
    ensures Inverse(Added(s, phone, draws).0)
  {
    var id := Fresh(draws, s.ipn);
    InversesExtend(s.pni, Keys(s.ipn), PhoneKey(phone), id);
    assert Keys(s.ipn[id := phone]) == Keys(s.ipn)[id := PhoneKey(phone)];
  }

  lemma IdForKeeps(s: Pnis, phone: Bytes, draws: seq<Id>)
    requires Inverse(s) && IsPhone(phone) && Draws(draws, s.ipn)
    ensures var (s', id) := IdFor(s, phone, draws);
      && Inverse(s') && Extends(s.pni, s'.pni) && Extends(s.ipn, s'.ipn)
      && PhoneKey(phone) in s'.pni && s'.pni[PhoneKey(phone)] == id
  {
    if PhoneKey(phone) !in s.pni {
      AddedKeeps(s, phone, draws);
    }
  }

  // ---------------------------------------------------------------- data from before version 1

  /** An identifier is found under the number as it is written, or under its key. */
  predicate OldEntry(s: Pnis, id: Id)
    requires AllPhones(s.ipn) && id in s.ipn
  {
    || (s.ipn[id] in s.pni && s.pni[s.ipn[id]] == id)
    || (PhoneKey(s.ipn[id]) in s.pni && s.pni[PhoneKey(s.ipn[id])] == id)
  }

  /** Two numbers that old data may take for one another: equal as keys, or one of them the key of
      the other, for which it has to be written in eight characters or nine. */
  predicate Alike(phone: Bytes, other: Bytes)
    requires IsPhone(phone) && IsPhone(other)
  {
    PhoneKey(phone) == PhoneKey(other) || phone == PhoneKey(other) || PhoneKey(phone) == other
  }

  predicate OldInverse(s: Pnis) {
    && s.version == 0 && AllPhones(s.ipn)
    && (forall id :: id in s.ipn ==> OldEntry(s, id))
    && (forall k :: k in s.pni ==>
          s.pni[k] in s.ipn && (k == s.ipn[s.pni[k]] || k == PhoneKey(s.ipn[s.pni[k]])))
  }

  lemma OldAddedKeeps(s: Pnis, phone: Bytes, draws: seq<Id>)
    requires OldInverse(s) && IsPhone(phone) && Draws(draws, s.ipn) && PhoneKey(phone) !in s.pni
    ensures OldInverse(Added(s, phone, draws).0)
  {
    var (s', id) := Added(s, phone, draws);
    forall j | j in s'.ipn
      ensures OldEntry(s', j)
    {
      if j != id {
        assert OldEntry(s, j) && s'.ipn[j] == s.ipn[j];
      }
    }
  }

  /** A number on record in old data, however it was entered, has its identifier, and nothing is
      added for it. */
  lemma OldDataKept(s: Pnis, phone: Bytes, draws: seq<Id>)
    requires OldInverse(s) && IsPhone(phone) && Draws(draws, s.ipn)
    ensures var (s', id) := IdFor(s, phone, draws);
      && OldInverse(s') && Extends(s.pni, s'.pni) && Extends(s.ipn, s'.ipn) && id in s'.ipn
      && Alike(phone, s'.ipn[id])
      && (forall j :: j in s.ipn && s.ipn[j] == phone ==> s' == s)
  {
    if PhoneKey(phone) !in s.pni {
      forall j | j in s.ipn && s.ipn[j] == phone
        ensures phone in s.pni
      {
        assert OldEntry(s, j);
      }
      if phone !in s.pni {
        OldAddedKeeps(s, phone, draws);
      }
    }
  }

  // ---------------------------------------------------------------- runs

  /** One call of getId, with the identifiers it draws. */
  datatype Ask = Ask(phone: Bytes, draws: seq<Id>)

  predicate Run(s: Pnis, asks: seq<Ask>)
    decreases |asks|
  {
    asks == [] ||
    (IsPhone(asks[0].phone) && Draws(asks[0].draws, s.ipn) &&
     Run(IdFor(s, asks[0].phone, asks[0].draws).0, asks[1..]))
  }

  /** The stores after a run, and the identifiers returned. */
  function End(s: Pnis, asks: seq<Ask>): (r: (Pnis, seq<Id>))
    requires Run(s, asks)
    ensures |r.1| == |asks|
    decreases |asks|
  {
    if asks == [] then (s, [])
    else
      var (s', id) := IdFor(s, asks[0].phone, asks[0].draws);
      var (s'', ids) := End(s', asks[1..]);
      (s'', [id] + ids)
  }

  /** The answers given are what the stores say in the end. */
  predicate Answered(s: Pnis, asks: seq<Ask>, ids: seq<Id>)
    requires |ids| == |asks|
  {
    forall i :: 0 <= i < |asks| ==>
      IsPhone(asks[i].phone) && PhoneKey(asks[i].phone) in s.pni && s.pni[PhoneKey(asks[i].phone)] == ids[i]
  }

  lemma {:induction false} RunKeeps(s: Pnis, asks: seq<Ask>)
    requires Inverse(s) && Run(s, asks)
    ensures var (s', ids) := End(s, asks);
      Inverse(s') && Extends(s.pni, s'.pni) && Extends(s.ipn, s'.ipn) && Answered(s', asks, ids)
    decreases |asks|
  {
    if asks != [] {
      var (s1, id) := IdFor(s, asks[0].phone, asks[0].draws);
      IdForKeeps(s, asks[0].phone, asks[0].draws);
      RunKeeps(s1, asks[1..]);
      var (s', ids) := End(s1, asks[1..]);
      AnsweredFirst(s', asks, id, ids);
      assert Extends(s.pni, s'.pni) && Extends(s.ipn, s'.ipn);
    }
  }

  lemma AnsweredFirst(s: Pnis, asks: seq<Ask>, id: Id, ids: seq<Id>)
    requires asks != [] && |ids| == |asks| - 1 && Answered(s, asks[1..], ids) && IsPhone(asks[0].phone)
    requires PhoneKey(asks[0].phone) in s.pni && s.pni[PhoneKey(asks[0].phone)] == id
    ensures Answered(s, asks, [id] + ids)
  {
    forall i | 0 < i < |asks|
      ensures IsPhone(asks[i].phone) && PhoneKey(asks[i].phone) in s.pni && s.pni[PhoneKey(asks[i].phone)] == ([id] + ids)[i]
    {
      assert asks[1..][i - 1] == asks[i];
    }
  }

  lemma {:induction false} RunIsPhones(s: Pnis, asks: seq<Ask>, i: nat)
    requires Run(s, asks) && i < |asks|
    ensures IsPhone(asks[i].phone)
    decreases |asks|
  {
    if i > 0 {
      RunIsPhones(IdFor(s, asks[0].phone, asks[0].draws).0, asks[1..], i - 1);
    }
  }

  /** Over any run, two questions get one identifier exactly when they are about one number, modulo
      2^64; and the number that is found for it is that one too. */
  lemma OneIdPerNumber(asks: seq<Ask>, i: nat, j: nat)
    requires Run(EMPTY, asks) && i < |asks| && j < |asks|
    ensures var (s, ids) := End(EMPTY, asks);
      && IsPhone(asks[i].phone) && IsPhone(asks[j].phone)
      && (ids[i] == ids[j] <==> Residue(asks[i].phone) == Residue(asks[j].phone))
      && ids[i] in s.ipn && IsPhone(s.ipn[ids[i]]) && Residue(s.ipn[ids[i]]) == Residue(asks[i].phone)
  {
    RunKeeps(EMPTY, asks);
    RunIsPhones(EMPTY, asks, i);
    RunIsPhones(EMPTY, asks, j);
    KeyIsNumber(asks[i].phone, asks[j].phone);
    var (s, ids) := End(EMPTY, asks);
    assert Keys(s.ipn)[ids[i]] == PhoneKey(asks[i].phone);
    assert Keys(s.ipn)[ids[j]] == PhoneKey(asks[j].phone);
    KeyIsNumber(s.ipn[ids[i]], asks[i].phone);
  }

  /** When all numbers fit and are written without needless zeros, the number found is the number asked for. */
  lemma FoundAsWritten(asks: seq<Ask>, i: nat)
    requires Run(EMPTY, asks) && i < |asks|
    requires forall k :: 0 <= k < |asks| ==> Canonical(asks[k].phone) && PhoneValue(asks[k].phone) < LIMIT
    ensures var (s, ids) := End(EMPTY, asks);
      ids[i] in s.ipn && s.ipn[ids[i]] == asks[i].phone
  {
    OneIdPerNumber(asks, i, i);
    RunKeeps(EMPTY, asks);
    RunIsPhones(EMPTY, asks, i);
    StoredWereAsked(EMPTY, asks);
    var (s, ids) := End(EMPTY, asks);
    assert Keys(s.ipn)[ids[i]] == PhoneKey(asks[i].phone);
    KeyInjective(s.ipn[ids[i]], asks[i].phone);
  }

  lemma {:induction false} StoredWereAsked(s: Pnis, asks: seq<Ask>)
    requires Run(s, asks)
    ensures forall id :: id in End(s, asks).0.ipn ==>
              (id in s.ipn && s.ipn[id] == End(s, asks).0.ipn[id]) ||
              exists k :: 0 <= k < |asks| && asks[k].phone == End(s, asks).0.ipn[id]
    decreases |asks|
  {
    if asks != [] {
      var s' := IdFor(s, asks[0].phone, asks[0].draws).0;
      StoredWereAsked(s', asks[1..]);
      forall id | id in End(s, asks).0.ipn && !(id in s.ipn && s.ipn[id] == End(s, asks).0.ipn[id])
        ensures exists k :: 0 <= k < |asks| && asks[k].phone == End(s, asks).0.ipn[id]
      {
        if id in s'.ipn && s'.ipn[id] == End(s', asks[1..]).0.ipn[id] {
          assert asks[0].phone == End(s, asks).0.ipn[id];
        } else {
          var k :| 0 <= k < |asks| - 1 && asks[1..][k].phone == End(s', asks[1..]).0.ipn[id];
          assert asks[k + 1].phone == End(s, asks).0.ipn[id];
        }
      }
    }
  }
}
