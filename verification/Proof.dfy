/** Proofs as blobs: a challenge followed by the responses, 32 bytes each. */
module Proofs {
  import opened ByteStrings
  import opened Wrappers
  import opened Scalars

  datatype ProofValue = ProofValue(challenge: Scalar, response: seq<Scalar>)

  function Joined(scalars: seq<Scalar>): Bytes {
    if scalars == [] then []
    else Joined(scalars[..|scalars| - 1]) + ToBytes(scalars[|scalars| - 1])
  }

  function Printed(p: ProofValue): Bytes {
    ToBytes(p.challenge) + Joined(p.response)
  }

  function ScalarAt(blob: Bytes, i: nat): Scalar
    requires 32 * i + 32 <= |blob|
  {
    FromBytes(blob[32 * i..32 * i + 32])
  }

  /** The blob check and the scalars read from it. */
  function Parsed(blob: Bytes): Option<ProofValue> {
    var num := |blob| / 32;
    if num < 2 || num > 256 || |blob| % 32 != 0 then None
    else Some(ProofValue(ScalarAt(blob, 0), seq(num - 1, i requires 0 <= i < num - 1 => ScalarAt(blob, i + 1))))
  }

  class Proof {
    const challenge: Scalar
    const response: seq<Scalar>

    ghost function Value(): ProofValue {
      ProofValue(challenge, response)
    }

    constructor (challenge: Scalar, response: seq<Scalar>)
      ensures Value() == ProofValue(challenge, response)
    {
      this.challenge := challenge;
      this.response := response;
    }

    method Transport() returns (blob: Bytes)
      ensures blob == Printed(Value())
    {
      var size := |response|;
      var arr := [];
      for i := 0 to size
        invariant arr == Joined(response[..i])
      {
        arr := arr + ToBytes(response[i]);
        assert response[..i + 1][..i] == response[..i];
      }
      assert response[..size] == response;
      return ToBytes(challenge) + arr;
    }
  }

  method RemoteProof(blob: Bytes) returns (r: Option<ProofValue>)
    ensures r == Parsed(blob)
  {
    var len := |blob|;
    var num := len / 32;
    if num < 2 || num > 256 || len % 32 != 0 {
      return None;
    }
    var challenge := FromBytes(blob[..32]);
    var response := new Scalar[num - 1];
    for i := 1 to num
      invariant forall k :: 0 <= k < i - 1 ==> response[k] == ScalarAt(blob, k + 1)
    {
      response[i - 1] := FromBytes(blob[i * 32..i * 32 + 32]);
    }
    r := Some(ProofValue(challenge, response[..]));
    assert r.value.response == Parsed(blob).value.response;
  }

  lemma WithinFirst(a: Bytes, b: Bytes, i: nat, j: nat)
    requires i <= j <= |a|
    ensures (a + b)[i..j] == a[i..j]
  {}

  lemma WithinSecond(a: Bytes, b: Bytes, i: nat, j: nat)
    requires i <= j <= |b|
    ensures (a + b)[|a| + i..|a| + j] == b[i..j]
  {}

  lemma {:induction false} JoinedAt(scalars: seq<Scalar>, i: nat)
    requires i < |scalars|
    ensures |Joined(scalars)| == 32 * |scalars|
    ensures Joined(scalars)[32 * i..32 * i + 32] == ToBytes(scalars[i])
  {
    var last := |scalars| - 1;
    BytesRoundTrip(scalars[last]);
    if last > 0 {
      JoinedAt(scalars[..last], if i < last then i else 0);
    }
    var front := Joined(scalars[..last]);
    if i < last {
      WithinFirst(front, ToBytes(scalars[last]), 32 * i, 32 * i + 32);
    }
  }

  lemma JoinedLength(scalars: seq<Scalar>)
    ensures |Joined(scalars)| == 32 * |scalars|
  {
    if scalars != [] {
      JoinedAt(scalars, 0);
    }
  }

  /** Each scalar of a printed proof stands in its own place. */
  lemma PrintedAt(p: ProofValue, i: nat)
    requires i <= |p.response|
    ensures |Printed(p)| == 32 + 32 * |p.response|
    ensures ScalarAt(Printed(p), i) == if i == 0 then p.challenge else p.response[i - 1]
  {
    var first, rest := ToBytes(p.challenge), Joined(p.response);
    BytesRoundTrip(p.challenge);
    JoinedLength(p.response);
    if i == 0 {
      WithinFirst(first, rest, 0, 32);
      assert first[0..32] == first;
    } else {
      var o := 32 * (i - 1);
      JoinedAt(p.response, i - 1);
      BytesRoundTrip(p.response[i - 1]);
      WithinSecond(first, rest, o, o + 32);
      assert 32 * i == o + 32;
    }
  }

  /** A printed proof is read back exactly when it carries 1 to 255 responses; with none,
      or with the 256 a statement can hold, the blob is rejected. */
  lemma BlobRoundTrip(p: ProofValue)
    ensures Parsed(Printed(p)) == if 1 <= |p.response| <= 255 then Some(p) else None
  {
    PrintedAt(p, 0);
    var num := |p.response| + 1;
    assert |Printed(p)| / 32 == num;
    if 1 <= |p.response| <= 255 {
      var response := Parsed(Printed(p)).value.response;
      forall i | 0 <= i < |p.response|
        ensures response[i] == p.response[i]
      {
        PrintedAt(p, i + 1);
      }
      assert response == p.response;
    }
  }
}
