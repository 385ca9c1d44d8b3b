/** Stateful hash objects over HMAC-SHA256. HMAC is any function with 32-byte results. */
module StatefulHash {
  import opened ByteStrings
  import opened Wrappers
  import opened Scalars
  import opened Ristretto

  type Hmac = (Bytes, Bytes) -> Bytes

  ghost predicate IsHmac(h: Hmac) {
    forall key, data :: |h(key, data)| == 32
  }

  /** The value of a hash object: the key bytes, and the input collected so far, where
      None is nil and differs from the empty string. */
  datatype ShoState = ShoState(cv: Bytes, input: Option<Bytes>)

  function Absorbed(s: ShoState, str: Bytes): ShoState {
    s.(input := Some(if s.input.Some? then s.input.value + str else str))
  }

  function AbsorbedAll(s: ShoState, strs: seq<Bytes>): ShoState {
    if strs == [] then s else Absorbed(AbsorbedAll(s, strs[..|strs| - 1]), strs[|strs| - 1])
  }

  lemma AbsorbedNext(s: ShoState, strs: seq<Bytes>, i: nat)
    requires i < |strs|
    ensures AbsorbedAll(s, strs[..i + 1]) == Absorbed(AbsorbedAll(s, strs[..i]), strs[i])
  {
    assert strs[..i + 1][..i] == strs[..i];
  }

  function Collected(s: ShoState): Bytes {
    if s.input.Some? then s.input.value else []
  }

  /** What is absorbed piece by piece is absorbed as a whole. */
  lemma {:induction false} AbsorbedConcat(s: ShoState, strs: seq<Bytes>, str: Bytes)
    ensures Absorbed(AbsorbedAll(s, strs), str) == ShoState(s.cv, Some(Collected(s) + Concat(strs) + str))
  {
    if strs == [] {
      assert Collected(s) + Concat(strs) + str == Collected(s) + str && [] + str == str;
    } else {
      var n := |strs| - 1;
      var front, last := strs[..n], strs[n];
      AbsorbedConcat(s, front, last);
      assert strs == front + [last] && Concat([last]) == last;
      ConcatAppend(front, [last]);
      assert Collected(s) + Concat(front) + last == Collected(s) + (Concat(front) + last);
    }
  }

  lemma AbsorbedWhole(s: ShoState, strs: seq<Bytes>)
    requires s.input.Some?
    ensures AbsorbedAll(s, strs) == ShoState(s.cv, Some(s.input.value + Concat(strs)))
  {
    if strs == [] {
      assert s.input.value + [] == s.input.value;
    } else {
      var n := |strs| - 1;
      AbsorbedConcat(s, strs[..n], strs[n]);
      assert strs == strs[..n] + [strs[n]] && Concat([strs[n]]) == strs[n];
      ConcatAppend(strs[..n], [strs[n]]);
      assert s.input.value + Concat(strs[..n]) + strs[n] == s.input.value + Concat(strs);
    }
  }

  function Ratcheted(h: Hmac, s: ShoState): ShoState {
    if s.input.Some? then ShoState(h(s.cv, s.input.value + [0]), None) else s
  }

  function Created(h: Hmac, tag: Bytes): ShoState {
    Ratcheted(h, Absorbed(ShoState(Zeros(32), None), tag))
  }

  /** The first n output blocks of a key. */
  function Blocks(h: Hmac, cv: Bytes, n: nat): (b: Bytes)
    requires IsHmac(h)
    ensures |b| == 32 * n
  {
    if n == 0 then [] else Blocks(h, cv, n - 1) + h(cv, Extend(Asn(n - 1), 8) + [1])
  }

  function Output(h: Hmac, cv: Bytes, length: nat): (b: Bytes)
    requires IsHmac(h)
    ensures |b| == length
  {
    Blocks(h, cv, (length + 31) / 32)[..length]
  }

  function Squeezed(h: Hmac, s: ShoState, length: nat): ShoState {
    ShoState(h(s.cv, Extend(Asn(length), 8) + [2]), None)
  }

  /** The scalar, or the point, that the next 64 bytes of output stand for. */
  function NextScalar(h: Hmac, s: ShoState): Scalar
    requires IsHmac(h)
  {
    FromBytes(Output(h, s.cv, 64))
  }

  function NextPoint<P>(g: Group<P>, elligator: Bytes -> P, h: Hmac, s: ShoState): P
    requires IsHmac(h)
  {
    var bytes := Output(h, s.cv, 64);
    g.add(elligator(bytes[..32]), elligator(bytes[32..]))
  }

  /** After n draws of 64 bytes. */
  function AfterDraws(h: Hmac, s: ShoState, n: nat): ShoState {
    if n == 0 then s else Squeezed(h, AfterDraws(h, s, n - 1), 64)
  }

  // ---------------------------------------------------------------- what HMAC is given

  lemma {:induction false} BlocksAt(h: Hmac, cv: Bytes, n: nat, i: nat)
    requires IsHmac(h) && i < n
    ensures Blocks(h, cv, n)[32 * i..32 * i + 32] == h(cv, Extend(Asn(i), 8) + [1])
  {
    if i < n - 1 { BlocksAt(h, cv, n - 1, i); }
  }

  /** The i-th block of output is the HMAC of the number i in eight bytes, and then 1. */
  lemma OutputAt(h: Hmac, cv: Bytes, length: nat, i: nat)
    requires IsHmac(h) && 32 * i + 32 <= length
    ensures Output(h, cv, length)[32 * i..32 * i + 32] == h(cv, Extend(Asn(i), 8) + [1])
  {
    var n := (length + 31) / 32;
    BlocksAt(h, cv, n, i);
    assert Blocks(h, cv, n)[..length][32 * i..32 * i + 32] == Blocks(h, cv, n)[32 * i..32 * i + 32];
  }

  lemma SmallNumber(n: byte)
    requires n < 128
    ensures Extend(Asn(n), 8) == [0, 0, 0, 0, 0, 0, 0, n]
  {}

  /** A draw of 64 bytes is the HMAC of 0 and of 1, in eight bytes each and followed by 1, and
      leaves the HMAC of 64, in eight bytes and followed by 2, for a key. */
  lemma Drawn(h: Hmac, s: ShoState)
    requires IsHmac(h)
    ensures Output(h, s.cv, 64) == h(s.cv, [0, 0, 0, 0, 0, 0, 0, 0, 1]) + h(s.cv, [0, 0, 0, 0, 0, 0, 0, 1, 1])
    ensures Squeezed(h, s, 64) == ShoState(h(s.cv, [0, 0, 0, 0, 0, 0, 0, 64, 2]), None)
  {
    SmallNumber(0);
    SmallNumber(1);
    SmallNumber(64);
    OutputAt(h, s.cv, 64, 0);
    OutputAt(h, s.cv, 64, 1);
    var output := Output(h, s.cv, 64);
    assert Extend(Asn(0), 8) + [1] == [0, 0, 0, 0, 0, 0, 0, 0, 1];
    assert Extend(Asn(1), 8) + [1] == [0, 0, 0, 0, 0, 0, 0, 1, 1];
    assert Extend(Asn(64), 8) + [2] == [0, 0, 0, 0, 0, 0, 0, 64, 2];
    assert output == output[0..32] + output[32..64];
  }

  /** The scalar and the point of a draw, in terms of HMAC alone. */
  lemma DrawnValues<P>(g: Group<P>, elligator: Bytes -> P, h: Hmac, s: ShoState)
    requires IsHmac(h)
    ensures var first, second := h(s.cv, [0, 0, 0, 0, 0, 0, 0, 0, 1]), h(s.cv, [0, 0, 0, 0, 0, 0, 0, 1, 1]);
      && NextScalar(h, s) == LittleEndian(first + second) % ELL
      && NextPoint(g, elligator, h, s) == g.add(elligator(first), elligator(second))
  {
    Drawn(h, s);
  }

  /** HMAC of the input with 0 behind it, which is no input of the other two kinds. */
  lemma RatchetedKey(h: Hmac, s: ShoState, n: nat)
    requires s.input.Some?
    ensures Ratcheted(h, s) == ShoState(h(s.cv, s.input.value + [0]), None)
    ensures Created(h, s.input.value).cv == h(Zeros(32), s.input.value + [0])
    ensures s.input.value + [0] != Extend(Asn(n), 8) + [1] && s.input.value + [0] != Extend(Asn(n), 8) + [2]
  {
    var a, b := s.input.value + [0], Extend(Asn(n), 8);
    assert a[|a| - 1] == 0 && (b + [1])[|b|] == 1 && (b + [2])[|b|] == 2;
  }

  class Sho {
    const hmac: Hmac
    var cv: Bytes
    var input: Option<Bytes>

    ghost function State(): ShoState
      reads this
    {
      ShoState(cv, input)
    }

    constructor (hmac: Hmac, tag: Bytes)
      ensures this.hmac == hmac && State() == Created(hmac, tag)
    {
      this.hmac := hmac;
      cv := Zeros(32);
      input := None;
      new;
      Absorb(tag);
      Ratchet();
    }

    constructor Copy(other: Sho)
      ensures hmac == other.hmac && State() == other.State()
    {
      hmac := other.hmac;
      cv := other.cv;
      input := other.input;
    }

    method Absorb(str: Bytes)
      modifies this
      ensures State() == Absorbed(old(State()), str)
    {
      if input.None? {
        input := Some(str);
      } else {
        input := Some(input.value + str);
      }
    }

    method Ratchet()
      modifies this
      ensures State() == Ratcheted(hmac, old(State()))
    {
      if input.Some? {
        cv := hmac(cv, input.value + [0]);
        input := None;
      }
    }

    method Squeeze(length: nat) returns (r: Result<Bytes, string>)
      requires IsHmac(hmac)
      modifies this
      ensures r == if old(input).Some? then Err("Not ratcheted") else Ok(Output(hmac, old(cv), length))
      ensures State() == if old(input).Some? then old(State()) else Squeezed(hmac, old(State()), length)
    {
      if input.Some? {
        return Err("Not ratcheted");
      }
      var output := [];
      var i := 0;
      while |output| < length
        invariant output == Blocks(hmac, cv, i)
        invariant 32 * i < length + 32
        invariant State() == old(State())
      {
        output := output + hmac(cv, Extend(Asn(i), 8) + [1]);
        i := i + 1;
      }
      assert i == (length + 31) / 32;
      cv := hmac(cv, Extend(Asn(length), 8) + [2]);
      input := None;
      r := Ok(output[..length]);
    }

    method Clone() returns (copy: Sho)
      ensures fresh(copy) && copy.hmac == hmac && copy.State() == State()
    {
      copy := new Sho.Copy(this);
    }

    method GetScalar() returns (r: Result<Scalar, string>)
      requires IsHmac(hmac)
      modifies this
      ensures r == if old(input).Some? then Err("Not ratcheted") else Ok(NextScalar(hmac, old(State())))
      ensures State() == if old(input).Some? then old(State()) else Squeezed(hmac, old(State()), 64)
    {
      var bytes := Squeeze(64);
      if bytes.Err? {
        return Err(bytes.error);
      }
      r := Ok(FromBytes(bytes.value));
    }

    method GetPoint<P>(group: Group<P>, elligator: Bytes -> P) returns (r: Result<P, string>)
      requires IsHmac(hmac)
      modifies this
      ensures r == if old(input).Some? then Err("Not ratcheted") else Ok(NextPoint(group, elligator, hmac, old(State())))
      ensures State() == if old(input).Some? then old(State()) else Squeezed(hmac, old(State()), 64)
    {
      var bytes := Squeeze(64);
      if bytes.Err? {
        return Err(bytes.error);
      }
      r := Ok(group.add(elligator(bytes.value[..32]), elligator(bytes.value[32..])));
    }
  }
}
