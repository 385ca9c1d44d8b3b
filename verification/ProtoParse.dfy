/** The incremental parsers: whatever the chunks, each returns the value and leaves the
    remainder that parsing the whole text at once would give. */
module ProtoParse {
  import opened ByteStrings
  import opened Wrappers
  import opened Modular
  import opened NumberTheory
  import opened StringBuffers
  import opened Proto

  datatype Parsed<T> = Parsed(value: T, at: Cursor)

  /** r is the outcome of reading `before`: a failure of the flat parser, or its value with
      the rest still to be read. */
  ghost predicate Agrees<T>(flat: Flat<T>, r: Result<Parsed<T>, ProtoError>, chunk: StringBuffer)
    reads chunk
  {
    && (r.Err? <==> flat.Fail?)
    && (r.Ok? ==> r.value.at.Valid() && r.value.at.buf.Some?
                  && flat == Got(r.value.value, Rest(chunk, r.value.at)))
  }

  // ---------------------------------------------------------------- bits

  function BitOr(a: nat, b: nat): nat {
    if a == 0 && b == 0 then 0
    else 2 * BitOr(a / 2, b / 2) + if a % 2 == 1 || b % 2 == 1 then 1 else 0
  }

  lemma {:induction false} BitOrZero(a: nat)
    ensures BitOr(a, 0) == a
  {
    if a > 0 { BitOrZero(a / 2); }
  }

  /** Bits above position k and bits below it do not meet. */
  lemma {:induction false} BitOrDisjoint(a: nat, b: nat, k: nat)
    requires a < Pow(2, k)
    ensures BitOr(a, b * Pow(2, k)) == a + b * Pow(2, k)
  {
    if k == 0 {
      BitOrCommutes(0, b);
      BitOrZero(b);
    } else {
      var P := Pow(2, k - 1);
      assert b * (2 * P) == 2 * (b * P);
      if a != 0 || b * (2 * P) != 0 {
        BitOrDisjoint(a / 2, b, k - 1);
      }
    }
  }

  lemma {:induction false} BitOrCommutes(a: nat, b: nat)
    ensures BitOr(a, b) == BitOr(b, a)
  {
    if a > 0 || b > 0 { BitOrCommutes(a / 2, b / 2); }
  }

  /** value | c << shift on 32 bits; a shift of 32 or more leaves nothing. */
  function OrShifted(value: u32, c: nat, shift: nat): nat {
    if shift >= 32 then value else BitOr(value, (c * Pow(2, shift)) % 0x1_0000_0000)
  }

  lemma Pow32()
    ensures Pow(2, 32) == 0x1_0000_0000
  {
    assert Pow(2, 8) == 256 by { assert Pow(2, 4) == 16; PowAdd(2, 4, 4); }
    PowAdd(2, 8, 8);
    PowAdd(2, 16, 16);
  }

  lemma OrShiftedHigh(p: nat, c: nat, shift: nat)
    requires shift >= 32
    ensures (p + c * Pow(2, shift)) % 0x1_0000_0000 == p % 0x1_0000_0000
  {
    Pow32();
    PowAdd(2, 32, shift - 32);
    var k := c * Pow(2, shift - 32);
    assert c * Pow(2, shift) == k * 0x1_0000_0000;
    ModShift(p, k, 0x1_0000_0000);
  }

  lemma OrShiftedLow(p: nat, c: nat, shift: nat, S: nat, T: nat, W: nat)
    requires S == Pow(2, shift) && p < S && T >= 1 && S * T == W
    ensures p % W == p
    ensures BitOr(p, (c * S) % W) == (p + c * S) % W
  {
    SmallerThanProduct(p, S, T);
    ModSmall(p, W);
    ShiftedMod(c, S, T);
    var b := c % T;
    BitOrDisjoint(p, b, shift);
    ShiftedSum(p, b, S, T);
    ModSmall(p + b * S, W);
    ModAdd(c * S, p, W);
  }

  /** The next seven bits, or-ed in at their place, add their weight modulo 2^32. */
  lemma OrShiftedAdds(p: nat, c: nat, shift: nat)
    requires p < Pow(2, shift)
    ensures OrShifted(p % 0x1_0000_0000, c, shift) == (p + c * Pow(2, shift)) % 0x1_0000_0000
  {
    if shift >= 32 {
      OrShiftedHigh(p, c, shift);
    } else {
      Pow32();
      PowAdd(2, shift, 32 - shift);
      OrShiftedLow(p, c, shift, Pow(2, shift), Pow(2, 32 - shift), 0x1_0000_0000);
    }
  }

  lemma SmallerThanProduct(p: nat, S: nat, T: nat)
    requires p < S && T >= 1
    ensures p < S * T
  {
    MulAtLeast(T, S);
    assert S * T == T * S;
  }

  lemma ShiftedMod(c: nat, S: nat, T: nat)
    requires S > 0 && T > 0
    ensures S * T > 0 && (c * S) % (S * T) == (c % T) * S
  {
    DivMod(c, T);
    var q, b := c / T, c % T;
    assert c * S == (q * T) * S + b * S;
    MulAssociates(q, T, S);
    MulLess(b, T, S);
    ModUnique(c * S, q, b * S, S * T);
  }

  lemma ShiftedSum(p: nat, b: nat, S: nat, T: nat)
    requires p < S && b < T
    ensures p + b * S < S * T
  {
    MulLess(b, T, S);
  }

  // ---------------------------------------------------------------- parsers

  /** A byte, or -1 at the end of the text. */
  method ParseByte(chunk: StringBuffer, at: Cursor) returns (c: int, at': Cursor)
    requires chunk.Valid() && at.Valid()
    modifies chunk
    ensures chunk.Valid() && at'.Valid()
    ensures old(Rest(chunk, at)) == [] ==> c == -1 && at'.buf.None? && Rest(chunk, at') == []
    ensures old(Rest(chunk, at)) != [] ==> at'.buf.Some? && c == old(Rest(chunk, at))[0]
    ensures old(Rest(chunk, at)) != [] ==> Rest(chunk, at') == old(Rest(chunk, at))[1..]
  {
    var buf, offset := at.buf, at.offset;
    if buf.None? || offset >= |buf.value| {
      buf := chunk.Chunk();
      if buf.None? {
        return -1, Cursor(buf, offset);
      }
      offset := 0;
    }
    c, at' := buf.value[offset], Cursor(buf, offset + 1);
  }

  /** The byte under the cursor, fetching the next chunk when the current one is used up;
      reading past the last chunk is an error. */
  method NextByte(chunk: StringBuffer, at: Cursor) returns (c: Option<byte>, at': Cursor)
    requires chunk.Valid() && at.Valid()
    modifies chunk
    ensures chunk.Valid() && at'.Valid()
    ensures c.None? <==> old(Rest(chunk, at)) == []
    ensures c.Some? ==> at'.buf.Some? && old(Rest(chunk, at)) == [c.value] + Rest(chunk, at')
  {
    var buf, offset := at.buf, at.offset;
    if buf.None? || offset >= |buf.value| {
      buf := chunk.Chunk();
      offset := 0;
      if buf.None? {
        return None, Cursor(None, 0);
      }
    }
    c, at' := Some(buf.value[offset]), Cursor(buf, offset + 1);
  }

  /** Reading digits keeps this: what the whole text parses to is the digits so far, plus
      what the remainder parses to in the next place. */
  ghost predicate Reading(s: Bytes, p: nat, place: nat, rest: Bytes) {
    Varint(s) == match Varint(rest)
                 case Fail => Fail
                 case Got(v, r) => Got(p + place * v, r)
  }

  lemma PlaceArithmetic(place: int, a: int, v: int)
    ensures place * (a + 128 * v) == a * place + (128 * place) * v
  {
    assert place * (a + 128 * v) == place * a + place * (128 * v);
    assert place * (128 * v) == (128 * place) * v;
  }

  lemma ReadingStep(s: Bytes, p: nat, place: nat, rest: Bytes)
    requires rest != [] && Reading(s, p, place, rest)
    ensures rest[0] >= 128 ==> Reading(s, p + (rest[0] % 128) * place, 128 * place, rest[1..])
    ensures rest[0] < 128 ==> Varint(s) == Got(p + (rest[0] % 128) * place, rest[1..])
  {
    LowSeven(rest[0]);
    if rest[0] >= 128 {
      match Varint(rest[1..])
      case Fail =>
      case Got(v, r) => PlaceArithmetic(place, rest[0] % 128, v);
    }
  }

  lemma LowSeven(b: byte)
    ensures b % 128 == if b < 128 then b else b - 128
  {}

  lemma PlaceStep(p: nat, c: nat, shift: nat)
    requires p < Pow(2, shift) && c < 128
    ensures Pow(2, shift + 7) == 128 * Pow(2, shift) && p + c * Pow(2, shift) < Pow(2, shift + 7)
  {
    assert Pow(2, 7) == 128 by { assert Pow(2, 3) == 8; PowAdd(2, 3, 4); }
    PowAdd(2, 7, shift);
    assert (127 - c) * Pow(2, shift) >= 0;
    assert (127 - c) * Pow(2, shift) == 128 * Pow(2, shift) - Pow(2, shift) - c * Pow(2, shift);
  }

  /** The state of reading a 32-bit varint: the digits so far and their value on 32 bits. */
  ghost predicate ReadingInt(s: Bytes, p: nat, value: int, shift: nat, more: bool, rest: Bytes) {
    && value == p % 0x1_0000_0000
    && (more ==> p < Pow(2, shift) && Reading(s, p, Pow(2, shift), rest))
    && (!more ==> Varint(s) == Got(p, rest))
  }

  lemma ReadingIntStep(s: Bytes, p: nat, value: u32, shift: nat, rest: Bytes) returns (p': nat)
    requires rest != [] && ReadingInt(s, p, value, shift, true, rest)
    ensures OrShifted(value, rest[0] % 128, shift) < 0x1_0000_0000
    ensures ReadingInt(s, p', OrShifted(value, rest[0] % 128, shift), shift + 7, rest[0] >= 128, rest[1..])
  {
    p' := p + (rest[0] % 128) * Pow(2, shift);
    OrShiftedAdds(p, rest[0] % 128, shift);
    PlaceStep(p, rest[0] % 128, shift);
    ReadingStep(s, p, Pow(2, shift), rest);
  }

  method ParseInt(chunk: StringBuffer, at: Cursor) returns (r: Result<Parsed<u32>, ProtoError>)
    requires chunk.Valid() && at.Valid()
    modifies chunk
    ensures chunk.Valid() && Agrees(FlatInt(old(Rest(chunk, at))), r, chunk)
  {
    ghost var s := Rest(chunk, at);
    ghost var p: nat := 0;
    var cursor, more := at, true;
    var value: u32, shift: nat := 0, 0;
    ReadingStart(s);
    while more
      invariant chunk.Valid() && cursor.Valid() && (!more ==> cursor.buf.Some?)
      invariant ReadingInt(s, p, value, shift, more, Rest(chunk, cursor))
      decreases more, |Rest(chunk, cursor)|
    {
      ghost var rest := Rest(chunk, cursor);
      var c;
      c, cursor := NextByte(chunk, cursor);
      if c.None? {
        return Err(BadIndex);
      }
      assert rest[1..] == Rest(chunk, cursor);
      p := ReadingIntStep(s, p, value, shift, rest);
      value := OrShifted(value, c.value % 128, shift);
      shift := shift + 7;
      more := c.value >= 128;
    }
    r := Ok(Parsed(value, cursor));
  }

  lemma ReadingStart(s: Bytes)
    ensures Reading(s, 0, 1, s) && Pow(2, 0) == 1
  {}

  lemma ReadingAsnStep(s: Bytes, p: nat, shift: nat, rest: Bytes)
    requires rest != [] && Reading(s, p, Pow(2, shift), rest)
    ensures var d := (rest[0] % 128) * Pow(2, shift);
      && 0 <= d && (p % ASN64 + d % ASN64) % ASN64 == (p + d) % ASN64
      && (rest[0] >= 128 ==> Reading(s, p + d, Pow(2, shift + 7), rest[1..]))
      && (rest[0] < 128 ==> Varint(s) == Got(p + d, rest[1..]))
  {
    PlaceShift(shift);
    ModSum(p, (rest[0] % 128) * Pow(2, shift), ASN64);
    ReadingStep(s, p, Pow(2, shift), rest);
  }

  method ParseAsn(chunk: StringBuffer, at: Cursor) returns (r: Result<Parsed<Bytes>, ProtoError>)
    requires chunk.Valid() && at.Valid()
    modifies chunk
    ensures chunk.Valid() && Agrees(FlatAsn(old(Rest(chunk, at))), r, chunk)
  {
    ghost var s := Rest(chunk, at);
    ghost var p: nat := 0;
    var cursor, value, more := at, 0, true;
    var shift: nat := 0;
    while more
      invariant chunk.Valid() && cursor.Valid()
      invariant 0 <= value == p % ASN64
      invariant more ==> Reading(s, p, Pow(2, shift), Rest(chunk, cursor))
      invariant !more ==> cursor.buf.Some? && Varint(s) == Got(p, Rest(chunk, cursor))
      decreases more, |Rest(chunk, cursor)|
    {
      ghost var rest := Rest(chunk, cursor);
      var c;
      c, cursor := NextByte(chunk, cursor);
      if c.None? {
        return Err(BadIndex);
      }
      assert rest[1..] == Rest(chunk, cursor);
      ReadingAsnStep(s, p, shift, rest);
      value := (value + ((c.value % 128) * Pow(2, shift)) % ASN64) % ASN64;
      p := p + (c.value % 128) * Pow(2, shift);
      shift := shift + 7;
      more := c.value >= 128;
    }
    r := Ok(Parsed(Unsigned(value), cursor));
  }

  lemma PlaceShift(shift: nat)
    ensures Pow(2, shift + 7) == 128 * Pow(2, shift)
  {
    PlaceStep(0, 0, shift) by { assert Pow(2, shift) >= 1; }
  }

  /** Of the len bytes to be read of s, str has been read, and left are still to come. */
  ghost predicate Collecting(s: Bytes, str: Bytes, buf: Bytes, offset: nat, text: Bytes, len: int, left: int) {
    && offset <= |buf| && s == str + (buf[offset..] + text)
    && len == |str| + left && (str != [] ==> left > 0)
  }

  lemma CollectChunk(s: Bytes, str: Bytes, buf: Bytes, offset: nat, text: Bytes, len: int, left: int, next: Bytes, text': Bytes)
    requires Collecting(s, str, buf, offset, text, len, left) && left > |buf| - offset && text == next + text'
    ensures Collecting(s, str + buf[offset..], next, 0, text', len, left - (|buf| - offset))
  {
    assert next[0..] == next;
    assert str + (buf[offset..] + text) == (str + buf[offset..]) + text;
  }

  lemma CollectFails(s: Bytes, str: Bytes, buf: Bytes, offset: nat, text: Bytes, len: int, left: int)
    requires Collecting(s, str, buf, offset, text, len, left)
    requires left < 0 || (left > |buf| - offset && text == [])
    ensures FlatBytes(s, len).Fail?
  {}

  lemma CollectEnds(s: Bytes, str: Bytes, buf: Bytes, offset: nat, text: Bytes, len: int, left: int)
    requires Collecting(s, str, buf, offset, text, len, left) && 0 <= left <= |buf| - offset
    ensures FlatBytes(s, len) == Got(str + buf[offset..offset + left], buf[offset + left..] + text)
  {
    TakeAhead(s, str, buf, offset, text, left);
  }

  lemma TakeAhead(s: Bytes, str: Bytes, buf: Bytes, offset: nat, text: Bytes, left: nat)
    requires offset + left <= |buf| && s == str + (buf[offset..] + text)
    ensures |str| + left <= |s|
    ensures s[..|str| + left] == str + buf[offset..offset + left]
    ensures s[|str| + left..] == buf[offset + left..] + text
  {}

  /** A number of bytes, collected across chunks. Before the first chunk of an empty text has
      been asked for there is nothing to slice, so that even zero bytes are an error. */
  method ParseBytes(chunk: StringBuffer, at: Cursor, len: int) returns (r: Result<Parsed<Bytes>, ProtoError>)
    requires chunk.Valid() && at.Valid()
    modifies chunk
    ensures chunk.Valid()
    ensures r.Ok? <==> FlatBytes(old(Rest(chunk, at)), len).Got? && (at.buf.Some? || old(Rest(chunk, at)) != [])
    ensures r.Ok? ==> Agrees(FlatBytes(old(Rest(chunk, at)), len), r, chunk)
  {
    ghost var s := Rest(chunk, at);
    var buf: Bytes, offset: nat := [], at.offset;
    if at.buf.Some? {
      buf := at.buf.value;
    } else {
      var first := chunk.Chunk();
      if first.None? {
        return Err(BadIndex);
      }
      buf, offset := first.value, 0;
    }
    var left, str: Bytes := len, [];
    while left > |buf| - offset
      invariant chunk.Valid() && Collecting(s, str, buf, offset, chunk.Text(), len, left)
      decreases |chunk.Text()|
    {
      ghost var text := chunk.Text();
      var next := chunk.Chunk();
      if next.None? {
        CollectFails(s, str, buf, offset, text, len, left);
        return Err(BadIndex);
      }
      CollectChunk(s, str, buf, offset, text, len, left, next.value, chunk.Text());
      left, str := left - (|buf| - offset), str + buf[offset..];
      buf, offset := next.value, 0;
    }
    if left < 0 {
      CollectFails(s, str, buf, offset, chunk.Text(), len, left);
      return Err(BadIndex);
    }
    CollectEnds(s, str, buf, offset, chunk.Text(), len, left);
    r := Ok(Parsed(str + buf[offset..offset + left], Cursor(Some(buf), offset + left)));
  }

  method ParseString(chunk: StringBuffer, at: Cursor) returns (r: Result<Parsed<Bytes>, ProtoError>)
    requires chunk.Valid() && at.Valid()
    modifies chunk
    ensures chunk.Valid() && Agrees(FlatString(old(Rest(chunk, at))), r, chunk)
  {
    var len := ParseInt(chunk, at);
    if len.Err? {
      return Err(len.error);
    }
    r := ParseBytes(chunk, len.value.at, Signed(len.value.value));
  }

  method ParseStrbuf(chunk: StringBuffer, at: Cursor) returns (r: Result<Parsed<StringBuffer>, ProtoError>)
    requires chunk.Valid() && at.Valid()
    modifies chunk
    ensures chunk.Valid()
    ensures r.Err? <==> FlatString(old(Rest(chunk, at))).Fail?
    ensures r.Ok? ==> fresh(r.value.value) && r.value.value.Valid()
    ensures r.Ok? ==> r.value.at.Valid() && r.value.at.buf.Some?
    ensures r.Ok? ==> FlatString(old(Rest(chunk, at))) == Got(r.value.value.Text(), Rest(chunk, r.value.at))
  {
    var len := ParseInt(chunk, at);
    if len.Err? {
      return Err(len.error);
    }
    var str := new StringBuffer([]);
    var at' := FillStrbuf(chunk, str, len.value.at, Signed(len.value.value));
    if at'.Err? {
      return Err(at'.error);
    }
    r := Ok(Parsed(str, at'.value));
  }

  /** The rest of a chunk goes into the new buffer; the next one is fetched. */
  method MoveOn(chunk: StringBuffer, str: StringBuffer, ahead: Bytes) returns (next: Option<Bytes>)
    requires chunk != str && chunk.Valid() && str.Valid()
    modifies chunk, str
    ensures chunk.Valid() && str.Valid()
    ensures str.Text() == old(str.Text()) + ahead
    ensures old(chunk.Text()) == (if next.Some? then next.value else []) + chunk.Text()
    ensures if next.Some? then next.value != [] else chunk.Text() == []
  {
    str.Append(ahead);
    next := chunk.Chunk();
  }

  /** The loop of parseStrbuf: whole chunks moved into a new buffer, until the last one needed. */
  method GatherStrbuf(chunk: StringBuffer, str: StringBuffer, at: Cursor, len: int)
      returns (r: Result<(Bytes, nat, nat), ProtoError>)
    requires chunk.Valid() && at.Valid() && at.buf.Some?
    requires str != chunk && str.Valid() && str.Text() == []
    modifies chunk, str
    ensures chunk.Valid() && str.Valid()
    ensures r.Err? ==> FlatBytes(old(Rest(chunk, at)), len).Fail?
    ensures r.Ok? ==> r.value.1 + r.value.2 <= |r.value.0|
    ensures r.Ok? ==>
      Collecting(old(Rest(chunk, at)), str.Text(), r.value.0, r.value.1, chunk.Text(), len, r.value.2)
  {
    ghost var s := Rest(chunk, at);
    var buf := at.buf.value;
    var offset: nat := at.offset;
    var left := len;
    assert Collecting(s, [], buf, offset, chunk.Text(), len, left);
    while left > |buf| - offset
      invariant str.Valid() && chunk.Valid()
      invariant Collecting(s, str.Text(), buf, offset, chunk.Text(), len, left)
      decreases |chunk.Text()|
    {
      ghost var text, got := chunk.Text(), str.Text();
      var next := MoveOn(chunk, str, buf[offset..]);
      if next.None? {
        CollectFails(s, got, buf, offset, text, len, left);
        return Err(BadIndex);
      }
      CollectChunk(s, got, buf, offset, text, len, left, next.value, chunk.Text());
      left := left - (|buf| - offset);
      buf, offset := next.value, 0;
    }
    if left < 0 {
      CollectFails(s, str.Text(), buf, offset, chunk.Text(), len, left);
      return Err(BadIndex);
    }
    r := Ok((buf, offset, left));
  }

  /** The len bytes moved into a new buffer. */
  method FillStrbuf(chunk: StringBuffer, str: StringBuffer, at: Cursor, len: int) returns (r: Result<Cursor, ProtoError>)
    requires chunk.Valid() && at.Valid() && at.buf.Some?
    requires str != chunk && str.Valid() && str.Text() == []
    modifies chunk, str
    ensures chunk.Valid() && str.Valid()
    ensures r.Err? ==> FlatBytes(old(Rest(chunk, at)), len).Fail?
    ensures r.Ok? ==> r.value.Valid() && r.value.buf.Some?
    ensures r.Ok? ==> FlatBytes(old(Rest(chunk, at)), len) == Got(str.Text(), Rest(chunk, r.value))
  {
    ghost var s := Rest(chunk, at);
    var last := GatherStrbuf(chunk, str, at, len);
    if last.Err? {
      return Err(last.error);
    }
    var (buf, offset, left) := last.value;
    ghost var got, text := str.Text(), chunk.Text();
    CollectEnds(s, got, buf, offset, text, len, left);
    str.Append(buf[offset..offset + left]);
    r := Ok(Cursor(Some(buf), offset + left));
    assert Rest(chunk, r.value) == buf[offset + left..] + text;
  }

  /** Nothing left to parse. */
  method ParseDone(chunk: StringBuffer, at: Cursor) returns (done: bool)
    requires chunk.Valid() && at.Valid() && at.buf.Some?
    ensures done <==> Rest(chunk, at) == []
  {
    var length := chunk.Length();
    done := at.offset >= |at.buf.value| && length == 0;
  }
}
