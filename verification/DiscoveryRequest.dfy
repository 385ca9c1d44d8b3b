/** Reading a contact discovery request. Every field is optional but fields come in order; two of
    them are lists of phone numbers, eight bytes each. */
module DiscoveryRequests {
  import opened ByteStrings
  import opened Wrappers
  import opened StringBuffers
  import opened Proto
  import opened ProtoParse
  import opened WebSocketCodec
  import opened WebSocketReceive

  // ---------------------------------------------------------------- what a request says

  /** A text cut into pieces of eight bytes. */
  function Eights(text: Bytes): (r: seq<Bytes>)
    requires |text| % 8 == 0
    ensures |r| == |text| / 8
  {
    if text == [] then []
    else
      var n := |text| - 8;
      Eights(text[..n]) + [text[n..]]
  }

  lemma PieceOfFront(text: Bytes, n: nat, o: nat)
    requires o + 8 <= n <= |text|
    ensures text[..n][o..o + 8] == text[o..o + 8]
  {}

  lemma {:induction false} EightsAt(text: Bytes, i: nat)
    requires |text| % 8 == 0 && 8 * i < |text|
    ensures Eights(text)[i] == text[8 * i..8 * i + 8]
  {
    var n := |text| - 8;
    if 8 * i < n {
      EightsAt(text[..n], i);
      PieceOfFront(text, n, 8 * i);
    } else {
      assert i == |text| / 8 - 1 && 8 * i == n;
    }
  }

  function Numbers(text: Option<Bytes>): Option<seq<Bytes>> {
    if text.None? then Some([]) else if |text.value| % 8 != 0 then None else Some(Eights(text.value))
  }

  /** Two lists, of previous and of new numbers. */
  function FlatPair(s: Bytes): Flat<(Option<Bytes>, Option<Bytes>)> {
    var previous := FlatBody(s, 18);
    if previous.Fail? then Fail else
    var added := FlatBody(previous.rest, 26);
    if added.Fail? then Fail else Got((previous.value, added.value), added.rest)
  }

  /** They come after a field that is not used. */
  function FlatLists(s: Bytes): Flat<(Option<Bytes>, Option<Bytes>)> {
    var uaks := FlatBody(s, 10);
    if uaks.Fail? then Fail else FlatPair(uaks.rest)
  }

  /** The next two, discarded numbers and the token, are read and not used. */
  function FlatUnused(s: Bytes): Flat<()> {
    var discarded := FlatBody(s, 34);
    if discarded.Fail? then Fail else
    var token := FlatBody(discarded.rest, 50);
    if token.Fail? then Fail else Got((), token.rest)
  }

  /** What follows them: whether an integer with the tag of the acknowledgement comes. */
  function FlatAcknowledged(s: Bytes): Option<bool> {
    if s == [] || s[0] !in [56, 100] then Some(false)
    else if FlatInt(s[1..]).Fail? then None
    else Some(s[0] == 56)
  }

  function FlatEnd(s: Bytes): Option<bool> {
    var unused := FlatUnused(s);
    if unused.Fail? then None else FlatAcknowledged(unused.rest)
  }

  function BothNumbers(lists: (Option<Bytes>, Option<Bytes>)): Option<ClientRequest> {
    var previous, added := Numbers(lists.0), Numbers(lists.1);
    if previous.None? || added.None? then None else Some(Ask(previous.value + added.value))
  }

  /** An acknowledgement of the token says nothing else, whatever comes with it. A field with
      the tag 100 is read for its integer. */
  datatype ClientRequest = Acknowledge | Ask(numbers: seq<Bytes>)

  function FlatClientRequest(s: Bytes): Option<ClientRequest> {
    var lists := FlatLists(s);
    if lists.Fail? then None else
    var acknowledged := FlatEnd(lists.rest);
    if acknowledged.None? then None else
    if acknowledged.value then Some(Acknowledge) else BothNumbers(lists.value)
  }

  // ---------------------------------------------------------------- what was asked is what is read

  /** Nothing follows, or a field with a greater tag. */
  predicate TagAfter(s: Bytes, tag: byte) {
    s == [] || s[0] > tag
  }

  lemma FieldReads(tag: byte, body: Option<Bytes>, rest: Bytes)
    requires body.Some? ==> |body.value| < 0x8000_0000
    requires TagAfter(rest, tag)
    ensures FlatBody(BodyField(tag, body) + rest, tag) == Got(body, rest)
    ensures forall lower: byte | lower < tag :: TagAfter(BodyField(tag, body) + rest, lower)
  {
    BodyRoundTrip(tag, body, rest);
    if body.None? {
      assert BodyField(tag, body) + rest == rest;
    }
  }

  function ListFields(uaks: Option<Bytes>, previous: Option<Bytes>, added: Option<Bytes>, rest: Bytes): Bytes {
    BodyField(10, uaks) + (BodyField(18, previous) + (BodyField(26, added) + rest))
  }

  function EndFields(discarded: Option<Bytes>, token: Option<Bytes>, rest: Bytes): Bytes {
    BodyField(34, discarded) + (BodyField(50, token) + rest)
  }

  predicate Short(body: Option<Bytes>) {
    body.Some? ==> |body.value| < 0x8000_0000
  }

  lemma ListsRead(uaks: Option<Bytes>, previous: Option<Bytes>, added: Option<Bytes>, rest: Bytes)
    requires Short(uaks) && Short(previous) && Short(added) && TagAfter(rest, 26)
    ensures FlatLists(ListFields(uaks, previous, added, rest)) == Got((previous, added), rest)
  {
    var s2 := BodyField(26, added) + rest;
    FieldReads(26, added, rest);
    FieldReads(18, previous, s2);
    FieldReads(10, uaks, BodyField(18, previous) + s2);
  }

  lemma UnusedReads(discarded: Option<Bytes>, token: Option<Bytes>, rest: Bytes)
    requires Short(discarded) && Short(token) && TagAfter(rest, 50)
    ensures FlatUnused(EndFields(discarded, token, rest)) == Got((), rest)
    ensures TagAfter(EndFields(discarded, token, rest), 26)
  {
    FieldReads(50, token, rest);
    FieldReads(34, discarded, BodyField(50, token) + rest);
  }

  lemma IntegerReads(tag: byte, n: u32)
    requires tag in [56, 100]
    ensures FlatAcknowledged([tag] + VarintOf(n)) == Some(tag == 56)
  {
    IntRoundTrip(n, []);
    assert ([tag] + VarintOf(n))[1..] == VarintOf(n) + [];
  }

  /** The numbers of a list, wherever they are put: eight bytes each. */
  predicate ListedFrom(numbers: seq<Bytes>, from: nat, text: Bytes) {
    && |text| % 8 == 0 && from + |text| / 8 <= |numbers|
    && forall i :: 0 <= i < |text| / 8 ==> numbers[from + i] == text[8 * i..8 * i + 8]
  }

  function TextOf(list: Option<Bytes>): Bytes {
    if list.Some? then list.value else []
  }

  lemma EightsListed(a: Bytes, b: Bytes)
    requires |a| % 8 == 0 && |b| % 8 == 0
    ensures ListedFrom(Eights(a) + Eights(b), 0, a) && ListedFrom(Eights(a) + Eights(b), |a| / 8, b)
  {
    forall i | 0 <= i < |a| / 8
      ensures (Eights(a) + Eights(b))[i] == a[8 * i..8 * i + 8]
    {
      EightsAt(a, i);
    }
    forall i | 0 <= i < |b| / 8
      ensures (Eights(a) + Eights(b))[|a| / 8 + i] == b[8 * i..8 * i + 8]
    {
      EightsAt(b, i);
    }
  }

  /** The previous numbers, then the new ones, and no others. */
  predicate AsksFor(request: ClientRequest, previous: Bytes, added: Bytes) {
    && request.Ask? && |request.numbers| == |previous| / 8 + |added| / 8
    && ListedFrom(request.numbers, 0, previous) && ListedFrom(request.numbers, |previous| / 8, added)
  }

  lemma BothRead(previous: Option<Bytes>, added: Option<Bytes>)
    ensures match BothNumbers((previous, added))
      case None => |TextOf(previous)| % 8 != 0 || |TextOf(added)| % 8 != 0
      case Some(request) => AsksFor(request, TextOf(previous), TextOf(added))
  {
    if |TextOf(previous)| % 8 == 0 && |TextOf(added)| % 8 == 0 {
      EightsListed(TextOf(previous), TextOf(added));
      assert Eights([]) == [];
    }
  }

  /** The end of a request: an acknowledgement, another integer, or nothing. */
  datatype Ending = Acknowledges(n: u32) | Another(n: u32) | Nothing

  function EndingText(ending: Ending): Bytes {
    match ending
    case Acknowledges(n) => [56] + VarintOf(n)
    case Another(n) => [100] + VarintOf(n)
    case Nothing => []
  }

  lemma EndingReads(discarded: Option<Bytes>, token: Option<Bytes>, ending: Ending)
    requires Short(discarded) && Short(token)
    ensures FlatEnd(EndFields(discarded, token, EndingText(ending))) == Some(ending.Acknowledges?)
    ensures TagAfter(EndFields(discarded, token, EndingText(ending)), 26)
  {
    UnusedReads(discarded, token, EndingText(ending));
    match ending
    case Acknowledges(n) => IntegerReads(56, n);
    case Another(n) => IntegerReads(100, n);
    case Nothing =>
  }

  /** A request of fields in their order is read as what it says, whichever of them are there: an
      acknowledgement, or the previous numbers and then the new ones, unless a list is not a
      number of eight-byte pieces. */
  lemma RequestReads(uaks: Option<Bytes>, previous: Option<Bytes>, added: Option<Bytes>, discarded: Option<Bytes>,
                     token: Option<Bytes>, ending: Ending)
    requires Short(uaks) && Short(previous) && Short(added) && Short(discarded) && Short(token)
    ensures var text := ListFields(uaks, previous, added, EndFields(discarded, token, EndingText(ending)));
      match FlatClientRequest(text)
      case None => !ending.Acknowledges? && (|TextOf(previous)| % 8 != 0 || |TextOf(added)| % 8 != 0)
      case Some(request) =>
        if ending.Acknowledges? then request == Acknowledge else AsksFor(request, TextOf(previous), TextOf(added))
  {
    EndingReads(discarded, token, ending);
    ListsRead(uaks, previous, added, EndFields(discarded, token, EndingText(ending)));
    BothRead(previous, added);
  }

  // ---------------------------------------------------------------- reading it from chunks

  /** The byte read ahead decides whether a field is there. */
  method ParseField(chunk: StringBuffer, at: Cursor, c: int, tag: byte, ghost rest: Bytes)
    returns (r: Result<Parsed<(Option<StringBuffer>, int)>, ProtoError>)
    requires chunk.Valid() && at.Valid() && NextIs(rest, c, Rest(chunk, at)) && (c >= 0 ==> at.buf.Some?)
    modifies chunk
    ensures chunk.Valid()
    ensures r.Ok? && r.value.value.0.Some? ==> fresh(r.value.value.0.value)
    ensures AgreesBody(FlatBody(rest, tag), r, chunk)
    ensures r.Err? <==> FlatBody(rest, tag).Fail?
  {
    if c != tag {
      assert rest != [] ==> rest == [rest[0]] + rest[1..];
      return Ok(Parsed((None, c), at));
    }
    var str := ParseStrbuf(chunk, at);
    if str.Err? {
      return Err(str.error);
    }
    var c', at' := ParseByte(chunk, str.value.at);
    r := Ok(Parsed((Some(str.value.value), c'), at'));
  }

  /** The two lists, and the byte that follows them. */
  datatype Lists = Lists(previous: Option<StringBuffer>, added: Option<StringBuffer>, next: int, at: Cursor)

  ghost predicate AgreesLists(flat: Flat<(Option<Bytes>, Option<Bytes>)>, f: Lists, chunk: StringBuffer)
    reads chunk, if f.previous.Some? then {f.previous.value} else {}, if f.added.Some? then {f.added.value} else {}
  {
    && f.at.Valid() && (f.next >= 0 ==> f.at.buf.Some?)
    && (f.previous.Some? ==> f.previous.value.Valid()) && (f.added.Some? ==> f.added.value.Valid())
    && (f.previous.Some? && f.added.Some? ==> f.previous.value != f.added.value)
    && flat.Got? && flat.value == (BodyText(f.previous), BodyText(f.added))
    && NextIs(flat.rest, f.next, Rest(chunk, f.at))
  }

  method ParsePair(chunk: StringBuffer, at: Cursor, c: int, ghost rest: Bytes) returns (r: Result<Lists, ProtoError>)
    requires chunk.Valid() && at.Valid() && NextIs(rest, c, Rest(chunk, at)) && (c >= 0 ==> at.buf.Some?)
    modifies chunk
    ensures chunk.Valid()
    ensures r.Err? <==> FlatPair(rest).Fail?
    ensures r.Ok? ==> (r.value.previous.Some? ==> fresh(r.value.previous.value))
                      && (r.value.added.Some? ==> fresh(r.value.added.value))
    ensures r.Ok? ==> AgreesLists(FlatPair(rest), r.value, chunk)
  {
    var previous := ParseField(chunk, at, c, 18, rest);
    if previous.Err? {
      return Err(previous.error);
    }
    ghost var flat := FlatBody(rest, 18);
    assert BodyText(previous.value.value.0) == flat.value;
    var added := ParseField(chunk, previous.value.at, previous.value.value.1, 26, flat.rest);
    if added.Err? {
      return Err(added.error);
    }
    assert BodyText(previous.value.value.0) == flat.value;
    r := Ok(Lists(previous.value.value.0, added.value.value.0, added.value.value.1, added.value.at));
  }

  method ParseLists(chunk: StringBuffer) returns (r: Result<Lists, ProtoError>)
    requires chunk.Valid()
    modifies chunk
    ensures chunk.Valid()
    ensures r.Err? <==> FlatLists(old(chunk.Text())).Fail?
    ensures r.Ok? ==> (r.value.previous.Some? ==> fresh(r.value.previous.value))
                      && (r.value.added.Some? ==> fresh(r.value.added.value))
    ensures r.Ok? ==> AgreesLists(FlatLists(old(chunk.Text())), r.value, chunk)
  {
    assert Rest(chunk, Cursor(None, 0)) == chunk.Text();
    var c, at := ParseByte(chunk, Cursor(None, 0));
    var uaks := ParseField(chunk, at, c, 10, old(chunk.Text()));
    if uaks.Err? {
      return Err(uaks.error);
    }
    r := ParsePair(chunk, uaks.value.at, uaks.value.value.1, FlatBody(old(chunk.Text()), 10).rest);
  }

  method ParseUnused(chunk: StringBuffer, at: Cursor, c: int, ghost rest: Bytes)
    returns (r: Result<Parsed<int>, ProtoError>)
    requires chunk.Valid() && at.Valid() && NextIs(rest, c, Rest(chunk, at)) && (c >= 0 ==> at.buf.Some?)
    modifies chunk
    ensures chunk.Valid()
    ensures r.Err? <==> FlatUnused(rest).Fail?
    ensures r.Ok? ==> r.value.at.Valid() && NextIs(FlatUnused(rest).rest, r.value.value, Rest(chunk, r.value.at))
  {
    var discarded := ParseField(chunk, at, c, 34, rest);
    if discarded.Err? {
      return Err(discarded.error);
    }
    var token := ParseField(chunk, discarded.value.at, discarded.value.value.1, 50, FlatBody(rest, 34).rest);
    if token.Err? {
      return Err(token.error);
    }
    r := Ok(Parsed(token.value.value.1, token.value.at));
  }

  /** As far as a list has been read. */
  ghost predicate ReadUpTo(s: Bytes, o: nat, rest: Bytes, numbers: seq<Bytes>) {
    o % 8 == 0 && o <= |s| && rest == s[o..] && numbers == Eights(s[..o])
  }

  lemma EightStep(s: Bytes, o: nat, rest: Bytes, numbers: seq<Bytes>)
    requires ReadUpTo(s, o, rest, numbers) && o + 8 <= |s|
    ensures |rest| >= 8 && ReadUpTo(s, o + 8, rest[8..], numbers + [rest[..8]])
  {
    assert s[..o + 8][..o] == s[..o] && s[..o + 8][o..] == s[o..][..8];
  }

  /** Phone numbers, eight bytes each, for every way the list is cut into chunks. */
  method ParsePhoneNumbers(chunk: StringBuffer) returns (r: Result<seq<Bytes>, ProtoError>)
    requires chunk.Valid()
    modifies chunk
    ensures chunk.Valid()
    ensures if |old(chunk.Text())| % 8 != 0 then r.Err? else r == Ok(Eights(old(chunk.Text())))
  {
    var len := chunk.Length();
    if len % 8 != 0 {
      return Err(BadLength);
    }
    ghost var s := chunk.Text();
    var numbers: seq<Bytes> := [];
    var at := Cursor(None, 0);
    assert Rest(chunk, at) == s;
    ghost var o: nat := 0;
    var size := len / 8;
    assert |s| == 8 * size;
    for i := 0 to size
      invariant o == 8 * i && chunk.Valid() && at.Valid()
      invariant ReadUpTo(s, o, Rest(chunk, at), numbers)
    {
      EightStep(s, o, Rest(chunk, at), numbers);
      var str := ParseBytes(chunk, at, 8);
      at := str.value.at;
      numbers := numbers + [str.value.value];
      o := o + 8;
    }
    assert s[..o] == s;
    r := Ok(numbers);
  }

  /** A list that is not there is an empty one. */
  method ParseNumbers(list: Option<StringBuffer>) returns (r: Result<seq<Bytes>, ProtoError>)
    requires list.Some? ==> list.value.Valid()
    modifies if list.Some? then {list.value} else {}
    ensures match Numbers(old(BodyText(list)))
      case None => r.Err?
      case Some(numbers) => r == Ok(numbers)
  {
    var chunk: StringBuffer;
    if list.Some? {
      chunk := list.value;
    } else {
      chunk := new StringBuffer([]);
    }
    r := ParsePhoneNumbers(chunk);
  }

  method ParseAcknowledged(chunk: StringBuffer, at: Cursor, c: int, ghost rest: Bytes) returns (r: Result<bool, ProtoError>)
    requires chunk.Valid() && at.Valid() && NextIs(rest, c, Rest(chunk, at))
    modifies chunk
    ensures chunk.Valid()
    ensures match FlatAcknowledged(rest)
      case None => r.Err?
      case Some(acknowledged) => r == Ok(acknowledged)
  {
    if c == 56 || c == 100 {
      var n := ParseInt(chunk, at);
      if n.Err? {
        return Err(n.error);
      }
    }
    r := Ok(c == 56);
  }

  method ParseEnd(chunk: StringBuffer, at: Cursor, c: int, ghost rest: Bytes) returns (r: Result<bool, ProtoError>)
    requires chunk.Valid() && at.Valid() && NextIs(rest, c, Rest(chunk, at)) && (c >= 0 ==> at.buf.Some?)
    modifies chunk
    ensures chunk.Valid()
    ensures match FlatEnd(rest)
      case None => r.Err?
      case Some(acknowledged) => r == Ok(acknowledged)
  {
    var next := ParseUnused(chunk, at, c, rest);
    if next.Err? {
      return Err(next.error);
    }
    r := ParseAcknowledged(chunk, next.value.at, next.value.value, FlatUnused(rest).rest);
  }

  method ParseBoth(previous: Option<StringBuffer>, added: Option<StringBuffer>)
    returns (r: Result<ClientRequest, ProtoError>)
    requires previous.Some? ==> previous.value.Valid()
    requires added.Some? ==> added.value.Valid()
    requires previous.Some? && added.Some? ==> previous.value != added.value
    modifies (if previous.Some? then {previous.value} else {}) + (if added.Some? then {added.value} else {})
    ensures match BothNumbers((old(BodyText(previous)), old(BodyText(added))))
      case None => r.Err?
      case Some(request) => r == Ok(request)
  {
    var numbers := ParseNumbers(previous);
    if numbers.Err? {
      return Err(numbers.error);
    }
    var more := ParseNumbers(added);
    if more.Err? {
      return Err(more.error);
    }
    r := Ok(Ask(numbers.value + more.value));
  }

  /** For every way the request is cut into chunks. */
  method ParseClientRequest(chunk: StringBuffer) returns (r: Result<ClientRequest, ProtoError>)
    requires chunk.Valid()
    modifies chunk
    ensures chunk.Valid()
    ensures match FlatClientRequest(old(chunk.Text()))
      case None => r.Err?
      case Some(request) => r == Ok(request)
  {
    var lists := ParseLists(chunk);
    if lists.Err? {
      return Err(lists.error);
    }
    var acknowledged := ParseEnd(chunk, lists.value.at, lists.value.next, FlatLists(old(chunk.Text())).rest);
    if acknowledged.Err? {
      return Err(acknowledged.error);
    }
    if acknowledged.value {
      return Ok(Acknowledge);
    }
    r := ParseBoth(lists.value.previous, lists.value.added);
  }
}
