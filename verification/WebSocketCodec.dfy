/** WebSocket requests and responses: printing them, and reading them back from chunks of
    any size. */
module WebSocketCodec {
  import opened ByteStrings
  import opened Wrappers
  import opened StringBuffers
  import opened Proto

  // ---------------------------------------------------------------- messages

  /** A header as the mapping has it: one value, or several of which the first is sent. */
  datatype HeaderValue = One(text: Bytes) | Several(texts: seq<Bytes>)
  datatype Header = Header(name: Bytes, value: HeaderValue)

  const COLON: byte := 58
  const NEWLINE: byte := 10

  predicate Sendable(h: Header) {
    (h.value.Several? ==> h.value.texts != []) && |Line(h)| < 0x8000_0000
  }

  function Line(h: Header): Bytes {
    h.name + [COLON] +
    match h.value
    case One(text) => text
    case Several(texts) => if texts == [] then [] else texts[0]
  }

  /** Header lines as the HTTP header parser is handed them. */
  function Lines(headers: seq<Header>): Bytes {
    if headers == [] then [] else Line(headers[0]) + [NEWLINE] + Lines(headers[1..])
  }

  function HeaderFields(headers: seq<Header>): Bytes {
    if headers == [] then [] else [42] + StringOf(Line(headers[0])) + HeaderFields(headers[1..])
  }

  function BodyField(tag: byte, body: Option<Bytes>): Bytes {
    if body.Some? then [tag] + StringOf(body.value) else []
  }

  function RequestShape(verb: Bytes, path: Bytes, body: Bytes, context: Bytes, headers: Bytes): Bytes {
    [10] + (verb + ([18] + (path + (body + ([32] + (context + headers))))))
  }

  function ResponseShape(context: Bytes, code: Bytes, comment: Bytes, body: Bytes, headers: Bytes): Bytes {
    [8] + (context + ([16] + (code + ([26] + (comment + (body + headers))))))
  }

  /** The inner request: verb, path, body, context, headers. */
  function RequestBytes(verb: Bytes, path: Bytes, body: Option<Bytes>, headers: seq<Header>, context: Bytes): Bytes
    requires PrintableAsn(context)
  {
    RequestShape(StringOf(verb), StringOf(path), BodyField(26, body), AsnDigits(context), HeaderFields(headers))
  }

  /** The inner response: context, code, comment, body, headers. */
  function ResponseBytes(context: Bytes, code: u32, comment: Bytes, body: Option<Bytes>, headers: seq<Header>): Bytes
    requires PrintableAsn(context)
  {
    ResponseShape(AsnDigits(context), VarintOf(code), StringOf(comment), BodyField(34, body), HeaderFields(headers))
  }

  datatype Kind = RequestKind | ResponseKind

  /** The outer message: a type, and the inner message behind a tag of its own. */
  function Wrapped(kind: Kind, inner: Bytes): Bytes {
    (if kind == RequestKind then [8, 1, 18] else [8, 2, 26]) + StringOf(inner)
  }

  // ---------------------------------------------------------------- flat parsing

  datatype RequestMessage = RequestMessage(context: Bytes, verb: Bytes, path: Bytes, body: Option<Bytes>, headers: Bytes)
  datatype ResponseMessage = ResponseMessage(context: Bytes, code: u32, message: Bytes, body: Option<Bytes>,
                                             headers: Option<Bytes>)

  function Tagged(s: Bytes, tag: byte): (r: Flat<()>)
    ensures r.Got? ==> |r.rest| < |s|
  {
    if s != [] && s[0] == tag then Got((), s[1..]) else Fail
  }

  function FlatBody(s: Bytes, tag: byte): (r: Flat<Option<Bytes>>)
    ensures r.Got? ==> |r.rest| <= |s|
  {
    if s != [] && s[0] == tag then
      match FlatString(s[1..])
      case Fail => Fail
      case Got(body, rest) => Got(Some(body), rest)
    else Got(None, s)
  }

  function FlatContext(s: Bytes): (r: Flat<Bytes>)
    ensures r.Got? ==> |r.rest| < |s|
  {
    match FlatAsn(s)
    case Fail => Fail
    case Got(v, rest) => Got(Extend(v, 8), rest)
  }

  function FlatHeaders(s: Bytes): Option<Bytes>
    decreases |s|
  {
    if s == [] then Some([])
    else if s[0] != 42 then None
    else
      match FlatString(s[1..])
      case Fail => None
      case Got(header, rest) =>
        match FlatHeaders(rest)
        case None => None
        case Some(more) => Some(header + [NEWLINE] + more)
  }

  /** Verb and path. */
  function FlatTarget(s: Bytes): Flat<(Bytes, Bytes)> {
    var t1 := Tagged(s, 10);
    if t1.Fail? then Fail else
    var verb := FlatString(t1.rest);
    if verb.Fail? then Fail else
    var t2 := Tagged(verb.rest, 18);
    if t2.Fail? then Fail else
    var path := FlatString(t2.rest);
    if path.Fail? then Fail else Got((verb.value, path.value), path.rest)
  }

  /** Body and context. */
  function FlatContent(s: Bytes): Flat<(Option<Bytes>, Bytes)> {
    var body := FlatBody(s, 26);
    if body.Fail? then Fail else
    var t := Tagged(body.rest, 32);
    if t.Fail? then Fail else
    var context := FlatContext(t.rest);
    if context.Fail? then Fail else Got((body.value, context.value), context.rest)
  }

  function FlatRequest(s: Bytes): Option<RequestMessage> {
    var target := FlatTarget(s);
    if target.Fail? then None else
    var content := FlatContent(target.rest);
    if content.Fail? then None else
    var headers := FlatHeaders(content.rest);
    if headers.None? then None else
    Some(RequestMessage(content.value.1, target.value.0, target.value.1, content.value.0, headers.value))
  }

  /** Headers are present when anything follows the body. */
  function FlatTail(s: Bytes): Flat<Option<Bytes>> {
    if s == [] then Got(None, [])
    else
      match FlatHeaders(s)
      case None => Fail
      case Some(headers) => Got(Some(headers), [])
  }

  /** Context, code and message. */
  function FlatStatus(s: Bytes): Flat<(Bytes, u32, Bytes)> {
    var t1 := Tagged(s, 8);
    if t1.Fail? then Fail else
    var context := FlatContext(t1.rest);
    if context.Fail? then Fail else
    var t2 := Tagged(context.rest, 16);
    if t2.Fail? then Fail else
    var code := FlatInt(t2.rest);
    if code.Fail? then Fail else
    var t3 := Tagged(code.rest, 26);
    if t3.Fail? then Fail else
    var message := FlatString(t3.rest);
    if message.Fail? then Fail else Got((context.value, code.value, message.value), message.rest)
  }

  function FlatResponse(s: Bytes): Option<ResponseMessage> {
    var status := FlatStatus(s);
    if status.Fail? then None else
    var body := FlatBody(status.rest, 34);
    if body.Fail? then None else
    var headers := FlatTail(body.rest);
    if headers.Fail? then None else
    Some(ResponseMessage(status.value.0, status.value.1, status.value.2, body.value, headers.value))
  }

  function FlatWrapped(s: Bytes): Option<(Kind, Bytes)> {
    var t1 := Tagged(s, 8);
    if t1.Fail? then None else
    var kind := FlatInt(t1.rest);
    if kind.Fail? || (kind.value != 1 && kind.value != 2) then None else
    var t2 := Tagged(kind.rest, if kind.value == 1 then 18 else 26);
    if t2.Fail? then None else
    var inner := FlatString(t2.rest);
    if inner.Fail? then None else
    Some((if kind.value == 1 then RequestKind else ResponseKind, inner.value))
  }

  // ---------------------------------------------------------------- round trips

  lemma TagRoundTrip(tag: byte, rest: Bytes)
    ensures Tagged([tag] + rest, tag) == Got((), rest)
  {
    assert ([tag] + rest)[1..] == rest;
  }

  /** A body comes back as it was sent; none stays none, and an empty one stays empty. */
  lemma BodyReads(tag: byte, str: Bytes, text: Bytes, rest: Bytes)
    requires FlatString(text + rest) == Got(str, rest)
    ensures FlatBody(([tag] + text) + rest, tag) == Got(Some(str), rest)
  {
    assert (([tag] + text) + rest)[1..] == text + rest;
  }

  lemma BodyRoundTrip(tag: byte, body: Option<Bytes>, rest: Bytes)
    requires body.Some? ==> |body.value| < 0x8000_0000
    requires rest == [] || rest[0] != tag
    ensures FlatBody(BodyField(tag, body) + rest, tag) == Got(body, rest)
  {
    var s := BodyField(tag, body) + rest;
    if body.Some? {
      StringRoundTrip(body.value, rest);
      BodyReads(tag, body.value, StringOf(body.value), rest);
    } else {
      assert s == rest;
    }
  }

  lemma ContextRoundTrip(context: Bytes, rest: Bytes)
    requires |context| == 8
    ensures FlatContext(AsnDigits(context) + rest) == Got(context, rest)
  {
    AsnRoundTrip(context, rest);
  }

  lemma {:induction false} HeadersRoundTrip(headers: seq<Header>)
    requires forall i :: 0 <= i < |headers| ==> Sendable(headers[i])
    ensures FlatHeaders(HeaderFields(headers)) == Some(Lines(headers))
  {
    if headers != [] {
      var s, line := HeaderFields(headers), Line(headers[0]);
      assert s[1..] == StringOf(line) + HeaderFields(headers[1..]);
      StringRoundTrip(line, HeaderFields(headers[1..]));
      HeadersRoundTrip(headers[1..]);
    }
  }

  // ---------------------------------------------------------------- header lines read back

  /** The place of the first such byte, or the length. */
  function FirstOf(s: Bytes, b: byte): (i: nat)
    ensures i <= |s| && b !in s[..i] && (i < |s| ==> s[i] == b)
  {
    if s == [] || s[0] == b then 0 else 1 + FirstOf(s[1..], b)
  }

  /** The text of every line, each ended by a newline. */
  function LinesOf(text: Bytes): seq<Bytes> {
    var i := FirstOf(text, NEWLINE);
    if i == |text| then [] else [text[..i]] + LinesOf(text[i + 1..])
  }

  /** A line cut at its first colon, into a name and a value. */
  function Field(line: Bytes): Option<(Bytes, Bytes)> {
    var i := FirstOf(line, COLON);
    if i == |line| then None else Some((line[..i], line[i + 1..]))
  }

  /** A header that a line can hold: a name without colon or newline, a value without newline. */
  predicate Plain(h: Header) {
    && COLON !in h.name && NEWLINE !in h.name
    && (h.value.One? ==> NEWLINE !in h.value.text)
    && (h.value.Several? ==> h.value.texts != [] && NEWLINE !in h.value.texts[0])
  }

  /** A name and a value are those of a header, the value its only one or the first of several. */
  predicate Carries(field: Option<(Bytes, Bytes)>, h: Header) {
    && field.Some? && field.value.0 == h.name
    && (h.value.One? ==> field.value.1 == h.value.text)
    && (h.value.Several? ==> h.value.texts != [] && field.value.1 == h.value.texts[0])
  }

  predicate CarryAll(lines: seq<Bytes>, headers: seq<Header>) {
    |lines| == |headers| && forall i :: 0 <= i < |headers| ==> Carries(Field(lines[i]), headers[i])
  }

  /** The lines of a text are those of the headers, in their order, and there are no others. */
  predicate ReadsAs(text: Bytes, headers: seq<Header>) {
    CarryAll(LinesOf(text), headers)
  }

  lemma {:induction false} FirstIs(s: Bytes, b: byte, t: Bytes)
    requires b !in s
    ensures FirstOf(s + [b] + t, b) == |s|
  {
    if s != [] {
      assert (s + [b] + t)[1..] == s[1..] + [b] + t;
      assert b !in s[1..];
      FirstIs(s[1..], b, t);
    }
  }

  lemma FieldOfLine(h: Header)
    requires Plain(h)
    ensures Carries(Field(Line(h)), h) && NEWLINE !in Line(h)
  {
    var value := Line(h)[|h.name| + 1..];
    assert Line(h) == h.name + [COLON] + value;
    FirstIs(h.name, COLON, value);
  }

  lemma LineCutOff(line: Bytes, rest: Bytes)
    requires NEWLINE !in line
    ensures LinesOf(line + [NEWLINE] + rest) == [line] + LinesOf(rest)
  {
    var text := line + [NEWLINE] + rest;
    FirstIs(line, NEWLINE, rest);
    assert text[..|line|] == line && text[|line| + 1..] == rest;
  }

  lemma CarryNext(line: Bytes, lines: seq<Bytes>, headers: seq<Header>)
    requires headers != [] && Carries(Field(line), headers[0]) && CarryAll(lines, headers[1..])
    ensures CarryAll([line] + lines, headers)
  {
    forall i | 0 <= i < |headers|
      ensures Carries(Field(([line] + lines)[i]), headers[i])
    {
      if i > 0 {
        assert headers[1..][i - 1] == headers[i];
      }
    }
  }

  predicate AllPlain(headers: seq<Header>) {
    forall i :: 0 <= i < |headers| ==> Plain(headers[i])
  }

  /** Header lines, cut at their newlines and each at its first colon, give the names and values
      that were sent. */
  lemma {:induction false} LinesReadBack(headers: seq<Header>)
    requires AllPlain(headers)
    ensures ReadsAs(Lines(headers), headers)
  {
    if headers != [] {
      var line, rest := Line(headers[0]), Lines(headers[1..]);
      FieldOfLine(headers[0]);
      LineCutOff(line, rest);
      LinesReadBack(headers[1..]);
      CarryNext(line, LinesOf(rest), headers);
    }
  }

  lemma FieldsStart(headers: seq<Header>)
    ensures HeaderFields(headers) == [] <==> headers == []
    ensures headers != [] ==> HeaderFields(headers)[0] == 42
  {}

  lemma TargetRoundTrip(verb: Bytes, path: Bytes, rest: Bytes)
    requires |verb| < 0x8000_0000 && |path| < 0x8000_0000
    ensures FlatTarget([10] + (StringOf(verb) + ([18] + (StringOf(path) + rest)))) == Got((verb, path), rest)
  {
    var s2 := StringOf(path) + rest;
    var s1 := StringOf(verb) + ([18] + s2);
    TagRoundTrip(10, s1);
    StringRoundTrip(verb, [18] + s2);
    TagRoundTrip(18, s2);
    StringRoundTrip(path, rest);
  }

  lemma ContentRoundTrip(body: Option<Bytes>, context: Bytes, digits: Bytes, rest: Bytes)
    requires body.Some? ==> |body.value| < 0x8000_0000
    requires FlatContext(digits + rest) == Got(context, rest)
    ensures FlatContent(BodyField(26, body) + ([32] + (digits + rest))) == Got((body, context), rest)
  {
    BodyRoundTrip(26, body, [32] + (digits + rest));
    TagRoundTrip(32, digits + rest);
  }

  /** A request comes back with its verb, path, body, context and header lines. */
  lemma RequestRoundTrip(verb: Bytes, path: Bytes, body: Option<Bytes>, headers: seq<Header>, context: Bytes)
    requires |context| == 8 && |verb| < 0x8000_0000 && |path| < 0x8000_0000
    requires body.Some? ==> |body.value| < 0x8000_0000
    requires forall i :: 0 <= i < |headers| ==> Sendable(headers[i])
    ensures FlatRequest(RequestBytes(verb, path, body, headers, context))
         == Some(RequestMessage(context, verb, path, body, Lines(headers)))
  {
    var digits, fields := AsnDigits(context), HeaderFields(headers);
    var s := BodyField(26, body) + ([32] + (digits + fields));
    TargetRoundTrip(verb, path, s);
    ContextRoundTrip(context, fields);
    ContentRoundTrip(body, context, digits, fields);
    HeadersRoundTrip(headers);
    AssembleRequest(RequestBytes(verb, path, body, headers, context), (verb, path), s, (body, context), fields, Lines(headers));
  }

  lemma AssembleRequest(s: Bytes, target: (Bytes, Bytes), s1: Bytes, content: (Option<Bytes>, Bytes), s2: Bytes, headers: Bytes)
    requires FlatTarget(s) == Got(target, s1) && FlatContent(s1) == Got(content, s2) && FlatHeaders(s2) == Some(headers)
    ensures FlatRequest(s) == Some(RequestMessage(content.1, target.0, target.1, content.0, headers))
  {}

  lemma StatusRoundTrip(context: Bytes, digits: Bytes, code: u32, comment: Bytes, rest: Bytes)
    requires |comment| < 0x8000_0000
    requires var s := [16] + (VarintOf(code) + ([26] + (StringOf(comment) + rest))); FlatContext(digits + s) == Got(context, s)
    ensures FlatStatus([8] + (digits + ([16] + (VarintOf(code) + ([26] + (StringOf(comment) + rest))))))
         == Got((context, code, comment), rest)
  {
    var s4 := StringOf(comment) + rest;
    var s3 := VarintOf(code) + ([26] + s4);
    TagRoundTrip(8, digits + ([16] + s3));
    TagRoundTrip(16, s3);
    IntRoundTrip(code, [26] + s4);
    TagRoundTrip(26, s4);
    StringRoundTrip(comment, rest);
  }

  lemma {:induction false} HeadersStart(headers: seq<Header>)
    requires forall i :: 0 <= i < |headers| ==> Sendable(headers[i])
    ensures FlatTail(HeaderFields(headers)) == Got(if headers == [] then None else Some(Lines(headers)), [])
  {
    HeadersRoundTrip(headers);
    FieldsStart(headers);
  }

  /** A response comes back with its context, code, comment, body and header lines. */
  lemma ResponseRoundTrip(context: Bytes, code: u32, comment: Bytes, body: Option<Bytes>, headers: seq<Header>)
    requires |context| == 8 && |comment| < 0x8000_0000
    requires body.Some? ==> |body.value| < 0x8000_0000
    requires forall i :: 0 <= i < |headers| ==> Sendable(headers[i])
    ensures FlatResponse(ResponseBytes(context, code, comment, body, headers))
         == Some(ResponseMessage(context, code, comment, body, if headers == [] then None else Some(Lines(headers))))
  {
    var digits, fields := AsnDigits(context), HeaderFields(headers);
    var s := BodyField(34, body) + fields;
    ContextRoundTrip(context, [16] + (VarintOf(code) + ([26] + (StringOf(comment) + s))));
    StatusRoundTrip(context, digits, code, comment, s);
    FieldsStart(headers);
    BodyRoundTrip(34, body, fields);
    HeadersStart(headers);
    AssembleResponse(ResponseBytes(context, code, comment, body, headers), (context, code, comment), s, body, fields,
                     if headers == [] then None else Some(Lines(headers)));
  }

  lemma AssembleResponse(s: Bytes, status: (Bytes, u32, Bytes), s1: Bytes, body: Option<Bytes>, s2: Bytes,
      headers: Option<Bytes>)
    requires FlatStatus(s) == Got(status, s1) && FlatBody(s1, 34) == Got(body, s2) && FlatTail(s2) == Got(headers, [])
    ensures FlatResponse(s) == Some(ResponseMessage(status.0, status.1, status.2, body, headers))
  {}

  lemma WrappedRoundTrip(kind: Kind, inner: Bytes)
    requires |inner| < 0x8000_0000
    ensures FlatWrapped(Wrapped(kind, inner)) == Some((kind, inner))
  {
    var tag: byte := if kind == RequestKind then 18 else 26;
    var number: u32 := if kind == RequestKind then 1 else 2;
    var s2 := StringOf(inner);
    var s1 := VarintOf(number) + ([tag] + s2);
    assert Wrapped(kind, inner) == [8] + s1;
    TagRoundTrip(8, s1);
    IntRoundTrip(number, [tag] + s2);
    TagRoundTrip(tag, s2);
    StringRoundTrip(inner, []);
    assert s2 + [] == s2;
  }

  // ---------------------------------------------------------------- printing

  lemma HeaderNext(headers: seq<Header>, i: nat, text: Bytes)
    requires i < |headers| && forall i :: 0 <= i < |headers| ==> Sendable(headers[i])
    ensures text + HeaderFields(headers[i..]) ==
            text + ([42] + StringOf(Line(headers[i]))) + HeaderFields(headers[i + 1..])
  {
    assert headers[i..][1..] == headers[i + 1..] && headers[i..][0] == headers[i];
  }

  method AppendHeaders(buffer: StringBuffer, headers: seq<Header>)
    requires buffer.Valid() && forall i :: 0 <= i < |headers| ==> Sendable(headers[i])
    modifies buffer
    ensures buffer.Valid() && buffer.Text() == old(buffer.Text()) + HeaderFields(headers)
  {
    for i := 0 to |headers|
      invariant buffer.Valid()
      invariant buffer.Text() + HeaderFields(headers[i..]) == old(buffer.Text()) + HeaderFields(headers)
    {
      var line := Line(headers[i]);
      var field := ProtoString(line);
      HeaderNext(headers, i, buffer.Text());
      buffer.Append([42] + field);
    }
  }

  method AppendBody(buffer: StringBuffer, tag: byte, body: Option<StringBuffer>)
    requires buffer.Valid() && (body.Some? ==> body.value.Valid() && body.value != buffer
                                               && |body.value.Text()| < 0x8000_0000)
    modifies buffer
    ensures buffer.Valid() && buffer.Text() == old(buffer.Text()) + BodyField(tag, BodyText(body))
  {
    if body.Some? {
      AppendField(buffer, tag, body.value);
    }
  }

  method AppendField(buffer: StringBuffer, tag: byte, body: StringBuffer)
    requires buffer.Valid() && body.Valid() && body != buffer && |body.Text()| < 0x8000_0000
    modifies buffer
    ensures buffer.Valid() && buffer.Text() == old(buffer.Text()) + ([tag] + StringOf(body.Text()))
  {
    ghost var before := buffer.Text();
    var field := ProtoStrbuf(body);
    buffer.Append([tag]);
    buffer.AppendBuffer(field);
    assert before + [tag] + StringOf(body.Text()) == before + ([tag] + StringOf(body.Text()));
  }

  ghost function BodyText(body: Option<StringBuffer>): Option<Bytes>
    reads if body.Some? then {body.value} else {}
  {
    if body.Some? then Some(body.value.Text()) else None
  }

  method WsRequest(verb: Bytes, path: Bytes, body: Option<StringBuffer>, extraHeaders: seq<Header>, context: Bytes)
    returns (r: Result<StringBuffer, ProtoError>)
    requires |verb| < 0x8000_0000 && |path| < 0x8000_0000
    requires body.Some? ==> body.value.Valid() && |body.value.Text()| < 0x8000_0000
    requires forall i :: 0 <= i < |extraHeaders| ==> Sendable(extraHeaders[i])
    requires PrintableAsn(context) ==> |RequestBytes(verb, path, BodyText(body), extraHeaders, context)| < 0x8000_0000
    ensures r.Ok? <==> PrintableAsn(context)
    ensures r.Ok? ==> fresh(r.value) && r.value.Valid()
    ensures r.Ok? ==> r.value.Text() == Wrapped(RequestKind, RequestBytes(verb, path, BodyText(body), extraHeaders, context))
  {
    var verbField := ProtoString(verb);
    var pathField := ProtoString(path);
    var request := new StringBuffer([10] + verbField + [18] + pathField);
    AppendBody(request, 26, body);
    request.Append([32]);
    var digits := ProtoAsn(context);
    if digits.Err? {
      return Err(digits.error);
    }
    request.Append(digits.value);
    AppendHeaders(request, extraHeaders);
    RequestInOrder(verbField, pathField, BodyField(26, BodyText(body)), digits.value, HeaderFields(extraHeaders));
    var chunk := new StringBuffer([8, 1, 18]);
    var field := ProtoStrbuf(request);
    chunk.AppendBuffer(field);
    r := Ok(chunk);
  }

  lemma RequestInOrder(verb: Bytes, path: Bytes, body: Bytes, context: Bytes, headers: Bytes)
    ensures [10] + verb + [18] + path + body + [32] + context + headers == RequestShape(verb, path, body, context, headers)
  {}

  /** comment is the reason phrase of the code. */
  method WsResponse(context: Bytes, code: u32, comment: u32 -> Bytes, entity: Option<StringBuffer>, extraHeaders: seq<Header>)
    returns (r: Result<StringBuffer, ProtoError>)
    requires |comment(code)| < 0x8000_0000
    requires entity.Some? ==> entity.value.Valid() && |entity.value.Text()| < 0x8000_0000
    requires forall i :: 0 <= i < |extraHeaders| ==> Sendable(extraHeaders[i])
    requires PrintableAsn(context) ==>
      |ResponseBytes(context, code, comment(code), BodyText(entity), extraHeaders)| < 0x8000_0000
    ensures r.Ok? <==> PrintableAsn(context)
    ensures r.Ok? ==> fresh(r.value) && r.value.Valid()
    ensures r.Ok? ==>
      r.value.Text() == Wrapped(ResponseKind, ResponseBytes(context, code, comment(code), BodyText(entity), extraHeaders))
  {
    var digits := ProtoAsn(context);
    if digits.Err? {
      return Err(digits.error);
    }
    var codeField := ProtoInt(code);
    var commentField := ProtoString(comment(code));
    var response := new StringBuffer([8] + digits.value + [16] + codeField + [26] + commentField);
    AppendBody(response, 34, entity);
    AppendHeaders(response, extraHeaders);
    ResponseInOrder(digits.value, codeField, commentField, BodyField(34, BodyText(entity)), HeaderFields(extraHeaders));
    var chunk := new StringBuffer([8, 2, 26]);
    var field := ProtoStrbuf(response);
    chunk.AppendBuffer(field);
    r := Ok(chunk);
  }

  lemma ResponseInOrder(context: Bytes, code: Bytes, comment: Bytes, body: Bytes, headers: Bytes)
    ensures [8] + context + [16] + code + [26] + comment + body + headers
         == ResponseShape(context, code, comment, body, headers)
  {}
}
