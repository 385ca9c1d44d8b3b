/** Reading WebSocket messages from a StringBuffer, chunk by chunk. */
module WebSocketReceive {
  import opened ByteStrings
  import opened Wrappers
  import opened StringBuffers
  import opened Proto
  import opened ProtoParse
  import opened WebSocketCodec

  datatype ReceivedRequest = ReceivedRequest(context: Bytes, verb: Bytes, path: Bytes, body: Option<StringBuffer>, headers: Bytes)
  datatype ReceivedResponse = ReceivedResponse(context: Bytes, code: u32, message: Bytes, body: Option<StringBuffer>,
                                               headers: Option<Bytes>)

  /** A tag that must come next. */
  method Expect(chunk: StringBuffer, at: Cursor, tag: byte) returns (r: Result<Parsed<()>, ProtoError>)
    requires chunk.Valid() && at.Valid()
    modifies chunk
    ensures chunk.Valid() && Agrees(Tagged(old(Rest(chunk, at)), tag), r, chunk)
  {
    var c, at' := ParseByte(chunk, at);
    if c != tag {
      return Err(BadTag);
    }
    r := Ok(Parsed((), at'));
  }

  ghost predicate AgreesBody(flat: Flat<Option<Bytes>>, r: Result<Parsed<(Option<StringBuffer>, int)>, ProtoError>,
      chunk: StringBuffer)
    reads chunk, if r.Ok? && r.value.value.0.Some? then {r.value.value.0.value} else {}
  {
    && (r.Err? ==> flat.Fail?)
    && (r.Ok? ==>
          && r.value.at.Valid()
          && (r.value.value.0.Some? ==> r.value.value.0.value.Valid())
          && flat.Got? && flat.value == BodyText(r.value.value.0)
          && NextIs(flat.rest, r.value.value.1, Rest(chunk, r.value.at))
          && (r.value.value.1 >= 0 ==> r.value.at.buf.Some?))
  }

  /** The byte read ahead, or -1, together with what is left after it. */
  ghost predicate NextIs(rest: Bytes, c: int, after: Bytes) {
    if rest == [] then c == -1 && after == [] else c == rest[0] && after == rest[1..]
  }

  /** An optional body, and the byte that follows it. */
  method ParseBody(chunk: StringBuffer, at: Cursor, tag: byte)
    returns (r: Result<Parsed<(Option<StringBuffer>, int)>, ProtoError>)
    requires chunk.Valid() && at.Valid()
    modifies chunk
    ensures chunk.Valid()
    ensures r.Ok? && r.value.value.0.Some? ==> fresh(r.value.value.0.value)
    ensures AgreesBody(FlatBody(old(Rest(chunk, at)), tag), r, chunk)
  {
    var c, at' := ParseByte(chunk, at);
    var body: Option<StringBuffer> := None;
    if c == tag {
      var str := ParseStrbuf(chunk, at');
      if str.Err? {
        return Err(str.error);
      }
      body := Some(str.value.value);
      c, at' := ParseByte(chunk, str.value.at);
    }
    r := Ok(Parsed((body, c), at'));
  }

  method ParseContext(chunk: StringBuffer, at: Cursor) returns (r: Result<Parsed<Bytes>, ProtoError>)
    requires chunk.Valid() && at.Valid()
    modifies chunk
    ensures chunk.Valid() && Agrees(FlatContext(old(Rest(chunk, at))), r, chunk)
  {
    var context := ParseAsn(chunk, at);
    if context.Err? {
      return Err(context.error);
    }
    r := Ok(Parsed(Extend(context.value.value, 8), context.value.at));
  }

  /** All remaining headers, one line each. */
  method ParseHeaders(chunk: StringBuffer, at: Cursor) returns (r: Result<Bytes, ProtoError>)
    requires chunk.Valid() && at.Valid() && at.buf.Some?
    modifies chunk
    ensures chunk.Valid()
    ensures r.Ok? <==> FlatHeaders(old(Rest(chunk, at))).Some?
    ensures r.Ok? ==> FlatHeaders(old(Rest(chunk, at))) == Some(r.value)
  {
    ghost var s := Rest(chunk, at);
    var cursor, headers: Bytes := at, [];
    HeadersNone(s);
    var done := ParseDone(chunk, cursor);
    while !done
      invariant chunk.Valid() && cursor.Valid() && cursor.buf.Some?
      invariant done <==> Rest(chunk, cursor) == []
      invariant HeadersSoFar(s, headers, Rest(chunk, cursor))
      decreases |Rest(chunk, cursor)|, !done
    {
      ghost var rest := Rest(chunk, cursor);
      var tag := Expect(chunk, cursor, 42);
      if tag.Err? {
        return Err(tag.error);
      }
      var header := ParseString(chunk, tag.value.at);
      if header.Err? {
        return Err(header.error);
      }
      cursor := header.value.at;
      HeadersStep(s, headers, rest, header.value.value, Rest(chunk, cursor));
      headers := headers + header.value.value + [NEWLINE];
      done := ParseDone(chunk, cursor);
    }
    assert headers + [] == headers;
    r := Ok(headers);
  }

  ghost predicate HeadersSoFar(s: Bytes, headers: Bytes, rest: Bytes) {
    FlatHeaders(s) == match FlatHeaders(rest)
                      case None => None
                      case Some(more) => Some(headers + more)
  }

  lemma HeadersNone(s: Bytes)
    ensures HeadersSoFar(s, [], s)
  {
    match FlatHeaders(s)
    case None =>
    case Some(more) => assert [] + more == more;
  }

  lemma HeadersStep(s: Bytes, headers: Bytes, rest: Bytes, header: Bytes, rest': Bytes)
    requires HeadersSoFar(s, headers, rest) && rest != [] && rest[0] == 42
    requires FlatString(rest[1..]) == Got(header, rest')
    ensures HeadersSoFar(s, headers + header + [NEWLINE], rest')
  {
    match FlatHeaders(rest')
    case None =>
    case Some(more) =>
      assert headers + (header + [NEWLINE] + more) == (headers + header + [NEWLINE]) + more;
  }

  method ParseTarget(chunk: StringBuffer, at: Cursor) returns (r: Result<Parsed<(Bytes, Bytes)>, ProtoError>)
    requires chunk.Valid() && at.Valid()
    modifies chunk
    ensures chunk.Valid() && Agrees(FlatTarget(old(Rest(chunk, at))), r, chunk)
  {
    var t1 := Expect(chunk, at, 10);
    if t1.Err? {
      return Err(t1.error);
    }
    var verb := ParseString(chunk, t1.value.at);
    if verb.Err? {
      return Err(verb.error);
    }
    var t2 := Expect(chunk, verb.value.at, 18);
    if t2.Err? {
      return Err(t2.error);
    }
    var path := ParseString(chunk, t2.value.at);
    if path.Err? {
      return Err(path.error);
    }
    r := Ok(Parsed((verb.value.value, path.value.value), path.value.at));
  }

  ghost function RequestValue(m: ReceivedRequest): RequestMessage
    reads if m.body.Some? then {m.body.value} else {}
  {
    RequestMessage(m.context, m.verb, m.path, BodyText(m.body), m.headers)
  }

  ghost predicate AgreesContent(flat: Flat<(Option<Bytes>, Bytes)>, r: Result<Parsed<(Option<StringBuffer>, Bytes)>, ProtoError>,
      chunk: StringBuffer)
    reads chunk, if r.Ok? && r.value.value.0.Some? then {r.value.value.0.value} else {}
  {
    && (r.Err? <==> flat.Fail?)
    && (r.Ok? ==> r.value.at.Valid() && r.value.at.buf.Some?
                  && flat == Got((BodyText(r.value.value.0), r.value.value.1), Rest(chunk, r.value.at)))
  }

  /** Optional body and context. */
  method ParseContent(chunk: StringBuffer, at: Cursor)
    returns (r: Result<Parsed<(Option<StringBuffer>, Bytes)>, ProtoError>)
    requires chunk.Valid() && at.Valid()
    modifies chunk
    ensures chunk.Valid()
    ensures r.Ok? && r.value.value.0.Some? ==> fresh(r.value.value.0.value)
    ensures AgreesContent(FlatContent(old(Rest(chunk, at))), r, chunk)
  {
    var body := ParseBody(chunk, at, 26);
    if body.Err? {
      return Err(body.error);
    }
    if body.value.value.1 != 32 {
      return Err(BadTag);
    }
    var context := ParseContext(chunk, body.value.at);
    if context.Err? {
      return Err(context.error);
    }
    r := Ok(Parsed((body.value.value.0, context.value.value), context.value.at));
  }

  method WsReceiveRequest(chunk: StringBuffer) returns (r: Result<ReceivedRequest, ProtoError>)
    requires chunk.Valid()
    modifies chunk
    ensures r.Err? <==> FlatRequest(old(chunk.Text())).None?
    ensures r.Ok? ==> FlatRequest(old(chunk.Text())) == Some(RequestValue(r.value))
  {
    ghost var s := chunk.Text();
    assert Rest(chunk, Cursor(None, 0)) == s;
    var target := ParseTarget(chunk, Cursor(None, 0));
    if target.Err? {
      return Err(target.error);
    }
    ghost var s1 := Rest(chunk, target.value.at);
    assert FlatTarget(s) == Got(target.value.value, s1);
    var content := ParseContent(chunk, target.value.at);
    if content.Err? {
      return Err(content.error);
    }
    ghost var body, s2 := BodyText(content.value.value.0), Rest(chunk, content.value.at);
    assert FlatContent(s1) == Got((body, content.value.value.1), s2);
    var headers := ParseHeaders(chunk, content.value.at);
    if headers.Err? {
      return Err(headers.error);
    }
    assert BodyText(content.value.value.0) == body;
    r := Ok(ReceivedRequest(content.value.value.1, target.value.value.0, target.value.value.1,
                            content.value.value.0, headers.value));
    assert RequestValue(r.value) ==
           RequestMessage(content.value.value.1, target.value.value.0, target.value.value.1, body, headers.value);
  }

  method ParseStatus(chunk: StringBuffer, at: Cursor) returns (r: Result<Parsed<(Bytes, u32, Bytes)>, ProtoError>)
    requires chunk.Valid() && at.Valid()
    modifies chunk
    ensures chunk.Valid() && Agrees(FlatStatus(old(Rest(chunk, at))), r, chunk)
  {
    var t1 := Expect(chunk, at, 8);
    if t1.Err? {
      return Err(t1.error);
    }
    var context := ParseContext(chunk, t1.value.at);
    if context.Err? {
      return Err(context.error);
    }
    var t2 := Expect(chunk, context.value.at, 16);
    if t2.Err? {
      return Err(t2.error);
    }
    var code := ParseInt(chunk, t2.value.at);
    if code.Err? {
      return Err(code.error);
    }
    var t3 := Expect(chunk, code.value.at, 26);
    if t3.Err? {
      return Err(t3.error);
    }
    var message := ParseString(chunk, t3.value.at);
    if message.Err? {
      return Err(message.error);
    }
    r := Ok(Parsed((context.value.value, code.value.value, message.value.value), message.value.at));
  }

  ghost function ResponseValue(m: ReceivedResponse): ResponseMessage
    reads if m.body.Some? then {m.body.value} else {}
  {
    ResponseMessage(m.context, m.code, m.message, BodyText(m.body), m.headers)
  }

  method WsReceiveResponse(chunk: StringBuffer) returns (r: Result<ReceivedResponse, ProtoError>)
    requires chunk.Valid()
    modifies chunk
    ensures r.Err? <==> FlatResponse(old(chunk.Text())).None?
    ensures r.Ok? ==> FlatResponse(old(chunk.Text())) == Some(ResponseValue(r.value))
  {
    ghost var s := chunk.Text();
    assert Rest(chunk, Cursor(None, 0)) == s;
    var status := ParseStatus(chunk, Cursor(None, 0));
    if status.Err? {
      return Err(status.error);
    }
    var (context, code, message) := status.value.value;
    ghost var s1 := Rest(chunk, status.value.at);
    assert FlatStatus(s) == Got((context, code, message), s1);
    var body := ParseBody(chunk, status.value.at, 34);
    if body.Err? {
      return Err(body.error);
    }
    ghost var text, s2 := BodyText(body.value.value.0), FlatBody(s1, 34).rest;
    assert FlatBody(s1, 34) == Got(text, s2);
    var headers := ParseTail(chunk, body.value.at, body.value.value.1, s2);
    if headers.Err? {
      return Err(headers.error);
    }
    assert BodyText(body.value.value.0) == text;
    r := Ok(ReceivedResponse(context, code, message, body.value.value.0, headers.value));
    assert ResponseValue(r.value) == ResponseMessage(context, code, message, text, headers.value);
  }

  /** Headers, if the byte read ahead says that any follow. */
  method ParseTail(chunk: StringBuffer, at: Cursor, c: int, ghost rest: Bytes) returns (r: Result<Option<Bytes>, ProtoError>)
    requires chunk.Valid() && at.Valid() && NextIs(rest, c, Rest(chunk, at))
    modifies chunk
    ensures chunk.Valid()
    ensures r.Err? <==> FlatTail(rest).Fail?
    ensures r.Ok? ==> FlatTail(rest) == Got(r.value, [])
  {
    if c < 0 {
      return Ok(None);
    }
    if c != 42 {
      return Err(BadTag);
    }
    assert rest == [42] + Rest(chunk, at);
    var headers := ParseTaggedHeaders(chunk, at);
    if headers.Err? {
      return Err(headers.error);
    }
    r := Ok(Some(headers.value));
  }

  /** Headers whose first tag has been read already. */
  method ParseTaggedHeaders(chunk: StringBuffer, at: Cursor) returns (r: Result<Bytes, ProtoError>)
    requires chunk.Valid() && at.Valid()
    modifies chunk
    ensures chunk.Valid()
    ensures r.Ok? <==> FlatHeaders([42] + old(Rest(chunk, at))).Some?
    ensures r.Ok? ==> FlatHeaders([42] + old(Rest(chunk, at))) == Some(r.value)
  {
    ghost var s: Bytes := [42] + Rest(chunk, at);
    assert s[1..] == Rest(chunk, at);
    var header := ParseString(chunk, at);
    if header.Err? {
      return Err(header.error);
    }
    var more := ParseHeaders(chunk, header.value.at);
    if more.Err? {
      return Err(more.error);
    }
    r := Ok(header.value.value + [NEWLINE] + more.value);
  }

  /** The outer message: what kind it is, and the inner message. */
  method Unwrap(chunk: StringBuffer) returns (r: Result<(Kind, StringBuffer), ProtoError>)
    requires chunk.Valid()
    modifies chunk
    ensures r.Err? <==> FlatWrapped(old(chunk.Text())).None?
    ensures r.Ok? ==> fresh(r.value.1) && r.value.1.Valid()
    ensures r.Ok? ==> FlatWrapped(old(chunk.Text())) == Some((r.value.0, r.value.1.Text()))
  {
    assert Rest(chunk, Cursor(None, 0)) == chunk.Text();
    var t1 := Expect(chunk, Cursor(None, 0), 8);
    if t1.Err? {
      return Err(t1.error);
    }
    var kind := ParseInt(chunk, t1.value.at);
    if kind.Err? {
      return Err(kind.error);
    }
    if kind.value.value != 1 && kind.value.value != 2 {
      return Err(BadTag);
    }
    var t2 := Expect(chunk, kind.value.at, if kind.value.value == 1 then 18 else 26);
    if t2.Err? {
      return Err(t2.error);
    }
    var inner := ParseStrbuf(chunk, t2.value.at);
    if inner.Err? {
      return Err(inner.error);
    }
    r := Ok((if kind.value.value == 1 then RequestKind else ResponseKind, inner.value.value));
  }
}
