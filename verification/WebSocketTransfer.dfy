/** Messages from one end to the other: printed, carried in chunks of whatever sizes, unwrapped
    and read. */
module WebSocketTransfers {
  import opened ByteStrings
  import opened Wrappers
  import opened StringBuffers
  import opened Proto
  import opened WebSocketCodec
  import opened WebSocketReceive

  /** A way of cutting every text into chunks. */
  ghost predicate IsCutting(cut: Bytes -> seq<Bytes>) {
    forall text :: NonEmpty(cut(text)) && Concat(cut(text)) == text
  }

  method Carry(sent: StringBuffer, cut: Bytes -> seq<Bytes>) returns (received: StringBuffer)
    requires sent.Valid() && IsCutting(cut)
    ensures fresh(received) && received.Valid() && received.Text() == sent.Text()
  {
    received := new StringBuffer.FromChunks(cut(Concat(sent.chunks)));
  }

  lemma PlainReadBack(headers: seq<Header>)
    ensures AllPlain(headers) ==> ReadsAs(Lines(headers), headers)
  {
    if AllPlain(headers) {
      LinesReadBack(headers);
    }
  }

  /** A request arrives as it was sent, for every message and every way it is cut. */
  method TransferRequest(verb: Bytes, path: Bytes, body: Option<StringBuffer>, headers: seq<Header>, context: Bytes,
      cut: Bytes -> seq<Bytes>) returns (r: Result<ReceivedRequest, ProtoError>)
    requires |context| == 8 && |verb| < 0x8000_0000 && |path| < 0x8000_0000 && IsCutting(cut)
    requires body.Some? ==> body.value.Valid() && |body.value.Text()| < 0x8000_0000
    requires forall i :: 0 <= i < |headers| ==> Sendable(headers[i])
    requires |RequestBytes(verb, path, BodyText(body), headers, context)| < 0x8000_0000
    ensures r.Ok? && RequestValue(r.value) == RequestMessage(context, verb, path, BodyText(body), Lines(headers))
    ensures AllPlain(headers) ==> ReadsAs(RequestValue(r.value).headers, headers)
  {
    PlainReadBack(headers);
    var sent := WsRequest(verb, path, body, headers, context);
    var received := Carry(sent.value, cut);
    WrappedRoundTrip(RequestKind, RequestBytes(verb, path, BodyText(body), headers, context));
    var inner := Unwrap(received);
    RequestRoundTrip(verb, path, BodyText(body), headers, context);
    r := WsReceiveRequest(inner.value.1);
  }

  /** The same for a response. */
  method TransferResponse(context: Bytes, code: u32, comment: u32 -> Bytes, entity: Option<StringBuffer>,
      headers: seq<Header>, cut: Bytes -> seq<Bytes>) returns (r: Result<ReceivedResponse, ProtoError>)
    requires |context| == 8 && |comment(code)| < 0x8000_0000 && IsCutting(cut)
    requires entity.Some? ==> entity.value.Valid() && |entity.value.Text()| < 0x8000_0000
    requires forall i :: 0 <= i < |headers| ==> Sendable(headers[i])
    requires |ResponseBytes(context, code, comment(code), BodyText(entity), headers)| < 0x8000_0000
    ensures r.Ok? && ResponseValue(r.value) ==
            ResponseMessage(context, code, comment(code), BodyText(entity), if headers == [] then None else Some(Lines(headers)))
    ensures AllPlain(headers) && headers != [] ==> ReadsAs(ResponseValue(r.value).headers.value, headers)
  {
    PlainReadBack(headers);
    var sent := WsResponse(context, code, comment, entity, headers);
    var received := Carry(sent.value, cut);
    WrappedRoundTrip(ResponseKind, ResponseBytes(context, code, comment(code), BodyText(entity), headers));
    var inner := Unwrap(received);
    ResponseRoundTrip(context, code, comment(code), BodyText(entity), headers);
    r := WsReceiveResponse(inner.value.1);
  }
}
