/**
 * Replies: the status-line table, the serialisation of a reply into the
 * buffers written to the socket, and the stock error reply.
 */
module Replies {
  import opened Bytes
  import opened Http
  import opened JsonData

  /** A reply: its status code, its headers in order, and its body. */
  datatype Reply = Reply(status: int, headers: seq<Header>, body: seq<byte>)

  /** The codes of the reply status enumeration. */
  const OkStatus := 200
  const BadRequest := 400
  const InternalServerError := 500
  const NotImplemented := 501
  const ServiceUnavailable := 503

  const OkLine: seq<byte> := Ascii("HTTP/1.0 200 OK\r\n")
  const BadRequestLine: seq<byte> := Ascii("HTTP/1.0 400 Bad Request\r\n")
  const InternalServerErrorLine: seq<byte> := Ascii("HTTP/1.0 500 Internal Server Error\r\n")
  const NotImplementedLine: seq<byte> := Ascii("HTTP/1.0 501 Not Implemented\r\n")
  const ServiceUnavailableLine: seq<byte> := Ascii("HTTP/1.0 503 Service Unavailable\r\n")

  /** The status line written for each status; any other value gets the 500 line. */
  function StatusLine(status: int): seq<byte>
  {
    if status == OkStatus then OkLine
    else if status == BadRequest then BadRequestLine
    else if status == InternalServerError then InternalServerErrorLine
    else if status == NotImplemented then NotImplementedLine
    else if status == ServiceUnavailable then ServiceUnavailableLine
    else InternalServerErrorLine
  }

  /** The code a status line reports: the status itself when it is one of the five, else 500. */
  function LineCode(status: int): nat
  {
    if status in {OkStatus, BadRequest, NotImplemented, ServiceUnavailable} then status else InternalServerError
  }

  /** The reason phrases of section 6.1.1 of RFC 1945 for the five codes. */
  function ReasonPhrase(code: int): seq<byte>
  {
    if code == 200 then Ascii("OK")
    else if code == 400 then Ascii("Bad Request")
    else if code == 501 then Ascii("Not Implemented")
    else if code == 503 then Ascii("Service Unavailable")
    else Ascii("Internal Server Error")
  }

  const Separator: seq<byte> := [':' as byte, SP]
  const Crlf: seq<byte> := [CR, LF]

  /** The header lines, each `name: value` and CRLF, in order. */
  function HeaderBytes(headers: seq<Header>): seq<byte>
  {
    if headers == [] then []
    else
      var h := headers[|headers| - 1];
      HeaderBytes(headers[..|headers| - 1]) + h.name + Separator + h.value + Crlf
  }

  /** The bytes of a reply on the wire: status line, header lines, a blank line, the body. */
  function Wire(rep: Reply): seq<byte>
  {
    StatusLine(rep.status) + HeaderBytes(rep.headers) + Crlf + rep.body
  }

  /** The four buffers each header contributes, `name`, `: `, `value`, CRLF, header after header. */
  function HeaderParts(headers: seq<Header>): seq<seq<byte>>
  {
    if headers == [] then []
    else
      var h := headers[|headers| - 1];
      HeaderParts(headers[..|headers| - 1]) + [h.name, Separator, h.value, Crlf]
  }

  /**
   * `reply::to_buffers`: the status line, four buffers per header, the blank
   * line and the body, which laid end to end are the reply's wire bytes.
   */
  method ToBuffers(rep: Reply) returns (buffers: seq<seq<byte>>)
    ensures buffers == [StatusLine(rep.status)] + HeaderParts(rep.headers) + [Crlf, rep.body]
    ensures |buffers| == 3 + 4 * |rep.headers|
    ensures Concat(buffers) == Wire(rep)
    ensures TotalLength(buffers) == |Wire(rep)|
  {
    assert rep.headers[..0] == [];
    buffers := [StatusLine(rep.status)];
    for i := 0 to |rep.headers|
      invariant Laid(buffers, rep, i)
    {
      var h := rep.headers[i];
      ghost var before := buffers;
      buffers := buffers + [h.name, Separator, h.value, Crlf];
      LaidStep(before, rep, i);
    }
    ghost var before := buffers;
    buffers := buffers + [Crlf, rep.body];
    LaidAll(before, rep);
  }

  /** The buffers for the status line and the first `i` headers. */
  predicate Laid(buffers: seq<seq<byte>>, rep: Reply, i: nat)
  {
    && i <= |rep.headers|
    && buffers == [StatusLine(rep.status)] + HeaderParts(rep.headers[..i])
    && |buffers| == 1 + 4 * i
    && Concat(buffers) == StatusLine(rep.status) + HeaderBytes(rep.headers[..i])
  }

  lemma LaidStep(before: seq<seq<byte>>, rep: Reply, i: nat)
    requires i < |rep.headers| && Laid(before, rep, i)
    ensures var h := rep.headers[i];
      Laid(before + [h.name, Separator, h.value, Crlf], rep, i + 1)
  {
    AppendHeaderBuffers(before, rep.headers[i]);
    HeaderPrefix(rep.headers, i);
  }

  lemma LaidAll(before: seq<seq<byte>>, rep: Reply)
    requires Laid(before, rep, |rep.headers|)
    ensures var buffers := before + [Crlf, rep.body];
      && buffers == [StatusLine(rep.status)] + HeaderParts(rep.headers) + [Crlf, rep.body]
      && |buffers| == 3 + 4 * |rep.headers|
      && Concat(buffers) == Wire(rep)
      && TotalLength(buffers) == |Wire(rep)|
  {
    assert rep.headers[..|rep.headers|] == rep.headers;
    var buffers := before + [Crlf, rep.body];
    assert buffers == (before + [Crlf]) + [rep.body];
    ConcatSnoc(before, Crlf);
    ConcatSnoc(before + [Crlf], rep.body);
    ConcatLength(buffers);
  }

  /** Header `i`'s four buffers sit at positions `4i` to `4i + 3` of the header parts. */
  lemma {:induction false} HeaderPartsAt(headers: seq<Header>, i: nat)
    requires i < |headers|
    ensures |HeaderParts(headers)| == 4 * |headers|
    ensures HeaderParts(headers)[4 * i .. 4 * i + 4] ==
      [headers[i].name, Separator, headers[i].value, Crlf]
  {
    var n := |headers| - 1;
    var init := headers[..n];
    HeaderPartsLength(init);
    if i < n {
      HeaderPartsAt(init, i);
      assert HeaderParts(headers)[4 * i .. 4 * i + 4] == HeaderParts(init)[4 * i .. 4 * i + 4];
    }
  }

  lemma {:induction false} HeaderPartsLength(headers: seq<Header>)
    ensures |HeaderParts(headers)| == 4 * |headers|
  {
    if headers != [] {
      HeaderPartsLength(headers[..|headers| - 1]);
    }
  }

  /** Four more buffers add their bytes at the end. */
  lemma AppendHeaderBuffers(before: seq<seq<byte>>, h: Header)
    ensures Concat(before + [h.name, Separator, h.value, Crlf]) == Concat(before) + h.name + Separator + h.value + Crlf
  {
    assert before + [h.name, Separator, h.value, Crlf] == ((((before + [h.name]) + [Separator]) + [h.value]) + [Crlf]);
    ConcatSnoc(before, h.name);
    ConcatSnoc(before + [h.name], Separator);
    ConcatSnoc(before + [h.name] + [Separator], h.value);
    ConcatSnoc(before + [h.name] + [Separator] + [h.value], Crlf);
  }

  lemma HeaderPrefix(headers: seq<Header>, i: nat)
    requires i < |headers|
    ensures HeaderBytes(headers[..i + 1]) ==
      HeaderBytes(headers[..i]) + headers[i].name + Separator + headers[i].value + Crlf
    ensures HeaderParts(headers[..i + 1]) ==
      HeaderParts(headers[..i]) + [headers[i].name, Separator, headers[i].value, Crlf]
  {
    assert headers[..i + 1][..i] == headers[..i];
  }

  const ContentLength: seq<byte> := Ascii("Content-Length")
  const ContentType: seq<byte> := Ascii("Content-Type")
  const ApplicationJson: seq<byte> := Ascii("application/json")
  const ErrorTag: seq<byte> := Ascii("error")

  /**
   * A reply framed for its reader: exactly two headers, first a
   * `Content-Length` whose value is a run of digits, without leading zeros,
   * reading as the length of the body, then `Content-Type: application/json`.
   */
  predicate Framed(r: Reply)
  {
    && |r.headers| == 2
    && r.headers[0].name == ContentLength
    && Canonical(r.headers[0].value)
    && DecimalValue(r.headers[0].value) == |r.body|
    && r.headers[1] == Header(ContentType, ApplicationJson)
  }

  /** A JSON reply with the two headers both reply builders fill in. */
  function JsonReply(status: int, body: seq<byte>): (r: Reply)
    ensures r.status == status && r.body == body
    ensures Framed(r)
  {
    DecimalRoundTrip(|body|);
    Reply(status, [Header(ContentLength, Decimal(|body|)), Header(ContentType, ApplicationJson)], body)
  }

  /** `reply::stock_reply`: the given status and an `error` body carrying the message. */
  function StockReply(status: int, message: seq<byte>): (r: Reply)
    ensures r.status == status
    ensures Framed(r)
    ensures |r.body| >= |BodyOpen| + |ErrorTag| + |BodyMiddle| + |BodyClose|
    ensures MessageOf(ErrorTag, r.body) == message
  {
    var body := MakeBody(ErrorTag, message);
    assert body == (BodyOpen + ErrorTag + BodyMiddle) + message + BodyClose;
    assert body[|BodyOpen| + |ErrorTag| + |BodyMiddle| .. |body| - |BodyClose|] == message;
    JsonReply(status, body)
  }
}
