/** The request handler: validates the request body and builds the reply to it. */
module RequestHandler {
  import opened Bytes
  import opened Http
  import opened JsonData
  import opened Replies
  import JsonDataProperties

  /** The tag of the body of a successful reply. */
  const DataTag: seq<byte> := Ascii("data")

  /**
   * The reply for a validation status: a 400 stock reply carrying the status
   * message, or a 200 reply whose `data` body carries the kept message.
   */
  function Respond(status: Status, message: seq<byte>): Reply
  {
    if status != Ok then StockReply(BadRequest, StatusMessage(status))
    else JsonReply(OkStatus, MakeBody(DataTag, message))
  }

  /**
   * `request_handler::handle_request`: stores the validation status of the
   * body in `data` and returns the reply for it (the source overwrites the
   * caller's reply in full, which a returned value models).
   */
  method HandleRequest(req: Request, data: JsonData, reader: seq<byte> -> Option<Json>) returns (rep: Reply)
    modifies data
    ensures data.status == Check(req.body, reader)
    ensures rep == Respond(data.status, data.message)
    ensures data.status == Ok ==> var p := Extract(reader(UpToNul(req.body)).value);
      data.message == p.message && data.attempts == p.attempts && data.interval == p.intervalMs
    ensures data.status != Ok ==>
      data.attempts == 0 && data.message == old(data.message) && data.interval == old(data.interval)
  {
    var s := data.Parse(req.body, reader);
    data.status := s;
    if data.status != Ok {
      rep := StockReply(BadRequest, StatusMessage(data.status));
      return;
    }
    rep := JsonReply(OkStatus, MakeBody(DataTag, data.message));
  }

  // ---------------------------------------------------------------------------
  // What every reply of the handler guarantees.

  /** The reply is 200 exactly for an accepted payload and 400 otherwise. */
  lemma RespondStatus(status: Status, message: seq<byte>)
    ensures Respond(status, message).status == (if status == Ok then OkStatus else BadRequest)
    ensures StatusLine(Respond(status, message).status) == (if status == Ok then OkLine else BadRequestLine)
  {
  }

  /**
   * Both paths send exactly `Content-Length`, the decimal rendering of the
   * body length, and `Content-Type: application/json`.
   */
  lemma RespondContentLength(status: Status, message: seq<byte>)
    ensures var r := Respond(status, message);
      && Framed(r)
      && r.headers == [Header(ContentLength, Decimal(|r.body|)), Header(ContentType, ApplicationJson)]
  {
    var r := Respond(status, message);
    CanonicalIsDecimal(r.headers[0].value);
  }

  /** The body carries the kept message under `data`, or the status message under `error`. */
  lemma RespondBody(status: Status, message: seq<byte>)
    ensures var body := Respond(status, message).body;
      && (status == Ok ==> body == MakeBody(DataTag, message))
      && (status != Ok ==> body == MakeBody(ErrorTag, StatusMessage(status)))
  {
  }

  /** A client can tell the failed checks apart: different failures give different replies. */
  lemma RespondDistinguishesFailures(s: Status, t: Status, m: seq<byte>, m': seq<byte>)
    requires s != Ok && t != Ok
    requires Respond(s, m) == Respond(t, m')
    ensures s == t
  {
    assert MessageOf(ErrorTag, Respond(s, m).body) == StatusMessage(s);
    assert MessageOf(ErrorTag, Respond(t, m').body) == StatusMessage(t);
    JsonDataProperties.StatusMessagesDistinct(s, t);
  }
}
