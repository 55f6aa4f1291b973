/**
 * One client connection: reads the request in chunks, answers a malformed
 * request once with a 400 reply, and answers an accepted payload by writing
 * the same reply `attempts` times, `interval` milliseconds apart, then
 * closing.
 *
 * The socket is a log of the replies whose write was issued, a count of the
 * reads issued and a `closed` flag; the timer is a deadline and a flag saying
 * whether a wait on it is pending. Time is a parameter.
 */
module Connection {
  import opened Bytes
  import opened Http
  import opened RequestParser
  import opened JsonData
  import opened Replies
  import opened RequestHandler

  /** The size of the read buffer. */
  const BufferSize := 8192

  const ParseErrorMessage: seq<byte> := Ascii("HTTP request parse error")

  /** `--attempts` on an unsigned 32-bit value: arithmetic modulo 2^32, so zero wraps to the maximum. */
  function Decrement(a: uint32): (r: uint32)
    ensures r as int == (a as int - 1) % 0x1_0000_0000
  {
    if a == 0 then 0xFFFF_FFFF else a - 1
  }

  /** What the repeat loop changes: attempts left, writes issued, the socket, the timer. */
  datatype Session = Session(attempts: uint32, writes: seq<Reply>, closed: bool, armed: bool, deadline: int)

  /**
   * One run of the timer handler: write the reply, count the attempt down, and
   * either close (none left) or wait until one interval after the last deadline.
   */
  function Fire(s: Session, reply: Reply, interval: nat): Session
  {
    var left := Decrement(s.attempts);
    var writes := s.writes + [reply];
    if left == 0 then Session(left, writes, true, false, s.deadline)
    else Session(left, writes, s.closed, true, s.deadline + interval)
  }

  class Connection {
    const request: Request
    const parser: Parser
    const data: JsonData
    var reply: Reply
    /** The replies whose write was issued, in order. */
    var writes: seq<Reply>
    var readsIssued: nat
    /** A read was issued and has not completed. */
    var readPending: bool
    var closed: bool
    /** A wait on the timer is pending. */
    var timerArmed: bool
    /** The timer's expiry time, in milliseconds. */
    var deadline: int

    /**
     * The parser can take more bytes; a pending timer wait has an attempt left
     * on an open socket; reading and repeating do not overlap.
     */
    ghost predicate Valid()
      reads this, request, parser, data
    {
      && WellFormed(parser.Snapshot(request))
      && (timerArmed ==> data.attempts >= 1 && !closed && !readPending)
      && (readPending ==> !closed)
    }

    function State(): Session
      reads this, data
    {
      Session(data.attempts, writes, closed, timerArmed, deadline)
    }

    constructor ()
      ensures Valid()
      ensures fresh(request) && fresh(parser) && fresh(data)
      ensures parser.Snapshot(request) == Initial
      ensures data.message == [] && data.interval == 1000 && data.attempts == 0 && data.status == MissingData
      ensures writes == [] && readsIssued == 0 && !readPending && !closed && !timerArmed
    {
      request := new Request();
      parser := new Parser();
      data := new JsonData();
      reply := Reply(0, [], []);
      writes := [];
      readsIssued := 0;
      readPending := false;
      closed := false;
      timerArmed := false;
      deadline := 0;
    }

    /** `connection::start`: issue the first read. */
    method Start()
      requires Valid() && !readPending && !closed && !timerArmed
      modifies this
      ensures Valid()
      ensures readPending && readsIssued == old(readsIssued) + 1
      ensures writes == old(writes) && reply == old(reply) && closed == old(closed)
      ensures timerArmed == old(timerArmed) && deadline == old(deadline)
    {
      readsIssued := readsIssued + 1;
      readPending := true;
    }

    /** `connection::close`: shut the socket down. */
    method Close()
      requires Valid() && !readPending && !timerArmed
      modifies this
      ensures Valid() && closed
      ensures writes == old(writes) && reply == old(reply) && readsIssued == old(readsIssued)
      ensures readPending == old(readPending) && timerArmed == old(timerArmed) && deadline == old(deadline)
    {
      closed := true;
    }

    /**
     * `connection::handle_timer`: issue a write of the current reply, count
     * the attempt down, then close or wait for the next deadline. It runs only
     * once the request is complete and while the socket is open.
     */
    method HandleTimer()
      requires Valid() && !readPending && !closed
      modifies this, data
      ensures Valid()
      ensures State() == Fire(old(State()), reply, data.interval)
      ensures reply == old(reply) && readsIssued == old(readsIssued) && !readPending
      ensures data.message == old(data.message) && data.interval == old(data.interval)
      ensures data.status == old(data.status)
    {
      timerArmed := false;
      writes := writes + [reply];
      data.attempts := Decrement(data.attempts);
      if data.attempts == 0 {
        Close();
        return;
      }
      deadline := deadline + data.interval;
      timerArmed := true;
    }

    /**
     * The complete-request branch of `handle_read`: hand the request to the
     * handler and, when the payload is accepted, write the first reply now.
     */
    method Answer(reader: seq<byte> -> Option<Json>, now: int)
      requires Valid() && !readPending && !timerArmed && !closed
      modifies this, data
      ensures Valid() && !readPending && readsIssued == old(readsIssued)
      ensures data.status == Check(request.body, reader)
      ensures reply == Respond(data.status, data.message)
      ensures data.status != Ok ==> writes == old(writes) && !timerArmed && !closed
      ensures data.status == Ok ==>
        var p := Extract(reader(UpToNul(request.body)).value);
        State() == Fire(Session(p.attempts, old(writes), false, false, now), reply, p.intervalMs)
    {
      reply := HandleRequest(request, data, reader);
      if data.status == Ok && data.attempts != 0 {
        deadline := now;
        HandleTimer();
      }
    }

    /**
     * `connection::handle_read`: the pending read completed with `bytes` (or
     * failed). The bytes go to the parser; a complete request is handled and,
     * when accepted, answered at once and then on the timer; a malformed one
     * gets the 400 parse-error reply; otherwise another read is issued.
     */
    method HandleRead(failed: bool, bytes: seq<byte>, reader: seq<byte> -> Option<Json>, now: int)
      requires Valid() && readPending && |bytes| <= BufferSize
      modifies this, request, parser, data
      ensures Valid()
      ensures failed ==>
        && unchanged(request, parser, data)
        && writes == old(writes) && reply == old(reply) && readsIssued == old(readsIssued)
        && !readPending && !timerArmed && closed == old(closed)
      ensures !failed ==> parser.Snapshot(request) == Run(old(parser.Snapshot(request)), bytes).next
      ensures !failed && Run(old(parser.Snapshot(request)), bytes).result == Indeterminate ==>
        && unchanged(data)
        && writes == old(writes) && reply == old(reply) && readsIssued == old(readsIssued) + 1
        && readPending && !timerArmed && closed == old(closed)
      ensures !failed && Run(old(parser.Snapshot(request)), bytes).result == Rejected ==>
        && unchanged(data)
        && reply == StockReply(BadRequest, ParseErrorMessage)
        && writes == old(writes) + [reply] && readsIssued == old(readsIssued)
        && !readPending && !timerArmed && closed == old(closed)
      ensures !failed && Run(old(parser.Snapshot(request)), bytes).result == Complete ==>
        && data.status == Check(request.body, reader)
        && reply == Respond(data.status, data.message)
        && readsIssued == old(readsIssued) && !readPending
      ensures !failed && Run(old(parser.Snapshot(request)), bytes).result == Complete && data.status != Ok ==>
        writes == old(writes) && !timerArmed && closed == old(closed)
      ensures !failed && Run(old(parser.Snapshot(request)), bytes).result == Complete && data.status == Ok ==>
        var p := Extract(reader(UpToNul(request.body)).value);
        State() == Fire(Session(p.attempts, old(writes), false, false, now), reply, p.intervalMs)
    {
      readPending := false;
      if failed {
        return;
      }
      var result, _ := parser.Parse(request, bytes);
      if result == Complete {
        Answer(reader, now);
      } else if result == Rejected {
        reply := StockReply(BadRequest, ParseErrorMessage);
        writes := writes + [reply];
      } else {
        readsIssued := readsIssued + 1;
        readPending := true;
      }
    }
  }
}
