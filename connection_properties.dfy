/** The repeat loop: `n` attempts give `n` identical writes, one interval apart, then a close. */
module ConnectionProperties {
  import opened JsonData
  import opened Replies
  import opened Connection

  /** The session after the timer handler has run `n` times. */
  function FireN(s: Session, reply: Reply, interval: nat, n: nat): Session
    decreases n
  {
    if n == 0 then s else FireN(Fire(s, reply, interval), reply, interval, n - 1)
  }

  /** `n` writes of the same reply. */
  function Copies(reply: Reply, n: nat): (r: seq<Reply>)
    ensures |r| == n && forall i :: 0 <= i < n ==> r[i] == reply
  {
    seq(n, _ => reply)
  }

  /** While attempts remain, a firing writes once, counts down by exactly one and never wraps. */
  lemma FireCountsDown(s: Session, reply: Reply, interval: nat)
    requires s.attempts >= 1
    ensures var t := Fire(s, reply, interval);
      && t.attempts as int == s.attempts as int - 1
      && t.writes == s.writes + [reply]
      && (t.attempts == 0 ==> t.closed && !t.armed)
      && (t.attempts >= 1 ==> t.closed == s.closed && t.armed && t.deadline == s.deadline + interval)
  {
  }

  /**
   * After `k` of `n` firings (`k < n`) the socket is still open, `k` copies of
   * the reply were written, `n - k` attempts are left and the deadline moved on
   * by `k` intervals.
   */
  lemma {:induction false} RepeatPrefix(s: Session, reply: Reply, interval: nat, k: nat)
    requires !s.closed && k < s.attempts as int
    ensures var t := FireN(s, reply, interval, k);
      && t.attempts as int == s.attempts as int - k
      && t.writes == s.writes + Copies(reply, k)
      && !t.closed
      && (k > 0 ==> t.armed)
      && t.deadline == s.deadline + k * interval
    decreases k
  {
    if k > 0 {
      var s1 := Fire(s, reply, interval);
      assert s1.attempts as int == s.attempts as int - 1 && !s1.closed;
      RepeatPrefix(s1, reply, interval, k - 1);
      assert s1.writes + Copies(reply, k - 1) == s.writes + Copies(reply, k);
    }
  }

  /** All `n` firings: `n` copies of the reply written, then the socket closed and no timer armed. */
  lemma RepeatAll(s: Session, reply: Reply, interval: nat)
    requires !s.closed && s.attempts >= 1
    ensures var n := s.attempts as int;
      FireN(s, reply, interval, n) ==
        Session(0, s.writes + Copies(reply, n), true, false, s.deadline + (n - 1) * interval)
  {
    var n := s.attempts as int;
    RepeatPrefix(s, reply, interval, n - 1);
    var t := FireN(s, reply, interval, n - 1);
    FireNSplit(s, reply, interval, n - 1);
    assert t.writes + [reply] == s.writes + Copies(reply, n);
  }

  /** One more firing after `k` of them. */
  lemma {:induction false} FireNSplit(s: Session, reply: Reply, interval: nat, k: nat)
    ensures FireN(s, reply, interval, k + 1) == Fire(FireN(s, reply, interval, k), reply, interval)
    decreases k
  {
    if k > 0 {
      FireNSplit(Fire(s, reply, interval), reply, interval, k - 1);
    }
  }

  /** Successive deadlines are exactly one interval apart, so with a positive interval they strictly increase. */
  lemma DeadlinesAdvance(s: Session, reply: Reply, interval: nat, k: nat)
    requires !s.closed && k + 2 <= s.attempts as int
    ensures FireN(s, reply, interval, k + 1).deadline == FireN(s, reply, interval, k).deadline + interval
    ensures interval >= 1 ==> FireN(s, reply, interval, k + 1).deadline > FireN(s, reply, interval, k).deadline
  {
    RepeatPrefix(s, reply, interval, k);
    RepeatPrefix(s, reply, interval, k + 1);
  }

  /**
   * An accepted request with `n` attempts: the handler writes the first reply
   * at once and the timer fires `n - 1` more times, so the client receives
   * exactly `n` copies of the same reply and the socket is then closed.
   */
  lemma AcceptedRequestRepeats(attempts: uint32, writes: seq<Reply>, reply: Reply, interval: nat, now: int)
    requires attempts >= 1
    ensures var first := Fire(Session(attempts, writes, false, false, now), reply, interval);
      var n := attempts as int;
      FireN(first, reply, interval, n - 1) ==
        Session(0, writes + Copies(reply, n), true, false, now + (n - 1) * interval)
  {
    var s := Session(attempts, writes, false, false, now);
    RepeatAll(s, reply, interval);
    assert FireN(s, reply, interval, attempts as int) ==
      FireN(Fire(s, reply, interval), reply, interval, attempts as int - 1);
  }
}
