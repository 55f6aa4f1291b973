/** What the request parser guarantees, byte by byte and slice by slice. */
module RequestParserProperties {
  import opened Bytes
  import opened Http
  import opened RequestParser

  // ---------------------------------------------------------------------------
  // The request line.

  /**
   * At the first space after the method, the parser rejects unless the method
   * read so far is exactly `POST`; for `POST` it moves on to the URI and
   * changes nothing else.
   */
  lemma MethodEndsAtSpace(c: Config)
    requires c.state == Method
    ensures Step(c, SP).result == Rejected <==> c.req.methodName != Post
    ensures c.req.methodName == Post ==> Step(c, SP) == Transition(c.(state := Uri), Indeterminate)
  {
  }

  /**
   * Inside the method, every byte other than the terminating space is either
   * a token byte (ASCII, not a control, not a tspecial), which is appended, or
   * it is rejected.
   */
  lemma MethodBytes(c: Config, b: byte)
    requires c.state == MethodStart || c.state == Method
    requires b != SP
    ensures Step(c, b).result == Rejected <==> !IsTokenByte(b)
    ensures IsTokenByte(b) ==>
      Step(c, b) == Transition(c.(state := Method, req := c.req.(methodName := c.req.methodName + [b])), Indeterminate)
  {
  }

  /** Bytes 128..255 are not token bytes: the signed `char` fails `is_char`. */
  lemma HighBytesAreNotTokens(b: byte)
    requires b >= 128
    ensures !IsTokenByte(b) && !IsCtl(Signed(b))
  {
  }

  /** A header name takes token bytes until the colon; anything else is rejected. */
  lemma HeaderNameBytes(c: Config, b: byte)
    requires c.state == HeaderName && |c.req.headers| > 0
    requires b != ':' as byte
    ensures Step(c, b).result == Rejected <==> !IsTokenByte(b)
    ensures IsTokenByte(b) ==>
      var hs := c.req.headers;
      && Step(c, b).result == Indeterminate
      && Step(c, b).next.state == HeaderName
      && Step(c, b).next.req.headers[..|hs| - 1] == hs[..|hs| - 1]
      && Step(c, b).next.req.headers[|hs| - 1] == Header(hs[|hs| - 1].name + [b], hs[|hs| - 1].value)
  {
  }

  /**
   * In the URI, a `?` or a control byte is rejected and any other byte except
   * the terminating space is appended.  Bytes 128..255 are not controls for the
   * signed `char`, so they are accepted.
   */
  lemma UriBytes(c: Config, b: byte)
    requires c.state == Uri
    requires b != SP
    ensures Step(c, b).result == Rejected <==> (b == '?' as byte || IsCtl(Signed(b)))
    ensures !(b == '?' as byte || IsCtl(Signed(b))) ==>
      Step(c, b) == Transition(c.(req := c.req.(uri := c.req.uri + [b])), Indeterminate)
  {
  }

  /** The byte each state of the `HTTP/` literal expects, and the state it moves to. */
  function LiteralByte(s: State): byte
  {
    match s
    case HttpVersionH => 'H' as byte
    case HttpVersionT1 => 'T' as byte
    case HttpVersionT2 => 'T' as byte
    case HttpVersionP => 'P' as byte
    case _ => '/' as byte
  }

  predicate InLiteral(s: State)
  {
    s == HttpVersionH || s == HttpVersionT1 || s == HttpVersionT2 || s == HttpVersionP || s == HttpVersionSlash
  }

  /** Each byte of the `HTTP/` literal must be exactly the one expected, or the parser rejects. */
  lemma VersionLiteralBytes(c: Config, b: byte)
    requires InLiteral(c.state)
    ensures Step(c, b).result == Rejected <==> b != LiteralByte(c.state)
  {
  }

  // ---------------------------------------------------------------------------
  // Headers.

  /**
   * A line starting with a space or a tab continues the previous header, and
   * is only allowed when there is one; otherwise a token byte starts a new
   * header whose name begins with that byte.
   */
  lemma HeaderLineStartBytes(c: Config, b: byte)
    requires c.state == HeaderLineStart
    ensures (b == SP || b == HT) ==>
      (Step(c, b).result == Rejected <==> |c.req.headers| == 0)
    ensures (b == SP || b == HT) && |c.req.headers| > 0 ==>
      Step(c, b) == Transition(c.(state := HeaderLws), Indeterminate)
    ensures b != CR && b != SP && b != HT ==>
      (Step(c, b).result == Rejected <==> !IsTokenByte(b))
    ensures b != CR && IsTokenByte(b) ==>
      Step(c, b) == Transition(c.(state := HeaderName, req := c.req.(headers := c.req.headers + [Header([b], [])])), Indeterminate)
  {
  }

  /** After the colon of a header name exactly one space must follow. */
  lemma ColonThenOneSpace(c: Config, b: byte)
    requires c.state == HeaderName && |c.req.headers| > 0
    ensures Step(c, ':' as byte) == Transition(c.(state := SpaceBeforeHeaderValue), Indeterminate)
    ensures Step(c.(state := SpaceBeforeHeaderValue), b).result == Rejected <==> b != SP
  {
  }

  /**
   * In a header value, CR ends the line, a control byte is rejected and any
   * other byte is appended to the last header's value; bytes 128..255 are not
   * controls for the signed `char`, so they are accepted.
   */
  lemma HeaderValueBytes(c: Config, b: byte)
    requires c.state == HeaderValue && |c.req.headers| > 0
    ensures Step(c, CR) == More(c.(state := ExpectingNewline))
    ensures b != CR ==> (Step(c, b).result == Rejected <==> IsCtl(Signed(b)))
    ensures b != CR && !IsCtl(Signed(b)) ==>
      var hs := c.req.headers;
      && Step(c, b).result == Indeterminate
      && Step(c, b).next.state == HeaderValue
      && Step(c, b).next.req.headers[..|hs| - 1] == hs[..|hs| - 1]
      && Step(c, b).next.req.headers[|hs| - 1] == Header(hs[|hs| - 1].name, hs[|hs| - 1].value + [b])
    ensures b >= 128 ==> Step(c, b).result == Indeterminate
  {
  }

  /**
   * On a continuation line, spaces and tabs are skipped, CR ends the line, a
   * control byte is rejected and any other byte starts the continued value,
   * appended to the last header's value.
   */
  lemma HeaderLwsBytes(c: Config, b: byte)
    requires c.state == HeaderLws && |c.req.headers| > 0
    ensures Step(c, CR) == More(c.(state := ExpectingNewline))
    ensures Step(c, SP) == More(c) && Step(c, HT) == More(c)
    ensures b != CR && b != SP && b != HT ==> (Step(c, b).result == Rejected <==> IsCtl(Signed(b)))
    ensures b != CR && b != SP && b != HT && !IsCtl(Signed(b)) ==>
      var hs := c.req.headers;
      && Step(c, b).result == Indeterminate
      && Step(c, b).next.state == HeaderValue
      && Step(c, b).next.req.headers[..|hs| - 1] == hs[..|hs| - 1]
      && Step(c, b).next.req.headers[|hs| - 1] == Header(hs[|hs| - 1].name, hs[|hs| - 1].value + [b])
  {
  }

  /** The states after a CR accept only LF: after the request line or a header line a new header line starts, after the blank line the body. */
  lemma LineFeedStates(c: Config, b: byte)
    requires c.state == ExpectingNewlineBeforeFirstHeader || c.state == ExpectingNewline || c.state == ExpectingBodyStart
    ensures Step(c, b).result == Rejected <==> b != LF
    ensures Step(c, LF) == More(c.(state := if c.state == ExpectingBodyStart then ExpectingJsonStart else HeaderLineStart))
  {
  }

  // ---------------------------------------------------------------------------
  // Slices: `parse` stops at the first verdict, and a slice can be split anywhere.

  /** Parsing `a` then `b` with the state kept equals parsing `a + b` in one go. */
  lemma {:induction false} RunConcat(c: Config, a: seq<byte>, b: seq<byte>)
    requires WellFormed(c) && Run(c, a).result == Indeterminate
    ensures Run(c, a + b) == Shift(Run(Run(c, a).next, b), |a|)
    decreases |a|
  {
    if a == [] {
      assert a + b == b;
    } else {
      var t := Step(c, a[0]);
      assert (a + b)[0] == a[0];
      assert (a + b)[1..] == a[1..] + b;
      RunConcat(t.next, a[1..], b);
    }
  }

  /** Once a prefix yields a verdict, whatever follows it is never looked at. */
  lemma {:induction false} RunIgnoresRest(c: Config, a: seq<byte>, b: seq<byte>)
    requires WellFormed(c) && Run(c, a).result != Indeterminate
    ensures Run(c, a + b) == Run(c, a)
    decreases |a|
  {
    var t := Step(c, a[0]);
    assert (a + b)[0] == a[0];
    if t.result == Indeterminate {
      assert (a + b)[1..] == a[1..] + b;
      RunIgnoresRest(t.next, a[1..], b);
    }
  }

  /**
   * `parse` stops right after the first byte that yields a verdict: every
   * byte before it left the verdict open, and that byte gave the verdict and
   * the final configuration.
   */
  lemma {:induction false} RunStopsAtFirstVerdict(c: Config, a: seq<byte>)
    requires WellFormed(c) && Run(c, a).result != Indeterminate
    ensures var o := Run(c, a);
      var before := Run(c, a[..o.consumed - 1]);
      && before.result == Indeterminate
      && Step(before.next, a[o.consumed - 1]) == Transition(o.next, o.result)
    decreases |a|
  {
    var o := Run(c, a);
    var t := Step(c, a[0]);
    if t.result == Indeterminate {
      var rest := a[1..];
      RunStopsAtFirstVerdict(t.next, rest);
      var k := o.consumed - 1;
      assert a[..k] == [a[0]] + rest[..k - 1];
      assert a[..k][0] == a[0] && a[..k][1..] == rest[..k - 1];
      assert a[k] == rest[k - 1];
    } else {
      assert a[..0] == [];
    }
  }

  /** A slice whose first byte leaves the verdict open is the rest, one byte later. */
  lemma RunUnfold(c: Config, a: seq<byte>)
    requires WellFormed(c) && a != [] && Step(c, a[0]).result == Indeterminate
    ensures Run(c, a) == Shift(Run(Step(c, a[0]).next, a[1..]), 1)
  {
  }

  /** An empty slice consumes nothing and leaves everything as it was. */
  lemma RunEmpty(c: Config)
    requires WellFormed(c)
    ensures Run(c, []) == Outcome(c, Indeterminate, 0)
  {
  }

  /** The connection's reads: each chunk is parsed with the state kept, until a verdict. */
  function Feed(c: Config, chunks: seq<seq<byte>>): (o: Outcome)
    requires WellFormed(c)
    ensures WellFormed(o.next)
    decreases |chunks|
  {
    if chunks == [] then Outcome(c, Indeterminate, 0)
    else
      var o := Run(c, chunks[0]);
      if o.result != Indeterminate then o
      else Shift(Feed(o.next, chunks[1..]), |chunks[0]|)
  }

  /**
   * Chunking invariance: however the byte stream is split into reads, the
   * verdict, the request and the parser state come out the same as parsing it
   * all at once, and so does the number of bytes used.
   */
  lemma {:induction false} ChunkingInvariance(c: Config, chunks: seq<seq<byte>>)
    requires WellFormed(c)
    ensures Feed(c, chunks) == Run(c, Concat(chunks))
    decreases |chunks|
  {
    if chunks != [] {
      var first := chunks[0];
      var rest := chunks[1..];
      assert chunks == [first] + rest;
      ConcatCons(first, rest);
      var o := Run(c, first);
      if o.result != Indeterminate {
        RunIgnoresRest(c, first, Concat(rest));
      } else {
        RunConcat(c, first, Concat(rest));
        ChunkingInvariance(o.next, rest);
      }
    }
  }

  /** In particular, one byte per read gives the same as one read of everything. */
  lemma ByteAtATime(c: Config, a: seq<byte>)
    requires WellFormed(c)
    ensures Feed(c, Singletons(a)) == Run(c, a)
  {
    SingletonsConcat(a);
    ChunkingInvariance(c, Singletons(a));
  }

  function Singletons(a: seq<byte>): (r: seq<seq<byte>>)
    ensures |r| == |a|
  {
    seq(|a|, i requires 0 <= i < |a| => [a[i]])
  }

  lemma {:induction false} SingletonsConcat(a: seq<byte>)
    ensures Concat(Singletons(a)) == a
  {
    if a != [] {
      var init := a[..|a| - 1];
      assert Singletons(a) == Singletons(init) + [[a[|a| - 1]]];
      ConcatSnoc(Singletons(init), [a[|a| - 1]]);
      SingletonsConcat(init);
      assert a == init + [a[|a| - 1]];
    }
  }

  // ---------------------------------------------------------------------------
  // The body and its completion.

  predicate InBody(s: State)
  {
    s == ExpectingJsonStart || s == ExpectingJsonEnd
  }

  /**
   * The nesting invariant of configurations the parser reaches without a
   * verdict: the level is 0 until the first `{` and at least 1 while a JSON
   * object is open.
   */
  predicate Inv(c: Config)
  {
    WellFormed(c) && (c.state == ExpectingJsonEnd <==> c.nesting >= 1)
  }

  lemma InitialInv()
    ensures Inv(Initial)
  {
  }

  /** Every step that does not complete the request keeps the nesting invariant. */
  lemma StepKeepsInv(c: Config, b: byte)
    requires Inv(c)
    requires Step(c, b).result != Complete
    ensures Inv(Step(c, b).next)
  {
  }

  /** So does every slice that does not complete it. */
  lemma {:induction false} RunKeepsInv(c: Config, a: seq<byte>)
    requires Inv(c)
    requires Run(c, a).result != Complete
    ensures Inv(Run(c, a).next)
    decreases |a|
  {
    if a != [] {
      StepKeepsInv(c, a[0]);
      if Step(c, a[0]).result == Indeterminate {
        RunKeepsInv(Step(c, a[0]).next, a[1..]);
      }
    }
  }

  /**
   * The request is complete exactly when a `}` brings an open nesting level of
   * 1 back to 0; no other byte in any state completes it.
   */
  lemma CompletesAtClosingBrace(c: Config, b: byte)
    requires Inv(c)
    ensures Step(c, b).result == Complete <==>
      c.state == ExpectingJsonEnd && b == '}' as byte && c.nesting == 1
    ensures Step(c, b).result == Complete ==> Step(c, b).next.nesting == 0
  {
  }

  /** Before the first `{`, body bytes are kept and the nesting level stays 0. */
  lemma BytesBeforeFirstBrace(c: Config, b: byte)
    requires Inv(c) && c.state == ExpectingJsonStart
    requires b != '{' as byte
    ensures Step(c, b) == Transition(c.(req := c.req.(body := c.req.body + [b])), Indeterminate)
    ensures Step(c, b).next.nesting == 0
  {
  }

  /**
   * After the blank line every byte is appended to the body, no byte is
   * rejected, and nothing else in the request changes.
   */
  lemma {:induction false} BodyNeverRejected(c: Config, a: seq<byte>)
    requires WellFormed(c) && InBody(c.state)
    ensures var o := Run(c, a);
      && o.result != Rejected
      && InBody(o.next.state)
      && o.next.req == c.req.(body := c.req.body + a[..o.consumed])
    decreases |a|
  {
    if a == [] {
      RunEmpty(c);
      assert a[..0] == [];
    } else {
      var t := Step(c, a[0]);
      BodyByte(c, a[0]);
      if t.result == Indeterminate {
        RunUnfold(c, a);
        BodyNeverRejected(t.next, a[1..]);
        var k := Run(t.next, a[1..]).consumed;
        assert a[..k + 1] == [a[0]] + a[1..][..k];
        assert c.req.body + [a[0]] + a[1..][..k] == c.req.body + a[..k + 1];
      } else {
        RunVerdict(c, a);
        assert a[..1] == [a[0]];
      }
    }
  }

  /** A slice whose first byte yields a verdict stops right there. */
  lemma RunVerdict(c: Config, a: seq<byte>)
    requires WellFormed(c) && a != [] && Step(c, a[0]).result != Indeterminate
    ensures Run(c, a) == Outcome(Step(c, a[0]).next, Step(c, a[0]).result, 1)
  {
  }

  /** One body byte: appended, never rejected, and the parser stays in the body. */
  lemma BodyByte(c: Config, b: byte)
    requires WellFormed(c) && InBody(c.state)
    ensures Step(c, b).result != Rejected
    ensures InBody(Step(c, b).next.state)
    ensures Step(c, b).next.req == c.req.(body := c.req.body + [b])
  {
  }

  // ---------------------------------------------------------------------------
  // Whole request lines.

  /** Every byte is a token byte. */
  predicate AllTokens(m: seq<byte>)
  {
    m == [] || (IsTokenByte(m[0]) && AllTokens(m[1..]))
  }

  /** A run of token bytes inside the method is appended to it, with no verdict. */
  lemma {:induction false} MethodRun(c: Config, m: seq<byte>)
    requires c.state == Method
    requires AllTokens(m)
    ensures Run(c, m) == Outcome(c.(req := c.req.(methodName := c.req.methodName + m)), Indeterminate, |m|)
    decreases |m|
  {
    if m != [] {
      MethodBytes(c, m[0]);
      var c' := c.(req := c.req.(methodName := c.req.methodName + [m[0]]));
      RunUnfold(c, m);
      MethodRun(c', m[1..]);
      assert c.req.methodName + [m[0]] + m[1..] == c.req.methodName + m;
    }
  }

  /** From the start, a method made of token bytes is read in full with no verdict. */
  lemma MethodFromStart(m: seq<byte>)
    requires |m| > 0
    requires AllTokens(m)
    ensures Run(Initial, m) == Outcome(Initial.(state := Method, req := Initial.req.(methodName := m)), Indeterminate, |m|)
  {
    MethodBytes(Initial, m[0]);
    var c := Initial.(state := Method, req := Initial.req.(methodName := [m[0]]));
    assert Initial.req.methodName + [m[0]] == [m[0]];
    assert Step(Initial, m[0]) == Transition(c, Indeterminate);
    RunUnfold(Initial, m);
    MethodRun(c, m[1..]);
    assert [m[0]] + m[1..] == m;
  }

  /**
   * Any method other than `POST` is rejected exactly at the space that ends
   * it, whatever follows, after consuming the method and that space.
   */
  lemma NonPostRejectedAtFirstSpace(m: seq<byte>, rest: seq<byte>)
    requires |m| > 0
    requires AllTokens(m)
    requires m != Post
    ensures Run(Initial, m + [SP] + rest).result == Rejected
    ensures Run(Initial, m + [SP] + rest).consumed == |m| + 1
  {
    MethodFromStart(m);
    var c := Initial.(state := Method, req := Initial.req.(methodName := m));
    MethodEndsAtSpace(c);
    assert Run(c, [SP]) == Outcome(c, Rejected, 1);
    RunConcat(Initial, m, [SP]);
    RunIgnoresRest(Initial, m + [SP], rest);
  }

  /** `POST` followed by a space is accepted and leads to the URI. */
  lemma PostAccepted()
    ensures Run(Initial, Post + [SP]) ==
      Outcome(Initial.(state := Uri, req := Initial.req.(methodName := Post)), Indeterminate, 5)
  {
    assert Post == [80, 79, 83, 84];
    MethodFromStart(Post);
    var c := Initial.(state := Method, req := Initial.req.(methodName := Post));
    MethodEndsAtSpace(c);
    RunConcat(Initial, Post, [SP]);
  }

  /** The request line `GET / HTTP/1.0` is rejected at its first space, before any header. */
  lemma GetRejected(rest: seq<byte>)
    ensures Run(Initial, Ascii("GET ") + rest).result == Rejected
    ensures Run(Initial, Ascii("GET ") + rest).consumed == 4
  {
    var get := Ascii("GET");
    assert get == [71, 69, 84];
    assert Ascii("GET ") == get + [SP];
    NonPostRejectedAtFirstSpace(get, rest);
  }

  // ---------------------------------------------------------------------------
  // The version: `HTTP/` then digits `.` digits, read as decimal numbers.

  /** The bytes of `HTTP/`. */
  const HttpSlash: seq<byte> := [72, 84, 84, 80, 47]

  predicate AllDigits(d: seq<byte>)
  {
    forall i :: 0 <= i < |d| ==> IsDecimalDigit(d[i])
  }

  /** `HTTP/` leads to the first major digit and resets both version numbers to 0. */
  lemma {:induction false} HttpSlashRun(c: Config)
    requires c.state == HttpVersionH
    ensures Run(c, HttpSlash) ==
      Outcome(c.(state := HttpVersionMajorStart, req := c.req.(versionMajor := 0, versionMinor := 0)), Indeterminate, 5)
  {
    var a := HttpSlash;
    RunUnfold(c, a);
    var c1 := c.(state := HttpVersionT1);
    RunUnfold(c1, a[1..]);
    var c2 := c.(state := HttpVersionT2);
    RunUnfold(c2, a[2..]);
    var c3 := c.(state := HttpVersionP);
    RunUnfold(c3, a[3..]);
    var c4 := c.(state := HttpVersionSlash);
    RunUnfold(c4, a[4..]);
  }

  /**
   * In the major number a digit accumulates, a dot moves on to the minor
   * number, and any other byte is rejected.
   */
  lemma MajorBytes(c: Config, b: byte)
    requires c.state == HttpVersionMajor
    ensures Step(c, b).result == Rejected <==> !(IsDecimalDigit(b) || b == '.' as byte)
    ensures IsDecimalDigit(b) ==>
      Step(c, b) == More(c.(req := c.req.(versionMajor := c.req.versionMajor * 10 + DigitValue(b))))
    ensures Step(c, '.' as byte) == More(c.(state := HttpVersionMinorStart))
  {
  }

  /** In the minor number a digit accumulates, CR ends the line, and any other byte is rejected. */
  lemma MinorBytes(c: Config, b: byte)
    requires c.state == HttpVersionMinor
    ensures Step(c, b).result == Rejected <==> !(IsDecimalDigit(b) || b == CR)
    ensures IsDecimalDigit(b) ==>
      Step(c, b) == More(c.(req := c.req.(versionMinor := c.req.versionMinor * 10 + DigitValue(b))))
    ensures Step(c, CR) == More(c.(state := ExpectingNewlineBeforeFirstHeader))
  {
  }

  /**
   * The first digit of either version number is required: any other byte is
   * rejected, and a digit sets the number to its value.
   */
  lemma DigitStartBytes(c: Config, b: byte)
    requires c.state == HttpVersionMajorStart || c.state == HttpVersionMinorStart
    ensures Step(c, b).result == Rejected <==> !IsDecimalDigit(b)
    ensures IsDecimalDigit(b) && c.state == HttpVersionMajorStart ==>
      Step(c, b) == More(c.(state := HttpVersionMajor, req := c.req.(versionMajor := DigitValue(b))))
    ensures IsDecimalDigit(b) && c.state == HttpVersionMinorStart ==>
      Step(c, b) == More(c.(state := HttpVersionMinor, req := c.req.(versionMinor := DigitValue(b))))
  {
  }

  lemma AllDigitsTail(d: seq<byte>)
    requires d != [] && AllDigits(d)
    ensures IsDecimalDigit(d[0]) && AllDigits(d[1..])
  {
    assert forall i :: 0 <= i < |d[1..]| ==> d[1..][i] == d[i + 1];
  }

  /** The number the parser builds from `v` by reading the digits `d` one at a time. */
  function Accumulate(v: int, d: seq<byte>): int
    decreases |d|
  {
    if d == [] then v else Accumulate(v * 10 + DigitValue(d[0]), d[1..])
  }

  /** Reading digits onto the value of a digit run gives the value of the longer run. */
  lemma {:induction false} AccumulateDecimal(p: seq<byte>, d: seq<byte>)
    ensures Accumulate(DecimalValue(p), d) == DecimalValue(p + d)
    decreases |d|
  {
    if d == [] {
      assert p + d == p;
    } else {
      DecimalValueSnoc(p, d[0]);
      AccumulateDecimal(p + [d[0]], d[1..]);
      assert p + [d[0]] + d[1..] == p + d;
    }
  }

  /** A run of digits in the major number is accumulated into it, with no verdict. */
  lemma {:induction false} MajorDigits(c: Config, d: seq<byte>)
    requires c.state == HttpVersionMajor && AllDigits(d)
    ensures Run(c, d) == Outcome(c.(req := c.req.(versionMajor := Accumulate(c.req.versionMajor, d))), Indeterminate, |d|)
    decreases |d|
  {
    if d != [] {
      AllDigitsTail(d);
      MajorBytes(c, d[0]);
      RunUnfold(c, d);
      MajorDigits(Step(c, d[0]).next, d[1..]);
    }
  }

  /** A run of digits in the minor number is accumulated into it, with no verdict. */
  lemma {:induction false} MinorDigits(c: Config, d: seq<byte>)
    requires c.state == HttpVersionMinor && AllDigits(d)
    ensures Run(c, d) == Outcome(c.(req := c.req.(versionMinor := Accumulate(c.req.versionMinor, d))), Indeterminate, |d|)
    decreases |d|
  {
    if d != [] {
      AllDigitsTail(d);
      MinorBytes(c, d[0]);
      RunUnfold(c, d);
      MinorDigits(Step(c, d[0]).next, d[1..]);
    }
  }

  /** The major number: a first digit, then more digits, read as one decimal number. */
  lemma MajorRun(c: Config, d: seq<byte>)
    requires c.state == HttpVersionMajorStart
    requires |d| > 0 && AllDigits(d)
    ensures Run(c, d) ==
      Outcome(c.(state := HttpVersionMajor, req := c.req.(versionMajor := DecimalValue(d))), Indeterminate, |d|)
  {
    var c1 := c.(state := HttpVersionMajor, req := c.req.(versionMajor := DigitValue(d[0])));
    assert Step(c, d[0]) == Transition(c1, Indeterminate);
    RunUnfold(c, d);
    assert [d[0]] == [] + [d[0]];
    DecimalValueSnoc([], d[0]);
    AllDigitsTail(d);
    MajorDigits(c1, d[1..]);
    AccumulateDecimal([d[0]], d[1..]);
    assert [d[0]] + d[1..] == d;
  }

  /** The minor number, after the dot. */
  lemma MinorRun(c: Config, d: seq<byte>)
    requires c.state == HttpVersionMinorStart
    requires |d| > 0 && AllDigits(d)
    ensures Run(c, d) ==
      Outcome(c.(state := HttpVersionMinor, req := c.req.(versionMinor := DecimalValue(d))), Indeterminate, |d|)
  {
    var c1 := c.(state := HttpVersionMinor, req := c.req.(versionMinor := DigitValue(d[0])));
    assert Step(c, d[0]) == Transition(c1, Indeterminate);
    RunUnfold(c, d);
    assert [d[0]] == [] + [d[0]];
    DecimalValueSnoc([], d[0]);
    AllDigitsTail(d);
    MinorDigits(c1, d[1..]);
    AccumulateDecimal([d[0]], d[1..]);
    assert [d[0]] + d[1..] == d;
  }

  /** `HTTP/` and the major number: no verdict, the major number read, the minor reset. */
  lemma HttpMajorRun(c: Config, major: seq<byte>)
    requires c.state == HttpVersionH
    requires |major| > 0 && AllDigits(major)
    ensures Run(c, HttpSlash + major) ==
      Outcome(c.(state := HttpVersionMajor, req := c.req.(versionMajor := DecimalValue(major), versionMinor := 0)),
              Indeterminate, 5 + |major|)
  {
    var c1 := c.(state := HttpVersionMajorStart, req := c.req.(versionMajor := 0, versionMinor := 0));
    HttpSlashRun(c);
    MajorRun(c1, major);
    RunConcat(c, HttpSlash, major);
  }

  /** Then the dot and the minor number. */
  lemma DotMinorRun(c: Config, minor: seq<byte>)
    requires c.state == HttpVersionMajor
    requires |minor| > 0 && AllDigits(minor)
    ensures Run(c, ['.' as byte] + minor) ==
      Outcome(c.(state := HttpVersionMinor, req := c.req.(versionMinor := DecimalValue(minor))), Indeterminate, 1 + |minor|)
  {
    var c1 := c.(state := HttpVersionMinorStart);
    MajorBytes(c, '.' as byte);
    RunUnfold(c, ['.' as byte] + minor);
    assert (['.' as byte] + minor)[1..] == minor;
    MinorRun(c1, minor);
  }

  /**
   * A well-formed version `HTTP/<major>.<minor>` followed by CR is read with
   * no verdict, leaves the parser expecting the line feed, and sets the
   * version numbers to the decimal values of the two digit runs.
   */
  lemma VersionRun(c: Config, major: seq<byte>, minor: seq<byte>)
    requires c.state == HttpVersionH
    requires |major| > 0 && AllDigits(major)
    requires |minor| > 0 && AllDigits(minor)
    ensures var o := Run(c, HttpSlash + major + ['.' as byte] + minor + [CR]);
      && o.result == Indeterminate
      && o.next == c.(state := ExpectingNewlineBeforeFirstHeader,
                      req := c.req.(versionMajor := DecimalValue(major), versionMinor := DecimalValue(minor)))
  {
    var head := HttpSlash + major;
    var tail := ['.' as byte] + minor;
    var c2 := c.(state := HttpVersionMajor, req := c.req.(versionMajor := DecimalValue(major), versionMinor := 0));
    var c4 := c2.(state := HttpVersionMinor, req := c2.req.(versionMinor := DecimalValue(minor)));
    HttpMajorRun(c, major);
    DotMinorRun(c2, minor);
    RunConcat(c, head, tail);
    assert Run(c, head + tail) == Outcome(c4, Indeterminate, |head + tail|);
    MinorBytes(c4, CR);
    assert Run(c4, [CR]) == Outcome(c4.(state := ExpectingNewlineBeforeFirstHeader), Indeterminate, 1);
    RunConcat(c, head + tail, [CR]);
    assert head + tail + [CR] == HttpSlash + major + ['.' as byte] + minor + [CR];
  }
}
