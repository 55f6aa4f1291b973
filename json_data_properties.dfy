/** What the validation cascade, the message table and the body template guarantee. */
module JsonDataProperties {
  import opened Bytes
  import opened JsonData

  // ---------------------------------------------------------------------------
  // Acceptance.

  /** A body is accepted exactly when it is non-empty and reads as an acceptable payload. */
  lemma AcceptedIff(str: seq<byte>, reader: seq<byte> -> Option<Json>)
    ensures Check(str, reader) == Ok <==>
      str != [] && reader(UpToNul(str)).Some? && Acceptable(reader(UpToNul(str)).value)
  {
    if str != [] && reader(UpToNul(str)).Some? {
      var doc := reader(UpToNul(str)).value;
      if Validate(doc) == Ok {
        var data := DataMembers(doc);
        var message := Lookup(data, KeyMessage).value.s;
        var attempts := Lookup(data, KeyAttempts).value.n.u;
        var interval := Lookup(data, KeyInterval).value;
        assert Lookup(doc.members, KeyData) == Some(Obj(data));
        assert Lookup(data, KeyMessage) == Some(Str(message));
        assert Lookup(data, KeyAttempts) == Some(Num(Uint(attempts)));
        assert Lookup(data, KeyInterval) == Some(interval);
      }
    }
  }

  /** An accepted payload keeps at least one attempt and an interval of at least one millisecond. */
  lemma AcceptedBounds(str: seq<byte>, reader: seq<byte> -> Option<Json>)
    requires Check(str, reader) == Ok
    ensures reader(UpToNul(str)).Some?
    ensures var p := Extract(reader(UpToNul(str)).value);
      p.attempts >= 1 && p.intervalMs >= 1
  {
  }

  /** An empty body is a parse error whatever the library would make of it. */
  lemma EmptyBodyIsParseError(reader: seq<byte> -> Option<Json>)
    ensures Check([], reader) == JsonParseError
  {
  }

  /** Only the bytes before the first NUL reach the library. */
  lemma ReaderSeesCString(str: seq<byte>, tail: seq<byte>, reader: seq<byte> -> Option<Json>)
    requires str != [] && forall i :: 0 <= i < |str| ==> str[i] != 0
    ensures Check(str + [0] + tail, reader) == Check(str, reader)
  {
    UpToNulStopsAtNul(str, tail);
    UpToNulWhole(str);
  }

  lemma {:induction false} UpToNulWhole(s: seq<byte>)
    requires forall i :: 0 <= i < |s| ==> s[i] != 0
    ensures UpToNul(s) == s
  {
    if s != [] {
      UpToNulWhole(s[1..]);
    }
  }

  lemma {:induction false} UpToNulStopsAtNul(s: seq<byte>, tail: seq<byte>)
    requires forall i :: 0 <= i < |s| ==> s[i] != 0
    ensures UpToNul(s + [0] + tail) == s
  {
    if s == [] {
      assert (s + [0] + tail)[0] == 0;
    } else {
      assert (s + [0] + tail)[1..] == s[1..] + [0] + tail;
      UpToNulStopsAtNul(s[1..], tail);
    }
  }

  // ---------------------------------------------------------------------------
  // Order of the checks.

  /**
   * Presence is checked before any type, in the order message, attempts,
   * interval: the first missing key decides, whatever the others hold.
   */
  lemma PresenceDecidesFirst(doc: Json, data: seq<Member>)
    requires doc.Obj? && Lookup(doc.members, KeyData) == Some(Obj(data))
    ensures Lookup(data, KeyMessage).None? ==> Validate(doc) == MissingMessage
    ensures Lookup(data, KeyMessage).Some? && Lookup(data, KeyAttempts).None? ==> Validate(doc) == MissingAttempts
    ensures Lookup(data, KeyMessage).Some? && Lookup(data, KeyAttempts).Some? && Lookup(data, KeyInterval).None? ==>
      Validate(doc) == MissingInterval
  {
  }

  /** A root that is not an object, or lacks `data`, is `missing_data`; a `data` that is not an object is `missing_message`. */
  lemma DataShape(doc: Json)
    ensures !doc.Obj? ==> Validate(doc) == MissingData
    ensures doc.Obj? && Lookup(doc.members, KeyData).None? ==> Validate(doc) == MissingData
    ensures doc.Obj? && Lookup(doc.members, KeyData).Some? && !Lookup(doc.members, KeyData).value.Obj? ==>
      Validate(doc) == MissingMessage
  {
  }

  /** A `data` object with the three members in this order. */
  function Payload3(message: Json, attempts: Json, interval: Json): Json
  {
    Obj([Member(KeyData, Obj([Member(KeyMessage, message), Member(KeyAttempts, attempts), Member(KeyInterval, interval)]))])
  }

  /** What each key finds in the three-member `data` object. */
  lemma Payload3Lookups(message: Json, attempts: Json, interval: Json)
    ensures var doc := Payload3(message, attempts, interval);
      var data := [Member(KeyMessage, message), Member(KeyAttempts, attempts), Member(KeyInterval, interval)];
      && Lookup(doc.members, KeyData) == Some(Obj(data))
      && Lookup(data, KeyMessage) == Some(message)
      && Lookup(data, KeyAttempts) == Some(attempts)
      && Lookup(data, KeyInterval) == Some(interval)
      && Carries(doc, message, attempts, interval)
  {
    KeysDistinct();
    var data := [Member(KeyMessage, message), Member(KeyAttempts, attempts), Member(KeyInterval, interval)];
    assert data[1..] == [Member(KeyAttempts, attempts), Member(KeyInterval, interval)];
    assert data[1..][1..] == [Member(KeyInterval, interval)];
    assert Lookup(data[1..][1..], KeyInterval) == Some(interval);
    assert Lookup(data[1..], KeyInterval) == Some(interval);
  }

  lemma KeysDistinct()
    ensures KeyData != KeyMessage && KeyData != KeyAttempts && KeyData != KeyInterval
    ensures KeyMessage != KeyAttempts && KeyMessage != KeyInterval && KeyAttempts != KeyInterval
  {
    assert |KeyData| == 4 && |KeyMessage| == 7 && |KeyAttempts| == 8 && |KeyInterval| == 8;
    assert KeyAttempts[0] != KeyInterval[0];
  }

  /**
   * `doc` is an object whose `data` member is an object in which the three
   * keys find these values, whatever other members, order or duplicates it has.
   */
  predicate Carries(doc: Json, message: Json, attempts: Json, interval: Json)
  {
    && doc.Obj? && Lookup(doc.members, KeyData).Some? && Lookup(doc.members, KeyData).value.Obj?
    && Lookup(DataMembers(doc), KeyMessage) == Some(message)
    && Lookup(DataMembers(doc), KeyAttempts) == Some(attempts)
    && Lookup(DataMembers(doc), KeyInterval) == Some(interval)
  }

  /** Validation and the kept values depend only on what the three keys find. */
  lemma CarriesLikePayload3(doc: Json, message: Json, attempts: Json, interval: Json)
    requires Carries(doc, message, attempts, interval)
    ensures Validate(doc) == Validate(Payload3(message, attempts, interval))
    ensures Validate(doc) == Ok ==> Extract(doc) == Extract(Payload3(message, attempts, interval))
  {
    Payload3Lookups(message, attempts, interval);
  }

  /** With all three present, the message type is checked first. */
  lemma MessageTypeFirst(doc: Json, message: Json, attempts: Json, interval: Json)
    requires Carries(doc, message, attempts, interval) && !message.Str?
    ensures Validate(doc) == MessageNotString
  {
  }

  /** `attempts` must be an unsigned integer other than zero; anything else is `attempts_not_integer`. */
  lemma AttemptsRule(doc: Json, message: seq<byte>, attempts: Json, interval: Json)
    requires Carries(doc, Str(message), attempts, interval)
    ensures Validate(doc) == AttemptsNotInteger <==>
      !(attempts.Num? && attempts.n.Uint? && attempts.n.u >= 1)
  {
  }

  /**
   * With a string message and positive attempts, the payload is accepted
   * exactly when the interval is an unsigned or fractional number of at least
   * 0.001 s; otherwise it is `interval_not_number`.
   */
  lemma IntervalRule(doc: Json, message: seq<byte>, attempts: uint32, interval: Json)
    requires Carries(doc, Str(message), Num(Uint(attempts)), interval) && attempts >= 1
    ensures Validate(doc) == Ok <==> IsIntervalKind(interval) && AsReal(interval) >= MinInterval
    ensures Validate(doc) != Ok ==> Validate(doc) == IntervalNotNumber
  {
  }

  /** What an accepted payload keeps: the message up to NUL, the attempts, and the truncated milliseconds. */
  lemma IntervalKept(doc: Json, message: seq<byte>, attempts: uint32, interval: Json)
    requires Carries(doc, Str(message), Num(Uint(attempts)), interval)
    requires attempts >= 1 && IsIntervalKind(interval) && AsReal(interval) >= MinInterval
    ensures Validate(doc) == Ok
    ensures Extract(doc) == Payload(UpToNul(message), attempts, (AsReal(interval) * 1000.0).Floor)
  {
  }

  /** The interval is truncated, not rounded: 1.9999 s is kept as 1999 ms. */
  lemma IntervalTruncates(message: seq<byte>)
    ensures var doc := Payload3(Str(message), Num(Uint(3)), Num(Double(1.9999)));
      Validate(doc) == Ok && Extract(doc).intervalMs == 1999
  {
    var doc := Payload3(Str(message), Num(Uint(3)), Num(Double(1.9999)));
    Payload3Lookups(Str(message), Num(Uint(3)), Num(Double(1.9999)));
    IntervalKept(doc, message, 3, Num(Double(1.9999)));
  }

  /** Half a millisecond, a zero and a negative integer are all refused as intervals. */
  lemma IntervalRefusals(message: seq<byte>)
    ensures Validate(Payload3(Str(message), Num(Uint(3)), Num(Double(0.0005)))) == IntervalNotNumber
    ensures Validate(Payload3(Str(message), Num(Uint(3)), Num(Uint(0)))) == IntervalNotNumber
    ensures Validate(Payload3(Str(message), Num(Integer(-5)), Num(Uint(3)))) == AttemptsNotInteger
    ensures Validate(Payload3(Str(message), Num(Uint(3)), Num(Integer(-5)))) == IntervalNotNumber
  {
    Payload3Lookups(Str(message), Num(Uint(3)), Num(Double(0.0005)));
    IntervalRule(Payload3(Str(message), Num(Uint(3)), Num(Double(0.0005))), message, 3, Num(Double(0.0005)));
    Payload3Lookups(Str(message), Num(Uint(3)), Num(Uint(0)));
    IntervalRule(Payload3(Str(message), Num(Uint(3)), Num(Uint(0))), message, 3, Num(Uint(0)));
    Payload3Lookups(Str(message), Num(Integer(-5)), Num(Uint(3)));
    AttemptsRule(Payload3(Str(message), Num(Integer(-5)), Num(Uint(3))), message, Num(Integer(-5)), Num(Uint(3)));
    Payload3Lookups(Str(message), Num(Uint(3)), Num(Integer(-5)));
    IntervalRule(Payload3(Str(message), Num(Uint(3)), Num(Integer(-5))), message, 3, Num(Integer(-5)));
  }

  /** A body missing both `message` and `attempts` reports the message. */
  lemma MissingMessageReportedFirst(interval: Json)
    ensures Validate(Obj([Member(KeyData, Obj([Member(KeyInterval, interval)]))])) == MissingMessage
  {
    KeysDistinct();
    var data := [Member(KeyInterval, interval)];
    assert data[1..] == [];
    assert Lookup(data, KeyMessage) == None;
  }

  // ---------------------------------------------------------------------------
  // Status messages.

  /** Only `ok` has the empty message. */
  lemma StatusMessageEmptyIffOk(s: Status)
    ensures StatusMessage(s) == [] <==> s == Ok
  {
  }

  /** The length of each message, and the first byte of the two messages of equal length. */
  lemma StatusMessageShape(s: Status)
    ensures |StatusMessage(s)| == [0, 16, 21, 28, 29, 29, 23, 34, 33][Index(s)]
    ensures s == MissingAttempts ==> StatusMessage(s)[0] == 'a' as byte
    ensures s == MissingInterval ==> StatusMessage(s)[0] == 'i' as byte
  {
  }

  /** Different statuses are reported with different messages. */
  lemma StatusMessagesDistinct(s: Status, t: Status)
    requires StatusMessage(s) == StatusMessage(t)
    ensures s == t
  {
    StatusMessageShape(s);
    StatusMessageShape(t);
  }

  /** An index past the table gives the empty string of entry 0. */
  lemma StatusMessageOutOfRange(i: nat)
    requires i > Index(IntervalNotNumber)
    ensures StatusMessageAt(i) == StatusMessageAt(Index(Ok)) == []
  {
  }

  // ---------------------------------------------------------------------------
  // The body template.

  /** The template adds 27 fixed bytes to the tag and the value. */
  lemma MakeBodyLength(tag: seq<byte>, value: seq<byte>)
    ensures |MakeBody(tag, value)| == |tag| + |value| + 27
  {
  }

  /** The value can be read back from the body it was inserted into. */
  lemma MakeBodyRoundTrip(tag: seq<byte>, value: seq<byte>)
    ensures |MakeBody(tag, value)| >= |BodyOpen| + |tag| + |BodyMiddle| + |BodyClose|
    ensures MessageOf(tag, MakeBody(tag, value)) == value
  {
    var body := MakeBody(tag, value);
    var start := |BodyOpen| + |tag| + |BodyMiddle|;
    assert body == (BodyOpen + tag + BodyMiddle) + value + BodyClose;
    assert body[start .. |body| - |BodyClose|] == value;
  }

  /** Different values give different bodies under the same tag. */
  lemma MakeBodyInjective(tag: seq<byte>, v: seq<byte>, w: seq<byte>)
    requires MakeBody(tag, v) == MakeBody(tag, w)
    ensures v == w
  {
    MakeBodyRoundTrip(tag, v);
    MakeBodyRoundTrip(tag, w);
  }

  /** The body opens with `{` and closes with `}`. */
  lemma MakeBodyBraces(tag: seq<byte>, value: seq<byte>)
    ensures var b := MakeBody(tag, value);
      b[0] == '{' as byte && b[|b| - 1] == '}' as byte
  {
  }
}
