/**
 * The request payload: the validation cascade that turns a request body into
 * one of nine statuses, the status-message table and the reply body template.
 *
 * The JSON text itself is read by a library the server links against; the
 * model takes that library's reading as a function from bytes to an optional
 * document and models only what the server does with the document.
 */
module JsonData {
  import opened Bytes

  datatype Option<T> = None | Some(value: T)

  /** The width of the C++ `unsigned` the server stores `attempts` in. */
  newtype uint32 = x: int | 0 <= x < 0x1_0000_0000

  /**
   * A JSON number as the library classifies it: an integer that fits an
   * unsigned 32-bit value, any other integer (negative or wider), or a number
   * written with a fraction or an exponent.
   */
  datatype Number = Uint(u: uint32) | Integer(i: int) | Double(d: real)

  datatype Json =
    | Null
    | Bool(b: bool)
    | Num(n: Number)
    | Str(s: seq<byte>)
    | Arr(elems: seq<Json>)
    | Obj(members: seq<Member>)

  datatype Member = Member(name: seq<byte>, value: Json)

  /** The value of the first member called `key`, as the library's member lookup finds it. */
  function Lookup(members: seq<Member>, key: seq<byte>): Option<Json>
  {
    if members == [] then None
    else if members[0].name == key then Some(members[0].value)
    else Lookup(members[1..], key)
  }

  /** The lookup finds nothing exactly when no member has the name, and otherwise the first one that has. */
  lemma {:induction false} LookupFindsFirst(members: seq<Member>, key: seq<byte>)
    ensures Lookup(members, key).None? <==> forall i :: 0 <= i < |members| ==> members[i].name != key
    ensures Lookup(members, key).Some? ==>
      exists i :: (0 <= i < |members| && members[i] == Member(key, Lookup(members, key).value)
        && forall j :: 0 <= j < i ==> members[j].name != key)
  {
    if members != [] && members[0].name != key {
      LookupFindsFirst(members[1..], key);
      assert forall i :: 0 < i < |members| ==> members[i] == members[1..][i - 1];
      if Lookup(members, key).Some? {
        var k :| 0 <= k < |members[1..]| && members[1..][k] == Member(key, Lookup(members, key).value)
          && forall j :: 0 <= j < k ==> members[1..][j].name != key;
        assert members[k + 1] == members[1..][k];
      }
    } else if members != [] {
      assert members[0] == Member(key, Lookup(members, key).value);
    }
  }

  /** The nine outcomes of validation, in the order of the source's enumeration. */
  datatype Status =
    | Ok
    | JsonParseError
    | MissingData
    | MissingMessage
    | MissingAttempts
    | MissingInterval
    | MessageNotString
    | AttemptsNotInteger
    | IntervalNotNumber

  /** The enumerator's integer value. */
  function Index(s: Status): nat
  {
    match s
    case Ok => 0
    case JsonParseError => 1
    case MissingData => 2
    case MissingMessage => 3
    case MissingAttempts => 4
    case MissingInterval => 5
    case MessageNotString => 6
    case AttemptsNotInteger => 7
    case IntervalNotNumber => 8
  }

  const KeyData: seq<byte> := Ascii("data")
  const KeyMessage: seq<byte> := Ascii("message")
  const KeyAttempts: seq<byte> := Ascii("attempts")
  const KeyInterval: seq<byte> := Ascii("interval")

  /** The C string view of a byte string: everything before the first NUL byte. */
  function UpToNul(s: seq<byte>): (r: seq<byte>)
    ensures |r| <= |s| && r == s[..|r|]
    ensures forall i :: 0 <= i < |r| ==> r[i] != 0
    ensures |r| < |s| ==> s[|r|] == 0
  {
    if s == [] || s[0] == 0 then [] else [s[0]] + UpToNul(s[1..])
  }

  /** `IsUint() || IsDouble()`: the number kinds accepted for the interval. */
  predicate IsIntervalKind(j: Json)
  {
    j.Num? && (j.n.Uint? || j.n.Double?)
  }

  /** `GetDouble()` of an interval-kind number. */
  function AsReal(j: Json): real
    requires IsIntervalKind(j)
  {
    if j.n.Uint? then j.n.u as real else j.n.d
  }

  /** The smallest interval accepted, in seconds. */
  const MinInterval: real := 0.001

  /** The `data` object's members, once the root and `data` are known to be objects. */
  function DataMembers(doc: Json): seq<Member>
    requires doc.Obj? && Lookup(doc.members, KeyData).Some? && Lookup(doc.members, KeyData).value.Obj?
  {
    Lookup(doc.members, KeyData).value.members
  }

  /** The checks of a parsed document, presence first and then types, in the source's order. */
  function Validate(doc: Json): (r: Status)
    ensures r != JsonParseError
  {
    if !doc.Obj? || Lookup(doc.members, KeyData).None? then MissingData
    else
      var data := Lookup(doc.members, KeyData).value;
      if !data.Obj? || Lookup(data.members, KeyMessage).None? then MissingMessage
      else if Lookup(data.members, KeyAttempts).None? then MissingAttempts
      else if Lookup(data.members, KeyInterval).None? then MissingInterval
      else
        var message := Lookup(data.members, KeyMessage).value;
        var attempts := Lookup(data.members, KeyAttempts).value;
        var interval := Lookup(data.members, KeyInterval).value;
        if !message.Str? then MessageNotString
        else if !(attempts.Num? && attempts.n.Uint?) || attempts.n.u == 0 then AttemptsNotInteger
        else if !IsIntervalKind(interval) || AsReal(interval) < MinInterval then IntervalNotNumber
        else Ok
  }

  /**
   * The status `json_data::parse` returns for body `str`: an empty body and a
   * body the library cannot read are parse errors; otherwise the document is
   * validated. The library reads the body as a C string.
   */
  function Check(str: seq<byte>, reader: seq<byte> -> Option<Json>): Status
  {
    if str == [] then JsonParseError
    else
      var doc := reader(UpToNul(str));
      if doc.None? then JsonParseError else Validate(doc.value)
  }

  /**
   * A payload the server accepts, stated member by member: the root is an
   * object whose `data` member is an object holding a string `message`, a
   * positive unsigned `attempts` and an unsigned or fractional `interval` of at
   * least one millisecond.
   */
  ghost predicate Acceptable(doc: Json)
  {
    exists data: seq<Member>, message: seq<byte>, attempts: uint32, interval: Json ::
      && doc.Obj?
      && Lookup(doc.members, KeyData) == Some(Obj(data))
      && Lookup(data, KeyMessage) == Some(Str(message))
      && Lookup(data, KeyAttempts) == Some(Num(Uint(attempts)))
      && Lookup(data, KeyInterval) == Some(interval)
      && attempts >= 1
      && IsIntervalKind(interval) && AsReal(interval) >= MinInterval
  }

  /** The values the server keeps from an accepted payload. */
  datatype Payload = Payload(message: seq<byte>, attempts: uint32, intervalMs: nat)

  /**
   * The kept values: the message up to its first NUL (it is copied from a C
   * string), the attempts, and the interval in milliseconds, truncated.
   */
  function Extract(doc: Json): (p: Payload)
    requires Validate(doc) == Ok
    ensures p.attempts >= 1 && p.intervalMs >= 1
  {
    var data := DataMembers(doc);
    var interval := Lookup(data, KeyInterval).value;
    Payload(
      UpToNul(Lookup(data, KeyMessage).value.s),
      Lookup(data, KeyAttempts).value.n.u,
      (AsReal(interval) * 1000.0).Floor)
  }

  /** The request payload the server keeps between the request and the repeated replies. */
  class JsonData {
    var message: seq<byte>
    /** The interval between replies, in milliseconds. */
    var interval: nat
    var attempts: uint32
    var status: Status

    constructor ()
      ensures message == [] && interval == 1000 && attempts == 0 && status == MissingData
    {
      message := [];
      interval := 1000;
      attempts := 0;
      status := MissingData;
    }

    /**
     * `json_data::parse`: zeroes `attempts`, then keeps the payload's values only
     * when the body passes every check. The status is returned, not stored.
     */
    method Parse(str: seq<byte>, reader: seq<byte> -> Option<Json>) returns (s: Status)
      modifies this
      ensures s == Check(str, reader)
      ensures s == Ok ==> var p := Extract(reader(UpToNul(str)).value);
        message == p.message && attempts == p.attempts && interval == p.intervalMs
      ensures s != Ok ==> attempts == 0 && message == old(message) && interval == old(interval)
      ensures status == old(status)
    {
      attempts := 0;
      if str == [] {
        return JsonParseError;
      }
      var doc := reader(UpToNul(str));
      if doc.None? {
        return JsonParseError;
      }
      var json := doc.value;
      if !json.Obj? || Lookup(json.members, KeyData).None? {
        return MissingData;
      }
      var data := Lookup(json.members, KeyData).value;
      if !data.Obj? || Lookup(data.members, KeyMessage).None? {
        return MissingMessage;
      }
      if Lookup(data.members, KeyAttempts).None? {
        return MissingAttempts;
      }
      if Lookup(data.members, KeyInterval).None? {
        return MissingInterval;
      }
      var jmessage := Lookup(data.members, KeyMessage).value;
      if !jmessage.Str? {
        return MessageNotString;
      }
      var jattempts := Lookup(data.members, KeyAttempts).value;
      if !(jattempts.Num? && jattempts.n.Uint?) || jattempts.n.u == 0 {
        return AttemptsNotInteger;
      }
      var jinterval := Lookup(data.members, KeyInterval).value;
      if !IsIntervalKind(jinterval) || AsReal(jinterval) < MinInterval {
        return IntervalNotNumber;
      }
      message := UpToNul(jmessage.s);
      attempts := jattempts.n.u;
      interval := (AsReal(jinterval) * 1000.0).Floor;
      return Ok;
    }
  }

  // ---------------------------------------------------------------------------
  // Status messages.

  /** `json_status_strings`, indexed by the enumerator's value; out of range gives entry 0. */
  function StatusMessageAt(i: nat): seq<byte>
  {
    if i == 1 then Ascii("JSON parse error")
    else if i == 2 then Ascii("data block is missing")
    else if i == 3 then Ascii("message parameter is missing")
    else if i == 4 then Ascii("attempts parameter is missing")
    else if i == 5 then Ascii("interval parameter is missing")
    else if i == 6 then Ascii("message is not a string")
    else if i == 7 then Ascii("attempts is not a positive integer")
    else if i == 8 then Ascii("interval is not a positive number")
    else []
  }

  function StatusMessage(s: Status): seq<byte>
  {
    StatusMessageAt(Index(s))
  }

  // ---------------------------------------------------------------------------
  // The reply body template, `{"<tag>":{"message":"<value>"}}` laid out on four lines.

  const BodyOpen: seq<byte> := Ascii("{\n \"")
  const BodyMiddle: seq<byte> := Ascii("\":{\n  \"message\":\"")
  const BodyClose: seq<byte> := Ascii("\"\n }\n}")

  /** `make_body`: the value is inserted as it is, without escaping. */
  function MakeBody(tag: seq<byte>, value: seq<byte>): seq<byte>
  {
    BodyOpen + tag + BodyMiddle + value + BodyClose
  }

  /** Where a body made with `tag` holds its value: between the fixed text around it. */
  function MessageOf(tag: seq<byte>, body: seq<byte>): seq<byte>
    requires |body| >= |BodyOpen| + |tag| + |BodyMiddle| + |BodyClose|
  {
    body[|BodyOpen| + |tag| + |BodyMiddle| .. |body| - |BodyClose|]
  }
}
