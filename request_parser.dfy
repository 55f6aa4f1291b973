/**
 * The incremental HTTP request parser: a byte-at-a-time state machine that
 * accepts a `POST` request line, `Name: value` headers (with continuation
 * lines), a blank line and then a body captured by brace counting.
 *
 * `Step` is the transition function of one call of `consume`; `Run` is the
 * fold that `parse` performs.  The class `Parser` holds the state and the
 * nesting level as fields and is proved to follow them.
 */
module RequestParser {
  import opened Bytes
  import opened Http

  /** The parser's states, in the order the source declares them. */
  datatype State =
    | MethodStart
    | Method
    | Uri
    | HttpVersionH
    | HttpVersionT1
    | HttpVersionT2
    | HttpVersionP
    | HttpVersionSlash
    | HttpVersionMajorStart
    | HttpVersionMajor
    | HttpVersionMinorStart
    | HttpVersionMinor
    | ExpectingNewlineBeforeFirstHeader
    | HeaderLineStart
    | HeaderLws
    | HeaderName
    | SpaceBeforeHeaderValue
    | HeaderValue
    | ExpectingNewline
    | ExpectingBodyStart
    | ExpectingJsonStart
    | ExpectingJsonEnd

  /** `boost::tribool`: true (a complete request), false (invalid input), indeterminate (more data needed). */
  datatype Tribool = Complete | Rejected | Indeterminate

  /** The largest `size_t`, to which the nesting level wraps when decremented at 0. */
  const SizeMax: nat := 0xFFFF_FFFF_FFFF_FFFF

  /** What one parser works on: its own state and nesting level, and the request it fills in. */
  datatype Config = Config(state: State, nesting: nat, req: RequestValue)

  /** The result of consuming one byte. */
  datatype Transition = Transition(next: Config, result: Tribool)

  /** The result of parsing a slice: the final configuration, the verdict and the number of bytes consumed. */
  datatype Outcome = Outcome(next: Config, result: Tribool, consumed: nat)

  /** The only method accepted: the bytes of `POST`. */
  const Post: seq<byte> := [80, 79, 83, 84]

  /** A parser as constructed or reset, over a request that is still empty. */
  const Initial := Config(MethodStart, 0, EmptyRequest)

  // ---------------------------------------------------------------------------
  // Character classes.  `consume` receives a (signed) `char` and passes it to
  // the classifiers as an `int`, so bytes 128..255 arrive as -128..-1.

  function Signed(b: byte): (r: int)
    ensures -128 <= r < 128 && (r - b as int) % 256 == 0
  {
    if b < 128 then b as int else b as int - 256
  }

  predicate IsChar(c: int)
  {
    0 <= c <= 127
  }

  predicate IsCtl(c: int)
  {
    (0 <= c <= 31) || c == 127
  }

  /** The tspecials of section 2.2 of RFC 1945, as the source lists them. */
  predicate IsTspecial(c: int)
  {
    || c == '(' as int || c == ')' as int || c == '<' as int || c == '>' as int
    || c == '@' as int || c == ',' as int || c == ';' as int || c == ':' as int
    || c == '\\' as int || c == '"' as int || c == '/' as int || c == '[' as int
    || c == ']' as int || c == '?' as int || c == '=' as int || c == '{' as int
    || c == '}' as int || c == ' ' as int || c == '\t' as int
  }

  predicate IsDigit(c: int)
  {
    '0' as int <= c <= '9' as int
  }

  /** A byte allowed in a method or a header name: ASCII, not a control, not a tspecial. */
  predicate IsTokenByte(b: byte)
  {
    IsChar(Signed(b)) && !IsCtl(Signed(b)) && !IsTspecial(Signed(b))
  }

  // ---------------------------------------------------------------------------
  // The transition function.

  /** The states in which `consume` touches the last header, which must therefore exist. */
  predicate NeedsHeader(s: State)
  {
    s == HeaderLws || s == HeaderName || s == SpaceBeforeHeaderValue || s == HeaderValue
  }

  /** `headers.back()` exists wherever `consume` uses it. */
  predicate WellFormed(c: Config)
  {
    NeedsHeader(c.state) ==> |c.req.headers| > 0
  }

  function AppendName(hs: seq<Header>, b: byte): seq<Header>
    requires |hs| > 0
  {
    hs[..|hs| - 1] + [hs[|hs| - 1].(name := hs[|hs| - 1].name + [b])]
  }

  function AppendValue(hs: seq<Header>, b: byte): seq<Header>
    requires |hs| > 0
  {
    hs[..|hs| - 1] + [hs[|hs| - 1].(value := hs[|hs| - 1].value + [b])]
  }

  function More(c: Config): Transition
  {
    Transition(c, Indeterminate)
  }

  function Reject(c: Config): Transition
  {
    Transition(c, Rejected)
  }

  predicate InRequestLine(s: State)
  {
    s == MethodStart || s == Method || s == Uri
  }

  predicate InVersion(s: State)
  {
    || s == HttpVersionH || s == HttpVersionT1 || s == HttpVersionT2 || s == HttpVersionP
    || s == HttpVersionSlash || s == HttpVersionMajorStart || s == HttpVersionMajor
    || s == HttpVersionMinorStart || s == HttpVersionMinor || s == ExpectingNewlineBeforeFirstHeader
  }

  predicate InHeaders(s: State)
  {
    || s == HeaderLineStart || s == HeaderLws || s == HeaderName || s == SpaceBeforeHeaderValue
    || s == HeaderValue || s == ExpectingNewline || s == ExpectingBodyStart
  }

  /** One call of `consume`: the next configuration and the verdict. */
  function Step(c: Config, input: byte): (t: Transition)
    requires WellFormed(c)
    ensures WellFormed(t.next)
    ensures t.result == Rejected ==> t.next == c
  {
    match c.state
    case MethodStart | Method | Uri => RequestLineStep(c, input)
    case HttpVersionH | HttpVersionT1 | HttpVersionT2 | HttpVersionP | HttpVersionSlash
      | HttpVersionMajorStart | HttpVersionMajor | HttpVersionMinorStart | HttpVersionMinor
      | ExpectingNewlineBeforeFirstHeader => VersionStep(c, input)
    case HeaderLineStart | HeaderLws | HeaderName | SpaceBeforeHeaderValue | HeaderValue
      | ExpectingNewline | ExpectingBodyStart => HeaderStep(c, input)
    case ExpectingJsonStart | ExpectingJsonEnd => BodyStep(c, input)
  }

  /** The method and the URI. */
  function RequestLineStep(c: Config, input: byte): (t: Transition)
    requires InRequestLine(c.state)
  {
    var x := Signed(input);
    var r := c.req;
    match c.state
    case MethodStart =>
      if !IsChar(x) || IsCtl(x) || IsTspecial(x) then Reject(c)
      else More(c.(state := Method, req := r.(methodName := r.methodName + [input])))
    case Method =>
      if x == ' ' as int then
        if r.methodName != Post then Reject(c) else More(c.(state := Uri))
      else if !IsChar(x) || IsCtl(x) || IsTspecial(x) then Reject(c)
      else More(c.(req := r.(methodName := r.methodName + [input])))
    case Uri =>
      if x == ' ' as int then More(c.(state := HttpVersionH))
      else if IsCtl(x) || x == '?' as int then Reject(c)
      else More(c.(req := r.(uri := r.uri + [input])))
  }

  /** The `HTTP/major.minor` literal and the line end after it. */
  function VersionStep(c: Config, input: byte): (t: Transition)
    requires InVersion(c.state)
  {
    var x := Signed(input);
    var r := c.req;
    match c.state
    case HttpVersionH =>
      if x == 'H' as int then More(c.(state := HttpVersionT1)) else Reject(c)
    case HttpVersionT1 =>
      if x == 'T' as int then More(c.(state := HttpVersionT2)) else Reject(c)
    case HttpVersionT2 =>
      if x == 'T' as int then More(c.(state := HttpVersionP)) else Reject(c)
    case HttpVersionP =>
      if x == 'P' as int then More(c.(state := HttpVersionSlash)) else Reject(c)
    case HttpVersionSlash =>
      if x == '/' as int then
        More(c.(state := HttpVersionMajorStart, req := r.(versionMajor := 0, versionMinor := 0)))
      else Reject(c)
    case HttpVersionMajorStart =>
      if IsDigit(x) then More(c.(state := HttpVersionMajor, req := r.(versionMajor := x - '0' as int)))
      else Reject(c)
    case HttpVersionMajor =>
      if x == '.' as int then More(c.(state := HttpVersionMinorStart))
      else if IsDigit(x) then More(c.(req := r.(versionMajor := r.versionMajor * 10 + x - '0' as int)))
      else Reject(c)
    case HttpVersionMinorStart =>
      if IsDigit(x) then More(c.(state := HttpVersionMinor, req := r.(versionMinor := x - '0' as int)))
      else Reject(c)
    case HttpVersionMinor =>
      if x == '\r' as int then More(c.(state := ExpectingNewlineBeforeFirstHeader))
      else if IsDigit(x) then More(c.(req := r.(versionMinor := r.versionMinor * 10 + x - '0' as int)))
      else Reject(c)
    case ExpectingNewlineBeforeFirstHeader =>
      if x == '\n' as int then More(c.(state := HeaderLineStart)) else Reject(c)
  }

  /** Header lines, continuation lines and the blank line that ends them. */
  function HeaderStep(c: Config, input: byte): (t: Transition)
    requires InHeaders(c.state) && WellFormed(c)
    ensures WellFormed(t.next)
  {
    var x := Signed(input);
    var r := c.req;
    match c.state
    case HeaderLineStart =>
      if x == '\r' as int then More(c.(state := ExpectingBodyStart))
      else if |r.headers| > 0 && (x == ' ' as int || x == '\t' as int) then More(c.(state := HeaderLws))
      else if !IsChar(x) || IsCtl(x) || IsTspecial(x) then Reject(c)
      else More(c.(state := HeaderName, req := r.(headers := r.headers + [Header([input], [])])))
    case HeaderLws =>
      if x == '\r' as int then More(c.(state := ExpectingNewline))
      else if x == ' ' as int || x == '\t' as int then More(c)
      else if IsCtl(x) then Reject(c)
      else More(c.(state := HeaderValue, req := r.(headers := AppendValue(r.headers, input))))
    case HeaderName =>
      if x == ':' as int then More(c.(state := SpaceBeforeHeaderValue))
      else if !IsChar(x) || IsCtl(x) || IsTspecial(x) then Reject(c)
      else More(c.(req := r.(headers := AppendName(r.headers, input))))
    case SpaceBeforeHeaderValue =>
      if x == ' ' as int then More(c.(state := HeaderValue)) else Reject(c)
    case HeaderValue =>
      if x == '\r' as int then More(c.(state := ExpectingNewline))
      else if IsCtl(x) then Reject(c)
      else More(c.(req := r.(headers := AppendValue(r.headers, input))))
    case ExpectingNewline =>
      if x == '\n' as int then More(c.(state := HeaderLineStart)) else Reject(c)
    case ExpectingBodyStart =>
      if x == '\n' as int then More(c.(state := ExpectingJsonStart)) else Reject(c)
  }

  /** The body: every byte is kept; braces move the nesting level. */
  function BodyStep(c: Config, input: byte): (t: Transition)
    requires c.state == ExpectingJsonStart || c.state == ExpectingJsonEnd
  {
    var x := Signed(input);
    var r' := c.req.(body := c.req.body + [input]);
    if c.state == ExpectingJsonStart then
      if x == '{' as int then More(c.(state := ExpectingJsonEnd, nesting := c.nesting + 1, req := r'))
      else More(c.(req := r'))
    else
      if x == '{' as int then More(c.(nesting := c.nesting + 1, req := r'))
      else if x == '}' as int then
        var n := if c.nesting == 0 then SizeMax else c.nesting - 1;
        Transition(c.(nesting := n, req := r'), if n == 0 then Complete else Indeterminate)
      else More(c.(req := r'))
  }

  /** `parse`: consume bytes until one of them yields a verdict, or the slice runs out. */
  function Run(c: Config, input: seq<byte>): (o: Outcome)
    requires WellFormed(c)
    ensures WellFormed(o.next)
    ensures o.consumed <= |input|
    ensures o.result == Indeterminate ==> o.consumed == |input|
    ensures o.result != Indeterminate ==> o.consumed >= 1
    decreases |input|
  {
    if input == [] then Outcome(c, Indeterminate, 0)
    else
      var t := Step(c, input[0]);
      if t.result != Indeterminate then Outcome(t.next, t.result, 1)
      else
        var o := Run(t.next, input[1..]);
        Outcome(o.next, o.result, o.consumed + 1)
  }

  // ---------------------------------------------------------------------------
  // The parser object.

  /** The parser: its current state and the JSON nesting level persist between calls. */
  class Parser {
    var state: State
    var nestingLevel: nat

    function Snapshot(req: Request): Config
      reads this, req
    {
      Config(state, nestingLevel, req.Value())
    }

    /** Constructed ready to parse the request method. */
    constructor ()
      ensures state == MethodStart && nestingLevel == 0
    {
      state := MethodStart;
      nestingLevel := 0;
    }

    /** Back to the initial state; the request is left as it is. */
    method Reset()
      modifies this
      ensures state == MethodStart && nestingLevel == 0
    {
      state := MethodStart;
      nestingLevel := 0;
    }

    /**
     * Handle the next byte of input.  The source's single `switch` over the
     * state is split here into the four groups of `Step`.
     */
    method Consume(req: Request, input: byte) returns (result: Tribool)
      requires WellFormed(Snapshot(req))
      modifies this, req
      ensures Step(old(Snapshot(req)), input) == Transition(Snapshot(req), result)
    {
      match state
      case MethodStart | Method | Uri =>
        result := ConsumeRequestLine(req, input);
      case HttpVersionH | HttpVersionT1 | HttpVersionT2 | HttpVersionP | HttpVersionSlash
        | HttpVersionMajorStart | HttpVersionMajor | HttpVersionMinorStart | HttpVersionMinor
        | ExpectingNewlineBeforeFirstHeader =>
        result := ConsumeVersion(req, input);
      case HeaderLineStart | HeaderLws | HeaderName | SpaceBeforeHeaderValue | HeaderValue
        | ExpectingNewline | ExpectingBodyStart =>
        result := ConsumeHeader(req, input);
      case ExpectingJsonStart | ExpectingJsonEnd =>
        result := ConsumeBody(req, input);
    }

    /** The method and the URI. */
    method ConsumeRequestLine(req: Request, input: byte) returns (result: Tribool)
      requires InRequestLine(state)
      modifies this, req
      ensures RequestLineStep(old(Snapshot(req)), input) == Transition(Snapshot(req), result)
    {
      var x := Signed(input);
      match state
      case MethodStart =>
        if !IsChar(x) || IsCtl(x) || IsTspecial(x) {
          return Rejected;
        }
        state := Method;
        req.methodName := req.methodName + [input];
        return Indeterminate;
      case Method =>
        if x == ' ' as int {
          if req.methodName != Post {
            return Rejected;
          }
          state := Uri;
          return Indeterminate;
        } else if !IsChar(x) || IsCtl(x) || IsTspecial(x) {
          return Rejected;
        }
        req.methodName := req.methodName + [input];
        return Indeterminate;
      case Uri =>
        if x == ' ' as int {
          state := HttpVersionH;
          return Indeterminate;
        } else if IsCtl(x) || x == '?' as int {
          return Rejected;
        }
        req.uri := req.uri + [input];
        return Indeterminate;
    }

    /** The version literal and the line end after it. */
    method ConsumeVersion(req: Request, input: byte) returns (result: Tribool)
      requires InVersion(state)
      modifies this, req
      ensures VersionStep(old(Snapshot(req)), input) == Transition(Snapshot(req), result)
    {
      var x := Signed(input);
      match state
      case HttpVersionH =>
        if x != 'H' as int {
          return Rejected;
        }
        state := HttpVersionT1;
        return Indeterminate;
      case HttpVersionT1 =>
        if x != 'T' as int {
          return Rejected;
        }
        state := HttpVersionT2;
        return Indeterminate;
      case HttpVersionT2 =>
        if x != 'T' as int {
          return Rejected;
        }
        state := HttpVersionP;
        return Indeterminate;
      case HttpVersionP =>
        if x != 'P' as int {
          return Rejected;
        }
        state := HttpVersionSlash;
        return Indeterminate;
      case HttpVersionSlash =>
        if x != '/' as int {
          return Rejected;
        }
        req.versionMajor := 0;
        req.versionMinor := 0;
        state := HttpVersionMajorStart;
        return Indeterminate;
      case HttpVersionMajorStart =>
        if !IsDigit(x) {
          return Rejected;
        }
        req.versionMajor := x - '0' as int;
        state := HttpVersionMajor;
        return Indeterminate;
      case HttpVersionMajor =>
        if x == '.' as int {
          state := HttpVersionMinorStart;
          return Indeterminate;
        } else if IsDigit(x) {
          req.versionMajor := req.versionMajor * 10 + x - '0' as int;
          return Indeterminate;
        }
        return Rejected;
      case HttpVersionMinorStart =>
        if !IsDigit(x) {
          return Rejected;
        }
        req.versionMinor := x - '0' as int;
        state := HttpVersionMinor;
        return Indeterminate;
      case HttpVersionMinor =>
        if x == '\r' as int {
          state := ExpectingNewlineBeforeFirstHeader;
          return Indeterminate;
        } else if IsDigit(x) {
          req.versionMinor := req.versionMinor * 10 + x - '0' as int;
          return Indeterminate;
        }
        return Rejected;
      case ExpectingNewlineBeforeFirstHeader =>
        if x != '\n' as int {
          return Rejected;
        }
        state := HeaderLineStart;
        return Indeterminate;
    }

    /** Header lines, continuations and the blank line. */
    method ConsumeHeader(req: Request, input: byte) returns (result: Tribool)
      requires InHeaders(state) && WellFormed(Snapshot(req))
      modifies this, req
      ensures HeaderStep(old(Snapshot(req)), input) == Transition(Snapshot(req), result)
    {
      var x := Signed(input);
      match state
      case HeaderLineStart =>
        if x == '\r' as int {
          state := ExpectingBodyStart;
          return Indeterminate;
        } else if |req.headers| > 0 && (x == ' ' as int || x == '\t' as int) {
          state := HeaderLws;
          return Indeterminate;
        } else if !IsChar(x) || IsCtl(x) || IsTspecial(x) {
          return Rejected;
        }
        req.headers := req.headers + [Header([input], [])];
        state := HeaderName;
        return Indeterminate;
      case HeaderLws =>
        if x == '\r' as int {
          state := ExpectingNewline;
          return Indeterminate;
        } else if x == ' ' as int || x == '\t' as int {
          return Indeterminate;
        } else if IsCtl(x) {
          return Rejected;
        }
        state := HeaderValue;
        req.headers := AppendValue(req.headers, input);
        return Indeterminate;
      case HeaderName =>
        if x == ':' as int {
          state := SpaceBeforeHeaderValue;
          return Indeterminate;
        } else if !IsChar(x) || IsCtl(x) || IsTspecial(x) {
          return Rejected;
        }
        req.headers := AppendName(req.headers, input);
        return Indeterminate;
      case SpaceBeforeHeaderValue =>
        if x != ' ' as int {
          return Rejected;
        }
        state := HeaderValue;
        return Indeterminate;
      case HeaderValue =>
        if x == '\r' as int {
          state := ExpectingNewline;
          return Indeterminate;
        } else if IsCtl(x) {
          return Rejected;
        }
        req.headers := AppendValue(req.headers, input);
        return Indeterminate;
      case ExpectingNewline =>
        if x != '\n' as int {
          return Rejected;
        }
        state := HeaderLineStart;
        return Indeterminate;
      case ExpectingBodyStart =>
        if x != '\n' as int {
          return Rejected;
        }
        state := ExpectingJsonStart;
        return Indeterminate;
    }

    /** The body. */
    method ConsumeBody(req: Request, input: byte) returns (result: Tribool)
      requires state == ExpectingJsonStart || state == ExpectingJsonEnd
      modifies this, req
      ensures BodyStep(old(Snapshot(req)), input) == Transition(Snapshot(req), result)
    {
      var x := Signed(input);
      match state
      case ExpectingJsonStart =>
        req.body := req.body + [input];
        if x == '{' as int {
          nestingLevel := nestingLevel + 1;
          state := ExpectingJsonEnd;
        }
        return Indeterminate;
      case ExpectingJsonEnd =>
        req.body := req.body + [input];
        if x == '{' as int {
          nestingLevel := nestingLevel + 1;
        } else if x == '}' as int {
          nestingLevel := if nestingLevel == 0 then SizeMax else nestingLevel - 1;
          if nestingLevel == 0 {
            return Complete;
          }
        }
        return Indeterminate;
    }

    /**
     * Parse a slice of input.  Stops right after the first byte that yields a
     * verdict; `consumed` is how many bytes were used.
     */
    method Parse(req: Request, input: seq<byte>) returns (result: Tribool, consumed: nat)
      requires WellFormed(Snapshot(req))
      modifies this, req
      ensures Run(old(Snapshot(req)), input) == Outcome(Snapshot(req), result, consumed)
    {
      var i := 0;
      while i < |input|
        invariant 0 <= i <= |input|
        invariant WellFormed(Snapshot(req))
        invariant Run(old(Snapshot(req)), input) == Shift(Run(Snapshot(req), input[i..]), i)
      {
        ghost var before := Snapshot(req);
        result := Consume(req, input[i]);
        assert input[i..][0] == input[i] && input[i..][1..] == input[i + 1..];
        i := i + 1;
        if result != Indeterminate {
          return result, i;
        }
        assert Run(before, input[i - 1..]) == Shift(Run(Snapshot(req), input[i..]), 1);
      }
      return Indeterminate, i;
    }
  }

  /** An outcome whose consumed count also covers `k` earlier bytes. */
  function Shift(o: Outcome, k: nat): Outcome
  {
    o.(consumed := o.consumed + k)
  }
}
