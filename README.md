# ews: a verified model of the repeat-reply HTTP server core

`ews` is a small embedded HTTP server. A client sends one `POST` request
whose body is a JSON object. The body names a message, a number of attempts
and an interval. The server answers with a JSON reply carrying the message,
and it sends that same reply `attempts` times, `interval` seconds apart,
before it closes the connection. A malformed request gets one
`400 Bad Request` reply.

This Dafny project models the four pieces of logic behind that behaviour and
proves their properties:

- `RequestParser` (`request_parser.dfy`) is the incremental request parser.
  It is a 22-state machine that reads one byte at a time. It accepts a
  `POST` request line, `Name: value` headers with continuation lines, and a
  blank line. It then captures the body by counting braces.
  - `Step` is the transition of one call of `consume`, and `Run` is the fold
    that `parse` performs.
  - The class `Parser` keeps `state` and `nestingLevel` as fields.
    `Consume` and `Parse` are proved to follow `Step` and `Run`.
  - `RequestParserProperties` proves the grammar rules byte by byte, the
    early stop of `parse`, and chunking invariance. It also proves the brace
    counting invariant and the decimal reading of the version numbers.
- `JsonData` (`json_data.dfy`) is the payload validator. The class
  `JsonData` has the source's fields, and its `Parse` method runs the
  cascade of checks. The module also holds the status-message table and the
  `make_body` template. `JsonDataProperties` proves the order of the checks,
  the acceptance condition in both directions, what is kept from an accepted
  payload, and the round trip of the body template.
- `Replies` and `RequestHandler` (`reply.dfy`, `request_handler.dfy`) build
  and serialise replies: the status-line table, `to_buffers` as a loop over
  the headers, `stock_reply`, and `handle_request`. `ReplyProperties` proves
  that every status line follows section 6.1 of RFC 1945. It also proves
  that `Content-Length` is the decimal length of the body on every reply the
  server builds, and that this header locates the body on the wire.
- `Connection` (`connection.dfy`) is the connection object. It holds the
  read handler's three-way dispatch and the timer handler that writes,
  counts down, re-arms and closes. `ConnectionProperties` proves the repeat
  protocol: an accepted payload with `n` attempts gives exactly `n`
  identical writes, one interval apart, then a close, and `attempts` never
  wraps.

The socket is modelled as a log of the replies whose write was issued, a
count of the reads issued and a `closed` flag. The timer is a deadline plus
a flag saying a wait is pending. The current time is a parameter. The JSON
library is a parameter `reader` from the bytes of a C string to an optional
document. The model covers everything the server does with that document.

Points of the code's behaviour that are easy to miss, each stated as the
model has it:

- The kept interval is `interval * 1000` milliseconds *truncated*, because
  of the `static_cast<unsigned>` at server/json_data.cpp:52. It is not
  rounded (see `JsonDataProperties.IntervalTruncates`).
- A complete request whose payload fails validation gets its 400 reply
  built, but no write is issued (src/connection.cpp:69-74); only an
  accepted payload starts the timer loop.
  `Connection.Connection.HandleRead` states that no write is issued on this
  path.
- The buffer count of `to_buffers` is `3 + 4 * |headers|`: the status line,
  four buffers per header, the blank line and the body.
- Before the first `{` of the body the nesting level is not touched, so a
  `}` there is kept in the body and ignored: a body `}{}` completes at its
  last byte (see `RequestParserProperties.BytesBeforeFirstBrace`).

## Model

| member | source | states |
|---|---|---|
| Bytes.Decimal | src/reply.cpp:99 | `lexical_cast` of a length gives a canonical digit run (no leading zero) |
| Bytes.DecimalRoundTrip | src/reply.cpp:99 | reading the rendered `Content-Length` value back gives the number rendered |
| Bytes.DecimalInjective | src/reply.cpp:99 | different lengths render differently |
| Bytes.CanonicalIsDecimal | src/reply.cpp:99 | a canonical digit run is the rendering of its own value, so a reader can only see the rendering of the length |
| Http.Request.constructor | src/request.hpp:27 | a fresh request has empty strings, version 0.0 and no headers |
| RequestParser.Signed | server/request_parser.cpp:19 | the signed `char` a byte reaches the classifiers as: a value in -128..127 congruent to the byte modulo 256 |
| RequestParser.IsChar | server/request_parser.cpp:223-225 | `is_char`, 0..127; with `Signed`, bytes 128..255 fail it (`HighBytesAreNotTokens`) |
| RequestParser.IsCtl | server/request_parser.cpp:227-229 | `is_ctl`, 0..31 and 127; bytes 128..255 are not controls (`HighBytesAreNotTokens`, `UriBytes`, `HeaderValueBytes`) |
| RequestParser.IsTspecial | server/request_parser.cpp:231-256 | `is_tspecial`, the nineteen separator characters, used by the token rules of `MethodBytes` and `HeaderNameBytes` |
| RequestParser.IsDigit | server/request_parser.cpp:258-260 | `is_digit`, `0`..`9`, used by the version rules of `DigitStartBytes`, `MajorBytes` and `MinorBytes` |
| RequestParser.Step | server/request_parser.cpp:19-221 | one byte never breaks the header invariant, and a rejected byte changes nothing |
| RequestParser.Run | server/request_parser.hpp:33-41 | `parse` consumes at most the slice; without a verdict it consumes all of it; a verdict consumes at least the byte that gave it |
| RequestParser.Parser.constructor | server/request_parser.hpp:83-86 | a new parser starts in `method_start` with nesting 0 |
| RequestParser.Parser.Reset | server/request_parser.cpp:14-17 | `reset` gives the same state and nesting as construction and touches no request |
| RequestParser.Parser.Consume | server/request_parser.cpp:19-221 | the in-place `consume` moves state, nesting and request exactly as `Step` says and returns its verdict |
| RequestParser.Parser.ConsumeRequestLine | server/request_parser.cpp:21-49 | the method and URI cases update the object as the method/URI transitions say |
| RequestParser.Parser.ConsumeVersion | server/request_parser.cpp:50-129 | the `HTTP/x.y` cases update the object as the version transitions say |
| RequestParser.Parser.ConsumeHeader | server/request_parser.cpp:130-201 | the header cases update the object as the header transitions say |
| RequestParser.Parser.ConsumeBody | server/request_parser.cpp:202-217 | the body cases append the byte and move the nesting level as the body transitions say |
| RequestParser.Parser.Parse | server/request_parser.hpp:33-41 | the `parse` loop ends in the configuration, verdict and position that `Run` gives |
| RequestParserProperties.MethodEndsAtSpace | server/request_parser.cpp:29-33 | the space after the method rejects exactly when the method is not `POST`; after `POST` it moves to the URI |
| RequestParserProperties.MethodBytes | server/request_parser.cpp:21-39 | a method byte is rejected exactly when it is not a token byte, and is appended otherwise |
| RequestParserProperties.HighBytesAreNotTokens | server/request_parser.cpp:223-229 | bytes 128..255, negative as signed `char`, fail `is_char` and pass `is_ctl` |
| RequestParserProperties.UriBytes | server/request_parser.cpp:40-48 | a URI byte is rejected exactly when it is `?` or a control; otherwise it is appended (high bytes included) |
| RequestParserProperties.VersionLiteralBytes | server/request_parser.cpp:50-86 | each byte of `HTTP/` must be exactly the expected one, or the parser rejects |
| RequestParserProperties.MajorBytes | server/request_parser.cpp:95-104 | in the major number a digit accumulates `v*10+d`, `.` moves on, anything else rejects |
| RequestParserProperties.MinorBytes | server/request_parser.cpp:113-122 | in the minor number a digit accumulates, CR moves on, anything else rejects |
| RequestParserProperties.DigitStartBytes | server/request_parser.cpp:87-94 | the first digit of a version number is required: any other byte rejects, a digit sets the number to its value (also lines 105-112) |
| RequestParserProperties.HttpSlashRun | server/request_parser.cpp:50-86 | the bytes `HTTP/` reach the major-start state and reset both version numbers to 0 |
| RequestParserProperties.MajorDigits | server/request_parser.cpp:95-104 | a run of digits in the major number is accumulated with no verdict |
| RequestParserProperties.MinorDigits | server/request_parser.cpp:113-122 | a run of digits in the minor number is accumulated with no verdict |
| RequestParserProperties.AccumulateDecimal | server/request_parser.cpp:100 | accumulating digits one at a time gives the decimal value of the whole run |
| RequestParserProperties.MajorRun | server/request_parser.cpp:87-104 | a major digit run sets the major version to its decimal value |
| RequestParserProperties.MinorRun | server/request_parser.cpp:105-122 | a minor digit run sets the minor version to its decimal value |
| RequestParserProperties.HttpMajorRun | server/request_parser.cpp:78-104 | `HTTP/` plus digits sets the major version to their value and the minor to 0 |
| RequestParserProperties.DotMinorRun | server/request_parser.cpp:95-122 | `.` plus digits sets the minor version to their value |
| RequestParserProperties.VersionRun | server/request_parser.cpp:50-122 | `HTTP/<major>.<minor>` then CR is read with no verdict, sets both numbers to the decimal values of the digit runs, and waits for LF |
| RequestParserProperties.HeaderLineStartBytes | server/request_parser.cpp:130-147 | SP/HT at a line start continues a header only when one exists, else rejects; a token byte starts a new header named by it; other bytes reject |
| RequestParserProperties.HeaderNameBytes | server/request_parser.cpp:161-170 | a header-name byte is rejected exactly when not a token byte; otherwise only the last header's name grows |
| RequestParserProperties.ColonThenOneSpace | server/request_parser.cpp:161-177 | after the name's colon exactly one space must follow, any other byte rejects |
| RequestParserProperties.HeaderValueBytes | server/request_parser.cpp:178-187 | in a header value CR ends the line, a control rejects, any other byte (128..255 included) is appended to the last header's value only |
| RequestParserProperties.HeaderLwsBytes | server/request_parser.cpp:148-160 | on a continuation line SP/HT are skipped, CR ends the line, a control rejects, any other byte starts the value and is appended to the last header's value |
| RequestParserProperties.LineFeedStates | server/request_parser.cpp:188-201 | after a header line or the blank line only LF is accepted, leading to the next line or to the body (also lines 123-129 after the request line) |
| RequestParserProperties.RunConcat | server/request_parser.hpp:33-41 | parsing `a` then `b` with the state kept is parsing `a + b`, positions shifted by `|a|` |
| RequestParserProperties.RunIgnoresRest | server/request_parser.hpp:34-37 | after a verdict the rest of the input is never looked at |
| RequestParserProperties.RunStopsAtFirstVerdict | server/request_parser.hpp:34-37 | `parse` returns just past the first byte with a verdict, and every earlier byte left it open |
| RequestParserProperties.RunUnfold | server/request_parser.hpp:34-38 | a byte without a verdict hands the rest of the slice to the next iteration |
| RequestParserProperties.RunVerdict | server/request_parser.hpp:35-37 | a first byte with a verdict ends the parse after one byte |
| RequestParserProperties.RunEmpty | server/request_parser.hpp:39-40 | an empty slice consumes nothing, is indeterminate and changes nothing |
| RequestParserProperties.ChunkingInvariance | server/request_parser.hpp:33-41 | however the stream is cut into reads, the verdict, request, state and position equal one parse of the whole stream |
| RequestParserProperties.ByteAtATime | server/request_parser.hpp:33-41 | one byte per read gives the same outcome as one read of everything |
| RequestParserProperties.InitialInv | server/request_parser.hpp:83-86 | the initial configuration has nesting 0 outside the JSON-end state |
| RequestParserProperties.StepKeepsInv | server/request_parser.cpp:202-217 | every byte that does not complete the request keeps "nesting ≥ 1 exactly in the JSON-end state" |
| RequestParserProperties.RunKeepsInv | server/request_parser.cpp:202-217 | so does every slice that does not complete it |
| RequestParserProperties.CompletesAtClosingBrace | server/request_parser.cpp:209-216 | a request completes exactly when `}` brings nesting 1 to 0, and nowhere else |
| RequestParserProperties.BytesBeforeFirstBrace | server/request_parser.cpp:202-208 | bytes before the first `{` are appended and leave nesting at 0 |
| RequestParserProperties.BodyByte | server/request_parser.cpp:202-217 | a body byte is appended, never rejected, and the parser stays in the body |
| RequestParserProperties.BodyNeverRejected | server/request_parser.cpp:202-217 | after the blank line no slice is rejected, and exactly the consumed bytes are appended to the body, nothing else changes |
| RequestParserProperties.MethodRun | server/request_parser.cpp:29-39 | a run of token bytes in the method is appended with no verdict |
| RequestParserProperties.MethodFromStart | server/request_parser.cpp:21-39 | from a new parser, a token method is read in full with no verdict |
| RequestParserProperties.NonPostRejectedAtFirstSpace | server/request_parser.cpp:29-31 | any other method is rejected at the space ending it, after consuming method and space, whatever follows |
| RequestParserProperties.PostAccepted | server/request_parser.cpp:29-33 | `POST ` is accepted and leads to the URI after 5 bytes |
| RequestParserProperties.GetRejected | server/request_parser.cpp:31 | a `GET ` request line is rejected at its fourth byte |
| JsonData.LookupFindsFirst | server/json_data.cpp:21-33 | a member lookup finds nothing exactly when no member has the key, else the first member that has it |
| JsonData.Lookup | server/json_data.cpp:21-44 | `HasMember` and `operator[]`: the value of the first member with the key; characterised by `LookupFindsFirst` |
| JsonData.Validate | server/json_data.cpp:21-47 | the checks on a parsed document in the source's order; never a parse error; its acceptance condition is `AcceptedIff`, its order `PresenceDecidesFirst` and the rules below |
| JsonData.Check | server/json_data.cpp:6-13 | the status of a body: empty or unreadable is a parse error, else the validation of the document read from the C string (`AcceptedIff`, `EmptyBodyIsParseError`, `ReaderSeesCString`) |
| JsonData.UpToNul | server/json_data.cpp:12 | `c_str()` shows the library the longest NUL-free prefix of the body |
| JsonData.Extract | server/json_data.cpp:50-52 | an accepted payload keeps at least one attempt and an interval of at least 1 ms |
| JsonData.JsonData.constructor | src/json_data.hpp:37 | defaults: no message, 1000 ms, 0 attempts, status `missing_data` |
| JsonData.JsonData.Parse | server/json_data.cpp:6-54 | returns the status of the cascade; on `ok` stores exactly the extracted values; otherwise `attempts` is 0 and message and interval keep their old values |
| JsonData.StatusMessageAt | server/json_data.cpp:57-72 | the message table indexed by the enumerator, entry 0 past the end (`StatusMessageOutOfRange`, `StatusMessagesDistinct`) |
| JsonData.MakeBody | server/json_data.cpp:74-76 | the reply body template; its length, round trip and braces are `MakeBodyLength`, `MakeBodyRoundTrip`, `MakeBodyBraces` |
| JsonDataProperties.AcceptedIff | server/json_data.cpp:6-54 | a body is accepted exactly when it is non-empty, readable and holds a string message, positive unsigned attempts and an interval of ≥ 0.001 s |
| JsonDataProperties.AcceptedBounds | server/json_data.cpp:41-52 | an accepted body was readable and keeps attempts ≥ 1 and an interval ≥ 1 ms |
| JsonDataProperties.EmptyBodyIsParseError | server/json_data.cpp:10 | an empty body is a parse error, whatever the library would say |
| JsonDataProperties.ReaderSeesCString | server/json_data.cpp:12 | bytes after a NUL in the body never influence the status |
| JsonDataProperties.UpToNulWhole | server/json_data.cpp:12 | a NUL-free body reaches the library whole |
| JsonDataProperties.UpToNulStopsAtNul | server/json_data.cpp:12 | a body with a NUL reaches the library cut just before it |
| JsonDataProperties.PresenceDecidesFirst | server/json_data.cpp:25-33 | the first missing key among message, attempts, interval decides the status |
| JsonDataProperties.DataShape | server/json_data.cpp:21-27 | a non-object root or a missing `data` is `missing_data`; a non-object `data` is `missing_message` |
| JsonDataProperties.Payload3Lookups | server/json_data.cpp:24-44 | in a payload with the three keys each lookup finds its own value |
| JsonDataProperties.KeysDistinct | server/json_data.cpp:15-18 | the four keys are different strings |
| JsonDataProperties.CarriesLikePayload3 | server/json_data.cpp:21-53 | any document whose `data` object finds the same three values under the keys (other members, order or duplicates aside) validates and is kept like the three-member payload |
| JsonDataProperties.MessageTypeFirst | server/json_data.cpp:36-39 | for any document holding the three keys, a non-string message is reported before any other type error |
| JsonDataProperties.AttemptsRule | server/json_data.cpp:40-43 | for any document holding a string message and the other two keys, `attempts_not_integer` holds exactly when attempts is not a nonzero unsigned integer |
| JsonDataProperties.IntervalRule | server/json_data.cpp:44-47 | for any document with valid message and attempts, it is accepted exactly when the interval is unsigned/double and at least 0.001, and is `interval_not_number` otherwise |
| JsonDataProperties.IntervalKept | server/json_data.cpp:44-53 | for any document with valid fields, it is accepted and keeps the message up to NUL, the attempts and the truncated milliseconds |
| JsonDataProperties.IntervalTruncates | server/json_data.cpp:52 | 1.9999 s is kept as 1999 ms, not rounded |
| JsonDataProperties.IntervalRefusals | server/json_data.cpp:40-47 | 0.0005 s, 0, and negative integers are refused with the right status |
| JsonDataProperties.MissingMessageReportedFirst | server/json_data.cpp:25-30 | a body missing both message and attempts reports the message |
| JsonDataProperties.StatusMessageEmptyIffOk | server/json_data.cpp:57-72 | only `ok` has the empty message |
| JsonDataProperties.StatusMessageShape | server/json_data.cpp:57-67 | the length of each message and the first byte of the two of equal length |
| JsonDataProperties.StatusMessagesDistinct | server/json_data.cpp:57-72 | different statuses have different messages |
| JsonDataProperties.StatusMessageOutOfRange | server/json_data.cpp:69-72 | an index past the table gives entry 0, the empty string |
| JsonDataProperties.MakeBodyLength | server/json_data.cpp:74-76 | the template adds 27 bytes to tag and value |
| JsonDataProperties.MakeBodyRoundTrip | server/json_data.cpp:74-76 | the value can be read back from its position in the body |
| JsonDataProperties.MakeBodyInjective | server/json_data.cpp:74-76 | different values give different bodies |
| JsonDataProperties.MakeBodyBraces | server/json_data.cpp:74-76 | the body opens with `{` and closes with `}` |
| Replies.ToBuffers | src/reply.cpp:78-91 | the buffers are the status line, four per header in order, CRLF and the body: `3 + 4*|headers|` of them, whose bytes laid end to end are the wire bytes and whose total length is their length |
| Replies.HeaderPartsAt | src/reply.cpp:81-87 | header `i`'s name, `: `, value and CRLF are buffers `4i..4i+3` of the header part, in the order pushed |
| Replies.StatusLine | src/reply.cpp:52-67 | the status-line table, with 500 for any other status; its form is `StatusLineForm` |
| Replies.Wire | src/reply.cpp:78-91 | the bytes of a reply on the wire, in `to_buffers` order; `ToBuffers` is proved to lay them out and `FramedWire` spells them out |
| Replies.JsonReply | src/request_handler.cpp:25-31 | the reply has the given status and body, `Content-Length` equal to the decimal body length, then `Content-Type: application/json` |
| Replies.StockReply | src/reply.cpp:93-103 | status kept, both headers framing the body, and the message readable back from the `error` body |
| ReplyProperties.StatusLineForm | src/reply.cpp:52-67 | every status line is `HTTP/1.0`, the code's digits, its reason phrase and CRLF; any other status reports 500 |
| ReplyProperties.OkLineForm | src/reply.cpp:19-20 | the 200 line is `HTTP/1.0 200 OK` CRLF in that form |
| ReplyProperties.BadRequestLineForm | src/reply.cpp:35-36 | the 400 line in that form |
| ReplyProperties.InternalServerErrorLineForm | src/reply.cpp:43-44 | the 500 line in that form |
| ReplyProperties.NotImplementedLineForm | src/reply.cpp:45-46 | the 501 line in that form |
| ReplyProperties.ServiceUnavailableLineForm | src/reply.cpp:49-50 | the 503 line in that form |
| ReplyProperties.UnknownStatusIs500 | src/reply.cpp:64-65 | any status outside the five gets the 500 line |
| ReplyProperties.FramedWire | src/reply.cpp:78-91 | a framed reply's wire bytes are status line, `Content-Length: <len>`, `Content-Type: application/json`, a blank line and the body |
| ReplyProperties.ContentLengthLocatesBody | src/reply.cpp:97-99 | the last `Content-Length` bytes of the wire are exactly the body |
| ReplyProperties.StockReplyInjective | src/reply.cpp:93-103 | equal stock replies had equal status and message |
| ReplyProperties.StockReplyWire | src/reply.cpp:93-103 | a stock reply's wire bytes carry the message inside the `error` body |
| RequestHandler.HandleRequest | src/request_handler.cpp:17-32 | `data.status` is the parse status; the reply is the 400 stock reply of its message or the 200 `data` reply; the payload fields follow `parse` |
| RequestHandler.Respond | src/request_handler.cpp:19-31 | the reply for a status and message; its status, headers and body are `RespondStatus`, `RespondContentLength`, `RespondBody` |
| RequestHandler.RespondStatus | src/request_handler.cpp:19-25 | the reply is 200 exactly for `ok`, 400 otherwise, with the matching status line |
| RequestHandler.RespondContentLength | src/request_handler.cpp:27-31 | on both paths the headers are exactly `Content-Length` with the decimal body length and `Content-Type: application/json` |
| RequestHandler.RespondBody | src/request_handler.cpp:20-26 | the body is `make_body("data", message)` on `ok`, `make_body("error", status message)` otherwise |
| RequestHandler.RespondDistinguishesFailures | src/request_handler.cpp:19-21 | different failures give different replies |
| Connection.Decrement | src/connection.cpp:54 | `--attempts` on an `unsigned`: the result is `attempts - 1` modulo 2^32 |
| Connection.Fire | src/connection.cpp:49-61 | one run of the timer handler on the session; its behaviour over `n` runs is `FireCountsDown`, `RepeatPrefix`, `RepeatAll` |
| Connection.Connection.constructor | src/connection.cpp:21-30 | a new connection has a fresh request, parser and payload, no writes, no read, no timer |
| Connection.Connection.Start | src/connection.cpp:36-41 | `start` issues exactly one read and nothing else |
| Connection.Connection.Close | src/connection.cpp:43-47 | `close` closes the socket, keeps the connection invariant and changes nothing else |
| Connection.Connection.HandleTimer | src/connection.cpp:49-61 | one firing writes the reply once, counts down, then closes or re-arms one interval later; the connection invariant holds |
| Connection.Connection.Answer | src/connection.cpp:69-74 | a complete request is handled; an accepted one is written at once and the loop armed from `now`; a refused one writes nothing |
| Connection.Connection.HandleRead | src/connection.cpp:63-93 | a read error schedules nothing; the bytes go through `parse`; indeterminate issues one more read; rejected writes the 400 parse-error reply once; complete answers as `Answer` |
| ConnectionProperties.FireCountsDown | src/connection.cpp:49-60 | with an attempt left, a firing writes once, decrements by exactly one without wrapping, and closes exactly when none are left |
| ConnectionProperties.RepeatPrefix | src/connection.cpp:49-61 | after `k < n` firings, `k` copies were written, `n-k` attempts remain, the socket is open and the deadline moved `k` intervals |
| ConnectionProperties.RepeatAll | src/connection.cpp:49-61 | `n` firings write `n` copies, then the socket is closed and no timer is armed |
| ConnectionProperties.DeadlinesAdvance | src/connection.cpp:59-60 | successive deadlines are exactly one interval apart, so strictly increasing |
| ConnectionProperties.AcceptedRequestRepeats | src/connection.cpp:69-74 | an accepted request with `n` attempts gives exactly `n` identical writes, then a close |

## Left out

- The JSON library (rapidjson) is not modelled. A total function `reader`
  from bytes to an optional document stands for it, and number kinds are
  classified as unsigned 32-bit, other integer, or double.
- Floating point: `GetDouble()` and `* 1e3` are modelled on `real`, so
  rounding of binary doubles near 0.001 s or near whole milliseconds is not
  modelled.
- JsonData.JsonData.Parse: the `static_cast<unsigned>` of an interval above
  about 4.29e6 seconds is undefined behaviour in C++. The model keeps the
  unbounded truncated value.
- RequestParser.Step: the `size_t` nesting level wraps to the maximum when
  decremented at 0, and this is modelled. The wrap of an increment past
  2^64 − 1 is not modelled: it needs 2^64 `{` bytes.
- The `int` version numbers are unbounded integers, so an overflow on a long
  digit run is not modelled.
- RequestParser.Step requires that a header exists in the four header
  states that use `headers.back()`. The parser only reaches those states
  after creating one, and the requirement is proved to be kept.
- Asio plumbing is not modelled: buffer identity and lifetime, strands, the
  `shared_ptr` lifetime of the connection, and concurrency between the
  handlers. The model treats "write issued" as the observable event and
  assumes handlers run one at a time.
- The close after issuing the last write is a race at run time. The model
  records the write, then the close.
- `handle_write` does nothing, so it has no member.
- After a rejected request, or a validation failure, the socket is closed by
  the connection's destructor once no operation is pending. That is object
  lifetime, so the `closed` flag is not set on those paths.
- The initial `reply_` is modelled as `Reply(0, [], [])`. It is never sent
  before it is overwritten.
- The accept loop, thread pool and signal handling (server/server.cpp), the
  command line (server/main.cpp) and the load client
  (server/stress_test.cpp) are not part of this model.
