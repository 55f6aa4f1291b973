/** The request and header records the parser fills in. */
module Http {
  import opened Bytes

  /** One `Name: value` header line. */
  datatype Header = Header(name: seq<byte>, value: seq<byte>)

  /** A snapshot of everything a request holds. */
  datatype RequestValue = RequestValue(
    methodName: seq<byte>,
    uri: seq<byte>,
    versionMajor: int,
    versionMinor: int,
    headers: seq<Header>,
    body: seq<byte>)

  /** A request as a fresh object holds it: empty strings, version 0.0, no headers. */
  const EmptyRequest := RequestValue([], [], 0, 0, [], [])

  /** The request record, filled in place, byte by byte, by the parser. */
  class Request {
    var methodName: seq<byte>
    var uri: seq<byte>
    var versionMajor: int
    var versionMinor: int
    var headers: seq<Header>
    var body: seq<byte>

    function Value(): RequestValue
      reads this
    {
      RequestValue(methodName, uri, versionMajor, versionMinor, headers, body)
    }

    constructor ()
      ensures Value() == EmptyRequest
    {
      methodName, uri := [], [];
      versionMajor, versionMinor := 0, 0;
      headers, body := [], [];
    }
  }
}
