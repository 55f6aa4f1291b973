/** What the status lines, the wire format and the stock reply guarantee. */
module ReplyProperties {
  import opened Bytes
  import opened Http
  import opened JsonData
  import opened Replies

  const HttpPrefix: seq<byte> := Ascii("HTTP/1.0 ")

  /**
   * Every status line is `HTTP/1.0`, a space, the three digits of the code it
   * reports, a space, that code's reason phrase and CRLF; a status outside the
   * five reports 500.
   */
  lemma StatusLineForm(status: int)
    ensures StatusLine(status) ==
      HttpPrefix + Decimal(LineCode(status)) + [SP] + ReasonPhrase(LineCode(status)) + Crlf
  {
    var code := LineCode(status);
    if code == 200 { OkLineForm(); }
    else if code == 400 { BadRequestLineForm(); }
    else if code == 501 { NotImplementedLineForm(); }
    else if code == 503 { ServiceUnavailableLineForm(); }
    else { InternalServerErrorLineForm(); }
  }

  /** The three digits of a status code. */
  lemma ThreeDigits(code: nat)
    requires 100 <= code < 1000
    ensures Decimal(code) == [(48 + code / 100) as byte, (48 + code / 10 % 10) as byte, (48 + code % 10) as byte]
  {
    assert Decimal(code / 10) == Decimal(code / 100) + [(48 + code / 10 % 10) as byte];
  }

  /** A line written as `HTTP/1.0 `, the code's digits, a space, the reason and CRLF has that form in bytes. */
  lemma LineForm(line: string, digits: string, reason: string, code: nat)
    requires line == "HTTP/1.0 " + digits + " " + reason + "\r\n"
    requires Ascii(digits) == Decimal(code)
    ensures Ascii(line) == HttpPrefix + Decimal(code) + [SP] + Ascii(reason) + Crlf
  {
    AsciiConcat("HTTP/1.0 " + digits + " " + reason, "\r\n");
    AsciiConcat("HTTP/1.0 " + digits + " ", reason);
    AsciiConcat("HTTP/1.0 " + digits, " ");
    AsciiConcat("HTTP/1.0 ", digits);
    assert Ascii("\r\n") == Crlf;
    assert Ascii(" ") == [SP];
  }

  lemma OkLineSplit()
    ensures "HTTP/1.0 200 OK\r\n" == "HTTP/1.0 " + "200" + " " + "OK" + "\r\n"
  {
  }

  lemma OkLineForm()
    ensures OkLine == HttpPrefix + Decimal(200) + [SP] + ReasonPhrase(200) + Crlf
  {
    OkLineSplit();
    assert Ascii("200") == Decimal(200) by {
      ThreeDigits(200);
    }
    LineForm("HTTP/1.0 200 OK\r\n", "200", "OK", 200);
  }

  lemma BadRequestLineSplit()
    ensures "HTTP/1.0 400 Bad Request\r\n" == "HTTP/1.0 " + "400" + " " + "Bad Request" + "\r\n"
  {
  }

  lemma BadRequestLineForm()
    ensures BadRequestLine == HttpPrefix + Decimal(400) + [SP] + ReasonPhrase(400) + Crlf
  {
    BadRequestLineSplit();
    assert Ascii("400") == Decimal(400) by {
      ThreeDigits(400);
    }
    LineForm("HTTP/1.0 400 Bad Request\r\n", "400", "Bad Request", 400);
  }

  lemma InternalServerErrorLineSplit()
    ensures "HTTP/1.0 500 Internal Server Error\r\n" == "HTTP/1.0 " + "500" + " " + "Internal Server Error" + "\r\n"
  {
  }

  lemma InternalServerErrorLineForm()
    ensures InternalServerErrorLine == HttpPrefix + Decimal(500) + [SP] + ReasonPhrase(500) + Crlf
  {
    InternalServerErrorLineSplit();
    assert Ascii("500") == Decimal(500) by {
      ThreeDigits(500);
    }
    LineForm("HTTP/1.0 500 Internal Server Error\r\n", "500", "Internal Server Error", 500);
  }

  lemma NotImplementedLineSplit()
    ensures "HTTP/1.0 501 Not Implemented\r\n" == "HTTP/1.0 " + "501" + " " + "Not Implemented" + "\r\n"
  {
  }

  lemma NotImplementedLineForm()
    ensures NotImplementedLine == HttpPrefix + Decimal(501) + [SP] + ReasonPhrase(501) + Crlf
  {
    NotImplementedLineSplit();
    assert Ascii("501") == Decimal(501) by {
      ThreeDigits(501);
    }
    LineForm("HTTP/1.0 501 Not Implemented\r\n", "501", "Not Implemented", 501);
  }

  lemma ServiceUnavailableLineSplit()
    ensures "HTTP/1.0 503 Service Unavailable\r\n" == "HTTP/1.0 " + "503" + " " + "Service Unavailable" + "\r\n"
  {
  }

  lemma ServiceUnavailableLineForm()
    ensures ServiceUnavailableLine == HttpPrefix + Decimal(503) + [SP] + ReasonPhrase(503) + Crlf
  {
    ServiceUnavailableLineSplit();
    assert Ascii("503") == Decimal(503) by {
      ThreeDigits(503);
    }
    LineForm("HTTP/1.0 503 Service Unavailable\r\n", "503", "Service Unavailable", 503);
  }

  /** Only the five known codes have their own line; every other status is answered as 500. */
  lemma UnknownStatusIs500(status: int)
    requires status !in {OkStatus, BadRequest, InternalServerError, NotImplemented, ServiceUnavailable}
    ensures StatusLine(status) == StatusLine(InternalServerError)
    ensures LineCode(status) == 500
  {
  }

  /**
   * On the wire, a framed reply is its status line, `Content-Length: ` and the
   * decimal length of the body, `Content-Type: application/json`, a blank line
   * and the body.
   */
  lemma FramedWire(r: Reply)
    requires Framed(r)
    ensures Wire(r) ==
      StatusLine(r.status)
      + ContentLength + Separator + Decimal(|r.body|) + Crlf
      + ContentType + Separator + ApplicationJson + Crlf
      + Crlf + r.body
  {
    CanonicalIsDecimal(r.headers[0].value);
    var h := r.headers;
    assert h[..1][..0] == [] && h[..1] == [h[0]] && h[..2 - 1] == h[..1];
    assert HeaderBytes(h[..1]) == h[0].name + Separator + h[0].value + Crlf;
  }

  /** Reading `Content-Length` and taking that many final bytes of the wire gives the body. */
  lemma ContentLengthLocatesBody(r: Reply)
    requires Framed(r)
    ensures var w := Wire(r);
      var n := DecimalValue(r.headers[0].value);
      0 <= n <= |w| && w[|w| - n..] == r.body
  {
  }

  /** The stock reply keeps the status and the message apart: equal stock replies had equal arguments. */
  lemma StockReplyInjective(s: int, m: seq<byte>, s': int, m': seq<byte>)
    requires StockReply(s, m) == StockReply(s', m')
    ensures s == s' && m == m'
  {
  }

  /** The stock reply's wire bytes carry the message inside the `error` body. */
  lemma StockReplyWire(s: int, m: seq<byte>)
    ensures Wire(StockReply(s, m)) ==
      StatusLine(s)
      + ContentLength + Separator + Decimal(|MakeBody(ErrorTag, m)|) + Crlf
      + ContentType + Separator + ApplicationJson + Crlf
      + Crlf + MakeBody(ErrorTag, m)
  {
    FramedWire(StockReply(s, m));
  }
}
