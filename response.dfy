/**
 * The HTTP response object: its ordered header array, content, status code
 * and status message, with the setters and getters that change or read them,
 * and the header lines that sending the response emits.
 *
 * The generator that produced the response is not part of this model, and
 * neither is emitting the lines through PHP's `header()` or printing the
 * content: `HeaderLines` returns the lines in the order they are emitted.
 */
module Responses {
  import opened Wrappers
  import opened Strings
  import opened Headers

  const HTTP_STATUS_SUCCESS_OK: int := 200
  const HTTP_STATUS_REDIRECTION_PERMANENT: int := 301
  const HTTP_STATUS_REDIRECTION_TEMPORARY: int := 302
  const HTTP_STATUS_CLIENT_ERROR_BAD_REQUEST: int := 400
  const HTTP_STATUS_CLIENT_ERROR_UNAUTHORIZED: int := 401
  const HTTP_STATUS_CLIENT_ERROR_FORBIDDEN: int := 403
  const HTTP_STATUS_CLIENT_ERROR_NOT_FOUND: int := 404
  const HTTP_STATUS_CLIENT_ERROR_METHOD_NOT_ALLOWED: int := 405
  const HTTP_STATUS_CLIENT_ERROR_CONFLICT: int := 409
  const HTTP_STATUS_SERVER_ERROR_GENERIC: int := 500

  /** The status line; a message that was never set (null) prints as nothing. */
  function StatusLine(code: int, message: Option<string>): string
  {
    "HTTP/1.1 " + IntToString(code) + " " + message.GetOr("")
  }

  /** The line a header is sent as. */
  function HeaderLine(h: Header): string
  {
    h.name + ": " + h.value
  }

  class Response {
    var headers: seq<Header>
    var content: Option<string>
    var responseCode: int
    var responseMessage: Option<string>

    /** The header array holds each name at most once. */
    ghost predicate Valid()
      reads this
    {
      Distinct(headers)
    }

    /** A new response: a plain-text content type, no content, status 200 and no message. */
    constructor ()
      ensures headers == [Header("Content-Type", "text/plain")]
      ensures content == None && responseCode == HTTP_STATUS_SUCCESS_OK && responseMessage == None
      ensures Valid()
    {
      headers := [Header("Content-Type", "text/plain")];
      content := None;
      responseCode := HTTP_STATUS_SUCCESS_OK;
      responseMessage := None;
    }

    /** `setHeader`: the name now has the value, every other header keeps its value and place. */
    method SetHeader(name: string, value: string)
      requires Valid()
      modifies this
      ensures Valid()
      ensures headers == Put(old(headers), name, value)
      ensures Find(headers, name) == Some(value)
      ensures forall n :: n != name ==> Find(headers, n) == Find(old(headers), n)
      ensures content == old(content) && responseCode == old(responseCode) && responseMessage == old(responseMessage)
    {
      forall n | n != name
        ensures Find(Put(headers, name, value), n) == Find(headers, n)
      {
        PutFind(headers, name, value, n);
      }
      PutFind(headers, name, value, name);
      PutDistinct(headers, name, value);
      headers := Put(headers, name, value);
    }

    /** `unsetHeader`: removes the name when it is a key, and otherwise changes nothing. */
    method UnsetHeader(name: string)
      requires Valid()
      modifies this
      ensures Valid()
      ensures headers == Remove(old(headers), name)
      ensures name !in Names(old(headers)) ==> headers == old(headers)
      ensures Find(headers, name) == None
      ensures forall n :: n != name ==> Find(headers, n) == Find(old(headers), n)
      ensures content == old(content) && responseCode == old(responseCode) && responseMessage == old(responseMessage)
    {
      forall n | n != name
        ensures Find(Remove(headers, name), n) == Find(headers, n)
      {
        RemoveFind(headers, name, n);
      }
      RemoveFind(headers, name, name);
      if name in Names(headers) {
        RemoveDistinct(headers, name);
        headers := Remove(headers, name);
      } else {
        RemoveAbsent(headers, name);
      }
    }

    /** `getHeaders`. */
    method GetHeaders() returns (r: seq<Header>)
      ensures r == headers
    {
      r := headers;
    }

    /** `clearHeaders`: no header is left; nothing else changes. */
    method ClearHeaders()
      modifies this
      ensures headers == [] && Valid()
      ensures content == old(content) && responseCode == old(responseCode) && responseMessage == old(responseMessage)
    {
      headers := [];
    }

    /** `setContent`: only the content changes. */
    method SetContent(c: Option<string>)
      modifies this
      ensures content == c
      ensures headers == old(headers) && responseCode == old(responseCode) && responseMessage == old(responseMessage)
    {
      content := c;
    }

    /** `getContent`. */
    method GetContent() returns (r: Option<string>)
      ensures r == content
    {
      r := content;
    }

    /** `formatContent`: the base response sends its content unformatted. */
    method FormatContent() returns (r: Option<string>)
      ensures r == content
    {
      r := GetContent();
    }

    /** `setResponseCode`: only the code changes. */
    method SetResponseCode(code: int)
      modifies this
      ensures responseCode == code
      ensures headers == old(headers) && content == old(content) && responseMessage == old(responseMessage)
    {
      responseCode := code;
    }

    /** `getResponseCode`. */
    method GetResponseCode() returns (r: int)
      ensures r == responseCode
    {
      r := responseCode;
    }

    /** `setResponseMessage`: only the message changes. */
    method SetResponseMessage(message: Option<string>)
      modifies this
      ensures responseMessage == message
      ensures headers == old(headers) && content == old(content) && responseCode == old(responseCode)
    {
      responseMessage := message;
    }

    /** `getResponseMessage`. */
    method GetResponseMessage() returns (r: Option<string>)
      ensures r == responseMessage
    {
      r := responseMessage;
    }

    /**
     * The lines `processHeaders` emits, in order: the status line when the
     * code is not 0, then one line per header in array order.
     */
    method HeaderLines() returns (lines: seq<string>)
      ensures var offset := if responseCode != 0 then 1 else 0;
              |lines| == offset + |headers| &&
              (responseCode != 0 ==> lines[0] == StatusLine(responseCode, responseMessage)) &&
              forall i :: 0 <= i < |headers| ==> lines[offset + i] == HeaderLine(headers[i])
    {
      lines := [];
      if responseCode != 0 {
        var code := GetResponseCode();
        var message := GetResponseMessage();
        lines := [StatusLine(code, message)];
      }
      var offset := |lines|;
      for i := 0 to |headers|
        invariant |lines| == offset + i
        invariant responseCode != 0 ==> lines[0] == StatusLine(responseCode, responseMessage)
        invariant forall j :: 0 <= j < i ==> lines[offset + j] == HeaderLine(headers[j])
      {
        lines := lines + [headers[i].name + ": " + headers[i].value];
      }
    }
  }

  /** Content set on a response is what it returns, and what it sends. */
  method ContentRoundTrip(c: Option<string>) returns (got: Option<string>, formatted: Option<string>)
    ensures got == c && formatted == c
  {
    var response := new Response();
    response.SetContent(c);
    got := response.GetContent();
    formatted := response.FormatContent();
  }

  /** Status code and message are independent of each other and of the headers. */
  method StatusRoundTrip(code: int, message: Option<string>) returns (gotCode: int, gotMessage: Option<string>, headers: seq<Header>)
    ensures gotCode == code && gotMessage == message
    ensures headers == [Header("Content-Type", "text/plain")]
  {
    var response := new Response();
    response.SetResponseMessage(message);
    response.SetResponseCode(code);
    gotCode := response.GetResponseCode();
    gotMessage := response.GetResponseMessage();
    headers := response.GetHeaders();
  }

  /** A new response sends the status line "HTTP/1.1 200 " and the plain-text content type. */
  method DefaultLines() returns (lines: seq<string>)
    ensures lines == ["HTTP/1.1 200 ", "Content-Type: text/plain"]
  {
    var response := new Response();
    lines := response.HeaderLines();
    assert NatToString(2) == "2";
    assert NatToString(20) == "20";
    assert IntToString(200) == "200";
    assert StatusLine(200, None) == "HTTP/1.1 200 ";
    assert HeaderLine(Header("Content-Type", "text/plain")) == "Content-Type: text/plain";
  }
}
