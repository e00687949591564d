/**
 * The response side of the Express adapter's `reply`: a response object
 * with a status code, a header table and what has been sent, and the
 * header decisions `reply` makes before it sends.
 *
 * Header names are case-insensitive in Node: the table is keyed by the
 * lower-cased name, as `getHeader` and `setHeader` store and look it up.
 */
module Responses {
  import opened Wrappers
  import opened JsStrings

  /** A header value: a string, or a number (a stream's length is set as a number). */
  datatype HeaderValue = Text(s: string) | Number(n: int)

  /** `StreamableFile.getHeaders()`: each entry may be undefined. */
  datatype StreamHeaders = StreamHeaders(contentType: Option<string>, disposition: Option<string>, length: Option<int>)

  /**
   * The body handed to `reply`: null or undefined, a `StreamableFile`, an
   * object (with its numeric `statusCode` property, if any, and its JSON
   * text), or any other value (with its `String(body)` text).
   */
  datatype Body =
    | Nil
    | StreamableFile(streamHeaders: StreamHeaders)
    | ObjectBody(statusCode: Option<int>, json: string)
    | PrimitiveBody(text: string)

  /** What the response has been told to send. */
  datatype Sent = NotSent | SentEmpty | SentJson(json: string) | SentText(text: string) | Piped

  const CONTENT_TYPE := "Content-Type"
  const CONTENT_DISPOSITION := "Content-Disposition"
  const CONTENT_LENGTH := "Content-Length"
  const APPLICATION_JSON := "application/json"
  const BAD_REQUEST := 400

  /** The keys under which Node stores the three stream headers. */
  const CONTENT_TYPE_KEY := "content-type"
  const CONTENT_DISPOSITION_KEY := "content-disposition"
  const CONTENT_LENGTH_KEY := "content-length"

  lemma HeaderKeys()
    ensures ToLower(CONTENT_TYPE) == CONTENT_TYPE_KEY
    ensures ToLower(CONTENT_DISPOSITION) == CONTENT_DISPOSITION_KEY
    ensures ToLower(CONTENT_LENGTH) == CONTENT_LENGTH_KEY
  {
  }

  class Response {
    var statusCode: int
    var headers: map<string, HeaderValue>
    var sent: Sent

    constructor ()
      ensures statusCode == 200 && headers == map[] && sent == NotSent
    {
      statusCode := 200;
      headers := map[];
      sent := NotSent;
    }

    /** `response.getHeader(name)` */
    function GetHeader(name: string): (r: Option<HeaderValue>)
      reads this
      ensures r.Some? <==> ToLower(name) in headers
      ensures r.Some? ==> r.value == headers[ToLower(name)]
    {
      if ToLower(name) in headers then Some(headers[ToLower(name)]) else None
    }

    /** `response.setHeader(name, value)` */
    method SetHeader(name: string, value: HeaderValue)
      modifies this
      ensures headers == old(headers)[ToLower(name) := value]
      ensures statusCode == old(statusCode) && sent == old(sent)
    {
      headers := headers[ToLower(name) := value];
    }

    /** `response.status(code)` */
    method Status(code: int)
      modifies this
      ensures statusCode == code
      ensures headers == old(headers) && sent == old(sent)
    {
      statusCode := code;
    }

    /** `response.send()`, `response.json(body)`, `response.send(text)` or piping a stream into it. */
    method Send(what: Sent)
      modifies this
      ensures sent == what
      ensures statusCode == old(statusCode) && headers == old(headers)
    {
      sent := what;
    }
  }

  /** `key` of `headers` after filling it from a stream: kept if present, else the stream's value if any. */
  ghost predicate FilledFrom(headers: map<string, HeaderValue>, r: map<string, HeaderValue>, key: string, provided: Option<HeaderValue>) {
    && (key in headers ==> key in r && r[key] == headers[key])
    && (key !in headers && provided.Some? ==> key in r && r[key] == provided.value)
    && (key !in headers && provided.None? ==> key !in r)
  }

  /** Set `key` to the stream's value only when the table lacks it and the stream provides it. */
  function FillHeader(headers: map<string, HeaderValue>, key: string, provided: Option<HeaderValue>): (r: map<string, HeaderValue>)
    ensures FilledFrom(headers, r, key, provided)
    ensures forall k | k in headers :: k in r && r[k] == headers[k]
    ensures forall k | k in r && k != key :: k in headers && r[k] == headers[k]
  {
    if key !in headers && provided.Some? then headers[key := provided.value] else headers
  }

  function TextOf(s: Option<string>): Option<HeaderValue> {
    if s.Some? then Some(Text(s.value)) else None
  }

  function NumberOf(n: Option<int>): Option<HeaderValue> {
    if n.Some? then Some(Number(n.value)) else None
  }

  /** The headers after `reply` has filled in a `StreamableFile`'s headers. */
  function FillStreamHeaders(headers: map<string, HeaderValue>, sh: StreamHeaders): (r: map<string, HeaderValue>)
    ensures FilledFrom(headers, r, CONTENT_TYPE_KEY, TextOf(sh.contentType))
    ensures FilledFrom(headers, r, CONTENT_DISPOSITION_KEY, TextOf(sh.disposition))
    ensures FilledFrom(headers, r, CONTENT_LENGTH_KEY, NumberOf(sh.length))
    ensures forall k | k in headers :: k in r && r[k] == headers[k]
    ensures forall k | k in r && k !in headers :: k in {CONTENT_TYPE_KEY, CONTENT_DISPOSITION_KEY, CONTENT_LENGTH_KEY}
  {
    var h1 := FillHeader(headers, CONTENT_TYPE_KEY, TextOf(sh.contentType));
    var h2 := FillHeader(h1, CONTENT_DISPOSITION_KEY, TextOf(sh.disposition));
    FillHeader(h2, CONTENT_LENGTH_KEY, NumberOf(sh.length))
  }

  /** `body?.statusCode >= HttpStatus.BAD_REQUEST` */
  predicate IsErrorBody(body: Body) {
    body.ObjectBody? && body.statusCode.Some? && body.statusCode.value >= BAD_REQUEST
  }

  /** The Content-Type is a string that does not start with `application/json`. */
  predicate HasNonJsonContentType(headers: map<string, HeaderValue>) {
    CONTENT_TYPE_KEY in headers && headers[CONTENT_TYPE_KEY].Text?
    && !StartsWith(headers[CONTENT_TYPE_KEY].s, APPLICATION_JSON)
  }

  /** The headers after `reply`'s Content-Type check for a non-nil, non-stream body. */
  function EnforceJsonContentType(headers: map<string, HeaderValue>, body: Body): (r: map<string, HeaderValue>)
    ensures r.Keys == headers.Keys
    ensures forall k | k in headers && k != CONTENT_TYPE_KEY :: r[k] == headers[k]
    ensures r != headers <==> HasNonJsonContentType(headers) && IsErrorBody(body)
    ensures r != headers ==> r[CONTENT_TYPE_KEY] == Text(APPLICATION_JSON)
  {
    if HasNonJsonContentType(headers) && IsErrorBody(body) then
      headers[CONTENT_TYPE_KEY := Text(APPLICATION_JSON)]
    else headers
  }

  /** An error body never leaves with a string Content-Type other than JSON. */
  lemma ErrorBodyContentTypeIsJson(headers: map<string, HeaderValue>, body: Body)
    requires IsErrorBody(body)
    ensures !HasNonJsonContentType(EnforceJsonContentType(headers, body))
  {
  }

  /** Replying twice with the same body does not change the headers again. */
  lemma EnforceJsonContentTypeIdempotent(headers: map<string, HeaderValue>, body: Body)
    ensures EnforceJsonContentType(EnforceJsonContentType(headers, body), body)
         == EnforceJsonContentType(headers, body)
  {
  }

  /** Filling the stream headers a second time changes nothing. */
  lemma FillStreamHeadersIdempotent(headers: map<string, HeaderValue>, sh: StreamHeaders)
    ensures FillStreamHeaders(FillStreamHeaders(headers, sh), sh) == FillStreamHeaders(headers, sh)
  {
  }
}
