/**
 * The body-parser helpers shared by the adapters: the options builder that
 * adds a raw-body `verify` hook, and the hook itself.
 */
module HonoUtils {
  import opened Wrappers

  newtype byte = b: int | 0 <= b < 256

  /** A value in a body-parser options object; `RawBodyParserHook` is the function `rawBodyParser`. */
  datatype OptionValue = Flag(b: bool) | Text(s: string) | Number(n: int) | RawBodyParserHook

  /** A body-parser options object, as a table from property names to values. */
  type ParserOptions = map<string, OptionValue>

  const VERIFY := "verify"

  /** `options || {}` */
  function GivenOrEmpty(options: Option<ParserOptions>): ParserOptions {
    if options.Some? then options.value else map[]
  }

  /** `getBodyParserOptions(rawBody, options)` */
  function GetBodyParserOptions(rawBody: bool, options: Option<ParserOptions>): (r: ParserOptions)
    ensures !rawBody ==> r == GivenOrEmpty(options)
    ensures rawBody ==> r.Keys == GivenOrEmpty(options).Keys + {VERIFY}
    ensures rawBody ==> r[VERIFY] == RawBodyParserHook
    ensures rawBody ==> forall k | k in GivenOrEmpty(options) && k != VERIFY :: r[k] == GivenOrEmpty(options)[k]
  {
    var parserOptions := GivenOrEmpty(options);
    if rawBody then parserOptions[VERIFY := RawBodyParserHook] else parserOptions
  }

  /** The options `registerParserMiddleware` gives the urlencoded parser. */
  lemma UrlencodedParserOptions(rawBody: bool)
    ensures GetBodyParserOptions(rawBody, Some(map["extended" := Flag(true)]))
         == if rawBody then map["extended" := Flag(true), VERIFY := RawBodyParserHook]
            else map["extended" := Flag(true)]
  {
  }

  /** The request object the hook writes to. */
  class RawBodyRequest {
    var rawBody: Option<seq<byte>>

    constructor ()
      ensures rawBody == None
    {
      rawBody := None;
    }
  }

  /** The third argument body-parser passes to `verify`: a Buffer or some other value. */
  datatype VerifyBuffer = Buffer(bytes: seq<byte>) | NotBuffer

  /** `rawBodyParser(req, res, buffer)` */
  method RawBodyParser(req: RawBodyRequest, buffer: VerifyBuffer) returns (ok: bool)
    modifies req
    ensures ok
    ensures buffer.Buffer? ==> req.rawBody == Some(buffer.bytes)
    ensures !buffer.Buffer? ==> unchanged(req)
  {
    if buffer.Buffer? {
      req.rawBody := Some(buffer.bytes);
    }
    return true;
  }
}
