# Express adapter version filter, reply and connection registry, in Dafny

This project models the decision logic of `ExpressTestAdapter`, the Express
adapter of a NestJS HTTP-adapter shim, and the body-parser helpers in
`hono.utils.ts`.

- **Version filter** (`VersionFilter`): `applyVersionFilter` takes a handler's declared
  version (`VERSION_NEUTRAL`, a string, or an array of strings and `VERSION_NEUTRAL`)
  and the versioning options (URI, CUSTOM, MEDIA_TYPE, HEADER). It returns a route.
  The closures `applyVersionFilter` returns are the constructors of `VersionedRoute`, and
  `Invoke` runs one on a request. The outcome is one of three: the handler runs
  (`Handled`), `next()` is called (`Next`), or, when no `next` was given, an
  `InternalServerErrorException("HTTP adapter does not support filtering on version")`
  is raised (`Raised`). The versions are also read as sets of strings
  (`VersionStrings`, `ExtractedStrings`). One lemma per strategy states the
  outcome in those terms.
- **JavaScript strings** (`JsStrings`): `split` with a string separator and no limit,
  following ECMAScript. An empty separator splits into single characters. The model
  also has `toLowerCase`, `startsWith` and out-of-range array access as `undefined`.
  The `Accept` parsing (second `;`-segment, then the text after the key) is built
  on these. The lemmas include the split/join round trip.
- **Reply** (`Responses`, `ExpressAdapter.ExpressTestAdapter.Reply`): a `Response` class
  holding a status code, a header table keyed by lower-cased name (as Node keeps it)
  and what has been sent. `Reply` changes them step by step, as the TypeScript `reply` does. Its
  contract ties the new state to `FillStreamHeaders` (StreamableFile bodies) and to
  `EnforceJsonContentType` (other non-nil bodies). Lemmas about those two give the
  promised properties.
- **Open connections** (`ExpressAdapter.ExpressTestAdapter`): the registry is a set of
  sockets. A ghost log records every `socket.destroy()` call. `CloseOpenConnections`
  is a loop, proved to destroy every tracked socket exactly once and to leave the
  set empty.
- **Body-parser options** (`HonoUtils`): `getBodyParserOptions` as a function over
  option tables. `rawBodyParser` is a method that writes `req.rawBody`.

Notes on the code's behaviour:

- HTTP header names are case-insensitive. The code looks up the configured name,
  then its lower-cased form. That is case-insensitive only when
  the table's keys are lower-case, as Node stores them (`HeaderLookupIgnoresCase`).
- Both lookups are joined with `||`, so an empty value under the configured name counts
  as missing. An empty value found under the lower-cased name is a present version `""`.
  It is not "no version" (`HeaderStrategy`).
- For media-type versioning, a present parameter in which the key does not occur
  gives `undefined` as the version. No declared version matches it, not even one that
  includes `VERSION_NEUTRAL` (`MediaTypeStrategy`).

## Model

| member | source | states |
|---|---|---|
| VersionFilter.CallNextHandler | adapter/express-test-adapter.ts:331-338 | never runs the handler; calls `next()` exactly when `next` exists, otherwise raises |
| VersionFilter.ApplyVersionFilter | adapter/express-test-adapter.ts:324-484 | the pass-through route is chosen exactly for a neutral version or URI versioning; `callNextHandler` itself exactly for an unrecognised strategy; every other route keeps the declared version |
| VersionFilter.Invoke | adapter/express-test-adapter.ts:353-480 | every route either runs the handler or does what `callNextHandler` does; there is no third path |
| VersionFilter.NeutralOrUriAlwaysHandles | adapter/express-test-adapter.ts:340-349 | with `VERSION_NEUTRAL` or URI versioning the handler runs for every request, with or without `next` |
| VersionFilter.CommonVersionsNonEmpty | adapter/express-test-adapter.ts:361-366 | `version.filter(v => extracted.includes(v))` is non-empty exactly when the declared and extracted arrays share a version string |
| VersionFilter.CustomStrategy | adapter/express-test-adapter.ts:358-396 | custom extractor: the handler runs exactly when the declared versions and the extracted versions share a string, otherwise `callNextHandler` |
| VersionFilter.MatchesSignalIsMembership | adapter/express-test-adapter.ts:430-438 | an array version matches by inclusion and a string version by equality, i.e. the signal is one of the declared version strings; an `undefined` signal never matches |
| VersionFilter.MediaTypeStrategy | adapter/express-test-adapter.ts:409-441 | media type: without a `;`-parameter only an array containing `VERSION_NEUTRAL` runs the handler; with one, the handler runs exactly when the text after the key is a declared version; otherwise `callNextHandler` |
| VersionFilter.HeaderStrategy | adapter/express-test-adapter.ts:454-477 | header: without a value only an array containing `VERSION_NEUTRAL` runs the handler; with one, exactly when the value is a declared version; otherwise `callNextHandler` |
| VersionFilter.NoSignalStringVersionFallsThrough | adapter/express-test-adapter.ts:418-424 | when the request carries no version, a string version never runs the handler |
| VersionFilter.UnknownStrategyCallsNext | adapter/express-test-adapter.ts:483 | an unrecognised strategy returns `callNextHandler`: `next()` if present, else the "does not support filtering on version" error |
| VersionFilter.HeaderLookupIgnoresCase | adapter/express-test-adapter.ts:454-456 | with lower-case keys, the lookup (name, then lower-cased name) returns the value stored under the lower-cased name, whatever the case of the configured name |
| VersionFilter.AcceptWithoutParameter | adapter/express-test-adapter.ts:409-416 | an `Accept` value without `;` supplies no version |
| VersionFilter.AcceptParameterVersion | adapter/express-test-adapter.ts:409-428 | `Accept: <type>;<key><v>[;...]` yields the parameter `<key><v>` and the version `<v>` |
| JsStrings.At | adapter/express-test-adapter.ts:415 | `parts[i]` is defined exactly for indices inside the array, and is that element |
| JsStrings.SplitJoinRoundTrip | adapter/express-test-adapter.ts:415 | for a non-empty separator, joining the parts of `split` with the separator gives back the string |
| JsStrings.SplitNoOccurrence | adapter/express-test-adapter.ts:415 | a string in which the separator does not occur splits into itself alone |
| JsStrings.SplitLeadingSeparator | adapter/express-test-adapter.ts:426-428 | `(key + v).split(key)` is `["", v]` when `v` holds no further key |
| JsStrings.SplitFromChar | adapter/express-test-adapter.ts:415 | splitting on one character: the text before its first occurrence is a part of its own, and the split goes on after it |
| Responses.Response.GetHeader | adapter/express-test-adapter.ts:76 | finds a header under its lower-cased name |
| Responses.Response.SetHeader | adapter/express-test-adapter.ts:79 | stores the value under the lower-cased name; status and body untouched |
| Responses.Response.Status | adapter/express-test-adapter.ts:68 | sets the status code only |
| Responses.Response.Send | adapter/express-test-adapter.ts:71 | records what is sent; status and headers untouched |
| Responses.FillHeader | adapter/express-test-adapter.ts:75-80 | a header is set from the stream only when absent and provided; existing headers keep their values |
| Responses.FillStreamHeaders | adapter/express-test-adapter.ts:73-95 | each of Content-Type, Content-Disposition, Content-Length is filled from the stream only when absent and provided; no present header is overwritten; no other header appears |
| Responses.FillStreamHeadersIdempotent | adapter/express-test-adapter.ts:73-95 | filling the stream headers again changes nothing |
| Responses.EnforceJsonContentType | adapter/express-test-adapter.ts:109-119 | the headers change exactly when the Content-Type is a string not starting with `application/json` and `body.statusCode >= 400`; then only Content-Type changes, to `application/json` |
| Responses.ErrorBodyContentTypeIsJson | adapter/express-test-adapter.ts:109-119 | after the check, an error body never has a string Content-Type other than JSON |
| Responses.EnforceJsonContentTypeIdempotent | adapter/express-test-adapter.ts:109-119 | applying the Content-Type check twice is the same as once |
| ExpressAdapter.ExpressTestAdapter.Reply | adapter/express-test-adapter.ts:64-123 | a non-zero status replaces the old one; nil bodies send nothing with headers untouched; streams get `FillStreamHeaders` and are piped; other bodies get `EnforceJsonContentType` and go out as JSON if objects, as `String(body)` otherwise |
| ExpressAdapter.ExpressTestAdapter.constructor | adapter/express-test-adapter.ts:57 | starts with an empty registry, not tracking |
| ExpressAdapter.ExpressTestAdapter.InitHttpServer | adapter/express-test-adapter.ts:268-282 | each call makes a new server, which gets the connection listener exactly when `forceCloseConnections` is set; the registry is untouched |
| ExpressAdapter.ExpressTestAdapter.TrackOpenConnections | adapter/express-test-adapter.ts:486-492 | the connection listener is registered |
| ExpressAdapter.ExpressTestAdapter.OnConnection | adapter/express-test-adapter.ts:487-488 | a new connection joins the registry when tracking is on |
| ExpressAdapter.ExpressTestAdapter.OnSocketClose | adapter/express-test-adapter.ts:490 | a closed socket leaves the registry |
| ExpressAdapter.ExpressTestAdapter.CloseOpenConnections | adapter/express-test-adapter.ts:494-499 | every socket tracked beforehand is destroyed exactly once, no other socket is destroyed, and the registry ends empty |
| HonoUtils.GetBodyParserOptions | adapter/hono.utils.ts:17-31 | without `rawBody`: the given options, or `{}`; with `rawBody`: every given key with its value plus `verify` set to `rawBodyParser` |
| HonoUtils.UrlencodedParserOptions | adapter/express-test-adapter.ts:287-289 | the urlencoded parser gets `{extended: true}`, plus `verify` when `rawBody` |
| HonoUtils.RawBodyParser | adapter/hono.utils.ts:4-13 | stores the buffer in `req.rawBody` only when it is a Buffer, otherwise leaves `req` unchanged; always returns `true` |

## Left out

- adapter/hono-adapter.ts is not part of this model. It forwards to Hono context objects, and its `applyVersionFilter`, `createMiddlewareFactory`, `isHeadersSent`, `useStaticAssets` and `setViewEngine` are stubs.
- interfaces/nest-hono-application.interface.ts (type declarations only) and test-app/nest-app/src/main.ts (bootstrap and network I/O) are not part of this model.
- Server lifecycle (`listen`, `close`'s promise over `httpServer.close`, and the creation of the http/https server in `initHttpServer`) is socket I/O. It is left out. Only `initHttpServer`'s switch to tracking is modelled, and `close`'s first step is `CloseOpenConnections`.
- The stream piping in `reply` and its error callbacks are asynchronous stream I/O. The model only records that the body was piped (`Piped`).
- The calls into body-parser, cors, `express.static` and `RouterMethodFactory` are foreign libraries. This covers `enableCors`, `useStaticAssets`, `createMiddlewareFactory`, the middleware registration in `registerParserMiddleware` and `useBodyParser`, and `isMiddlewareApplied`, which reads Express's private router stack. Only the options they pass are modelled.
- The one-line forwarders (`status`, `end`, `render`, `redirect`, `setErrorHandler`, `setNotFoundHandler`, `isHeadersSent`, `getHeader`, `setHeader`, `appendHeader`, `set`, `enable`, `disable`, `engine`, `setBaseViewsDir`, `setViewEngine`, `getRequestHostname`, `getRequestMethod`, `getRequestUrl`, `setLocal`, `getType`) carry no decisions.
- Logger calls are left out.
- Express's own behaviour inside `response.json` and `response.send`, such as defaulting the Content-Type or serialising, is left out. An object body carries its JSON text, and any other body carries its `String(body)` text.
- Responses.IsErrorBody: only a numeric `statusCode` on an object body is modelled. JavaScript's coercion of other values in `body?.statusCode >= 400` (a string "500", say) is not.
- ExpressAdapter.StatusAfterReply: `if (statusCode)` is modelled as "given and non-zero"; a NaN status is not modelled.
- JsStrings.ToLower: only ASCII letters are lower-cased (header names are ASCII tokens). Full Unicode `toLowerCase` is not modelled.
- VersionFilter.HeaderLookup: request headers are a table from names to single strings. Array-valued headers are not modelled. A missing `req.headers` behaves like an empty table.
- JsStrings.Split: strings are sequences of Dafny `char`, which are Unicode scalar values, while JavaScript strings are sequences of UTF-16 code units. A character outside the Basic Multilingual Plane is one `char` here but two code units in JavaScript, so splitting it on an empty separator gives one part here and two surrogate halves in JavaScript; lone surrogates cannot be represented at all.
- VersionFilter.CustomStrategy: the request carries its header table, URL and query; an extractor reading any other part of the request is not modelled. The extractor is a total function: an exception it throws, like one thrown by the handler or by `next()`, propagates out of the route in the TypeScript code and is not modelled (no `Outcome` stands for it).
- VersionFilter.CustomMatches: an extractor result is a string, an array of strings, or another value. An array holding `VERSION_NEUTRAL` is not modelled.
- ExpressAdapter.ExpressTestAdapter.CloseOpenConnections: sockets are destroyed in an arbitrary order, not in the Set's insertion order. `destroy()` itself is recorded in a ghost log.
- HonoUtils.GetBodyParserOptions: option objects are values. With `rawBody` false `getBodyParserOptions` returns the very same object it was given, and this aliasing is not represented. That the input is never mutated holds by construction: a function cannot change its argument.
