/**
 * The version filter of the Express adapter (`applyVersionFilter`).
 *
 * Given a handler's declared version and the versioning options, the filter
 * returns a route; the route, given a request and whether a `next`
 * continuation exists, either runs the handler, falls through to `next()`,
 * or raises an internal server error when there is no `next`. The closures
 * that `applyVersionFilter` returns are represented by the `VersionedRoute` datatype and
 * `Invoke` applies one.
 */
module VersionFilter {
  import opened Wrappers
  import opened JsStrings

  /** An element of an array version: a version string or `VERSION_NEUTRAL`. */
  datatype VersionItem = NeutralItem | Ver(v: string)

  /** A handler's declared version: `VERSION_NEUTRAL`, one string, or an array. */
  datatype VersionValue = Neutral | One(v: string) | Many(items: seq<VersionItem>)

  /** What a custom extractor returns: a string, an array of strings, or anything else. */
  datatype Extracted = ExtractedString(s: string) | ExtractedArray(ss: seq<string>) | ExtractedOther

  /**
   * A request: the header table, read by the media-type and header routes,
   * and the URL and query, which a custom extractor may read as well.
   */
  datatype Request = Request(headers: map<string, string>, url: string, query: map<string, string>)

  /** The versioning strategy with the field each one needs. */
  datatype VersioningOptions =
    | UriVersioning
    | HeaderVersioning(header: string)
    | MediaTypeVersioning(key: string)
    | CustomVersioning(extractor: Request -> Extracted)
    | UnknownVersioning  // a `type` that none of the four strategies matches

  /** The route returned by the filter, one constructor per closure `applyVersionFilter` returns. */
  datatype VersionedRoute =
    | NoVersioningRoute
    | CustomRoute(version: VersionValue, extractor: Request -> Extracted)
    | MediaTypeRoute(version: VersionValue, key: string)
    | HeaderRoute(version: VersionValue, header: string)
    | CallNextRoute

  /** What invoking a route does. */
  datatype Outcome = Handled | Next | Raised(message: string)

  const UNSUPPORTED_MESSAGE := "HTTP adapter does not support filtering on version"
  const MEDIA_TYPE_HEADER := "Accept"

  /** `callNextHandler`: call `next()`, or raise when there is none. */
  function CallNextHandler(hasNext: bool): (r: Outcome)
    ensures r != Handled
    ensures r == Next <==> hasNext
  {
    if !hasNext then Raised(UNSUPPORTED_MESSAGE) else Next
  }

  /** `applyVersionFilter`: choose the route for a declared version and strategy. */
  function ApplyVersionFilter(version: VersionValue, options: VersioningOptions): (r: VersionedRoute)
    ensures r.NoVersioningRoute? <==> version.Neutral? || options.UriVersioning?
    ensures r.CallNextRoute? <==> !version.Neutral? && options.UnknownVersioning?
    ensures !r.NoVersioningRoute? && !r.CallNextRoute? ==> r.version == version
  {
    if version.Neutral? || options.UriVersioning? then NoVersioningRoute
    else match options
      case CustomVersioning(extractor) => CustomRoute(version, extractor)
      case MediaTypeVersioning(key) => MediaTypeRoute(version, key)
      case HeaderVersioning(header) => HeaderRoute(version, header)
      case _ => CallNextRoute
  }

  /** `req.headers?.[name] || req.headers?.[name.toLowerCase()]`: an empty value is falsy. */
  function HeaderLookup(headers: map<string, string>, name: string): (r: Option<string>)
    ensures r.Some? ==> r.value in headers.Values
  {
    if name in headers && headers[name] != "" then Some(headers[name])
    else if ToLower(name) in headers then Some(headers[ToLower(name)])
    else None
  }

  /** The second `;`-segment of a non-empty `Accept` header, if there is one. */
  function AcceptParameter(headers: map<string, string>): Option<string> {
    var accept := HeaderLookup(headers, MEDIA_TYPE_HEADER);
    if accept.Some? && accept.value != "" then At(Split(accept.value, ";"), 1) else None
  }

  /** `acceptHeaderVersionParameter.split(versioningOptions.key)[1]` */
  function VersionOfParameter(parameter: string, key: string): Option<string> {
    At(Split(parameter, key), 1)
  }

  /** `Array.isArray(version) && version.includes(VERSION_NEUTRAL)` */
  predicate IncludesNeutral(version: VersionValue) {
    version.Many? && NeutralItem in version.items
  }

  /** An array version includes the signal, or a string version equals it. */
  predicate MatchesSignal(version: VersionValue, signal: Option<string>) {
    match version
    case Many(items) => signal.Some? && Ver(signal.value) in items
    case One(v) => signal == Some(v)
    case Neutral => false
  }

  /** `version.filter((v) => extractedVersion.includes(v))` */
  function CommonVersions(items: seq<VersionItem>, extracted: seq<string>): seq<VersionItem> {
    if items == [] then []
    else (if items[0].Ver? && items[0].v in extracted then [items[0]] else [])
         + CommonVersions(items[1..], extracted)
  }

  /** The comparisons made by the custom-extractor route. */
  predicate CustomMatches(version: VersionValue, extracted: Extracted) {
    match version
    case Many(items) =>
      || (extracted.ExtractedArray? && |CommonVersions(items, extracted.ss)| > 0)
      || (extracted.ExtractedString? && Ver(extracted.s) in items)
    case One(v) =>
      || (extracted.ExtractedArray? && v in extracted.ss)
      || (extracted.ExtractedString? && v == extracted.s)
    case Neutral => false
  }

  /** Invoke a route on a request; `hasNext` says whether `next` was supplied. */
  function Invoke(route: VersionedRoute, req: Request, hasNext: bool): (r: Outcome)
    ensures r == Handled || r == CallNextHandler(hasNext)
  {
    match route
    case NoVersioningRoute => Handled
    case CustomRoute(version, extractor) =>
      if CustomMatches(version, extractor(req)) then Handled else CallNextHandler(hasNext)
    case MediaTypeRoute(version, key) =>
      var parameter := AcceptParameter(req.headers);
      if parameter.None? then
        if IncludesNeutral(version) then Handled else CallNextHandler(hasNext)
      else if MatchesSignal(version, VersionOfParameter(parameter.value, key)) then Handled
      else CallNextHandler(hasNext)
    case HeaderRoute(version, header) =>
      var value := HeaderLookup(req.headers, header);
      if value.None? then
        if IncludesNeutral(version) then Handled else CallNextHandler(hasNext)
      else if MatchesSignal(version, value) then Handled
      else CallNextHandler(hasNext)
    case CallNextRoute => CallNextHandler(hasNext)
  }

  // ---------------------------------------------------------------------------
  // Reference definitions: the versions as sets of strings.

  /** The version strings an array version lists (`VERSION_NEUTRAL` is not a string). */
  function ItemStrings(items: seq<VersionItem>): set<string> {
    set i | i in items && i.Ver? :: i.v
  }

  /** The version strings a declared version accepts. */
  function VersionStrings(version: VersionValue): set<string> {
    match version
    case Neutral => {}
    case One(v) => {v}
    case Many(items) => ItemStrings(items)
  }

  /** The version strings an extractor result carries. */
  function ExtractedStrings(extracted: Extracted): set<string> {
    match extracted
    case ExtractedString(s) => {s}
    case ExtractedArray(ss) => set s | s in ss
    case ExtractedOther => {}
  }

  // ---------------------------------------------------------------------------
  // Properties.

  lemma {:induction false} CommonVersionsNonEmpty(items: seq<VersionItem>, extracted: seq<string>)
    ensures |CommonVersions(items, extracted)| > 0 <==> ItemStrings(items) * (set s | s in extracted) != {}
    decreases |items|
  {
    if items != [] {
      CommonVersionsNonEmpty(items[1..], extracted);
      assert items == [items[0]] + items[1..];
      assert ItemStrings(items) == ItemStrings([items[0]]) + ItemStrings(items[1..]);
      var e := set s | s in extracted;
      if items[0].Ver? {
        assert ItemStrings([items[0]]) == {items[0].v};
        if items[0].v in extracted {
          assert items[0].v in ItemStrings(items) * e;
        } else {
          assert ItemStrings(items) * e == ItemStrings(items[1..]) * e;
        }
      } else {
        assert ItemStrings([items[0]]) == {};
      }
    }
  }

  lemma MatchesSignalIsMembership(version: VersionValue, signal: Option<string>)
    ensures MatchesSignal(version, signal) <==> signal.Some? && signal.value in VersionStrings(version)
  {
  }

  /** A neutral version, or URI versioning, always runs the handler and never calls `next`. */
  lemma NeutralOrUriAlwaysHandles(version: VersionValue, options: VersioningOptions, req: Request, hasNext: bool)
    requires version.Neutral? || options.UriVersioning?
    ensures Invoke(ApplyVersionFilter(version, options), req, hasNext) == Handled
  {
  }

  /** Custom extractor: the handler runs exactly when the declared and extracted versions share a string. */
  lemma CustomStrategy(version: VersionValue, extractor: Request -> Extracted, req: Request, hasNext: bool)
    requires !version.Neutral?
    ensures Invoke(ApplyVersionFilter(version, CustomVersioning(extractor)), req, hasNext)
         == if VersionStrings(version) * ExtractedStrings(extractor(req)) != {} then Handled
            else CallNextHandler(hasNext)
  {
    var e := extractor(req);
    if version.Many? {
      if e.ExtractedArray? {
        CommonVersionsNonEmpty(version.items, e.ss);
      } else if e.ExtractedString? {
        MatchesSignalIsMembership(version, Some(e.s));
        if e.s in VersionStrings(version) {
          assert e.s in VersionStrings(version) * ExtractedStrings(e);
        }
      }
    } else if e.ExtractedArray? {
      if version.v in e.ss {
        assert version.v in VersionStrings(version) * ExtractedStrings(e);
      } else {
        assert VersionStrings(version) * ExtractedStrings(e) == {};
      }
    } else if e.ExtractedString? && e.s == version.v {
      assert e.s in VersionStrings(version) * ExtractedStrings(e);
    }
  }

  /** Media type: no parameter means only a neutral array matches; otherwise membership of the parsed version. */
  lemma MediaTypeStrategy(version: VersionValue, key: string, req: Request, hasNext: bool)
    requires !version.Neutral?
    ensures var parameter := AcceptParameter(req.headers);
            var handled := if parameter.None? then IncludesNeutral(version)
                           else var signal := VersionOfParameter(parameter.value, key);
                                signal.Some? && signal.value in VersionStrings(version);
            Invoke(ApplyVersionFilter(version, MediaTypeVersioning(key)), req, hasNext)
              == if handled then Handled else CallNextHandler(hasNext)
  {
  }

  /** Header: no value means only a neutral array matches; otherwise membership of the header's value. */
  lemma HeaderStrategy(version: VersionValue, header: string, req: Request, hasNext: bool)
    requires !version.Neutral?
    ensures var value := HeaderLookup(req.headers, header);
            var handled := if value.None? then IncludesNeutral(version)
                           else value.value in VersionStrings(version);
            Invoke(ApplyVersionFilter(version, HeaderVersioning(header)), req, hasNext)
              == if handled then Handled else CallNextHandler(hasNext)
  {
  }

  /** An unrecognised strategy yields `callNextHandler` itself. */
  lemma UnknownStrategyCallsNext(version: VersionValue, req: Request, hasNext: bool)
    requires !version.Neutral?
    ensures ApplyVersionFilter(version, UnknownVersioning) == CallNextRoute
    ensures Invoke(ApplyVersionFilter(version, UnknownVersioning), req, hasNext)
         == if hasNext then Next else Raised(UNSUPPORTED_MESSAGE)
  {
  }

  /** When the request carries no version, a string version never matches. */
  lemma NoSignalStringVersionFallsThrough(v: string, route: VersionedRoute, req: Request, hasNext: bool)
    requires || (route.MediaTypeRoute? && route.version == One(v) && AcceptParameter(req.headers).None?)
             || (route.HeaderRoute? && route.version == One(v) && HeaderLookup(req.headers, route.header).None?)
    ensures Invoke(route, req, hasNext) == CallNextHandler(hasNext)
  {
  }

  /** Header names are looked up case-insensitively when the table's keys are lower-case, as Node stores them. */
  lemma HeaderLookupIgnoresCase(headers: map<string, string>, name: string)
    requires forall k | k in headers :: ToLower(k) == k
    ensures HeaderLookup(headers, name)
         == if ToLower(name) in headers then Some(headers[ToLower(name)]) else None
  {
  }

  /** An `Accept` header without `;` supplies no version. */
  lemma AcceptWithoutParameter(headers: map<string, string>, accept: string)
    requires HeaderLookup(headers, MEDIA_TYPE_HEADER) == Some(accept)
    requires ';' !in accept
    ensures AcceptParameter(headers).None?
  {
    if accept != "" {
      NoCharOccurrence(accept, ';');
      SplitNoOccurrence(accept, ";");
    }
  }

  /**
   * `Accept: <media type>;<key><version>[;...]` supplies `<version>`, when
   * the key is not empty and no `;` or further key occurs after it.
   */
  lemma AcceptParameterVersion(headers: map<string, string>, mediaType: string, key: string, v: string, rest: string)
    requires HeaderLookup(headers, MEDIA_TYPE_HEADER) == Some(mediaType + ";" + key + v + rest)
    requires ';' !in mediaType && ';' !in key && ';' !in v && key != [] && NoOccurrence(v, key)
    requires rest == [] || rest[0] == ';'
    ensures AcceptParameter(headers) == Some(key + v)
    ensures VersionOfParameter(key + v, key) == Some(v)
  {
    var accept := mediaType + ";" + key + v + rest;
    assert accept == mediaType + [';'] + (key + v + rest);
    SplitFromChar(mediaType, ';', key + v + rest, []);
    assert [] + mediaType == mediaType;
    if rest == [] {
      assert key + v + rest == key + v;
      NoCharOccurrence(key + v, ';');
      SplitFromNoOccurrence(key + v, ";", []);
      assert [] + (key + v) == key + v;
    } else {
      assert key + v + rest == (key + v) + [';'] + rest[1..];
      SplitFromChar(key + v, ';', rest[1..], []);
      assert [] + (key + v) == key + v;
    }
    SplitLeadingSeparator(key, v);
  }
}
