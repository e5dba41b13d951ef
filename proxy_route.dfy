/** The `/proxy/:url` route of src/server/main.js:14-33.

    Express matches the request path against the route's pattern (case-insensitive,
    one non-empty segment, an optional trailing '/'), and passes the segment through
    decodeURIComponent; a segment that does not decode is answered with status 400
    before the handler runs. The handler then decides, from the target's HEAD
    content-type and the Open Graph scraper's outcome, what to stream back.

    The fetches, the scraper and the stream piping are network I/O and are not part
    of this model: their outcomes are parameters, and the decision is a value. */
module ProxyRoute {
  import opened Wrappers
  import UriComponent

  // ---------------------------------------------------------------- the route

  datatype RouteMatch =
    | NoRoute           // the path is not this route's; Express moves on
    | BadParam          // the segment is not valid percent-encoding: status 400
    | Param(url: string)

  const Prefix: string := "/proxy/"

  function LowerAscii(c: char): char {
    if 'A' <= c <= 'Z' then (c as int + 32) as char else c
  }

  /** s equals t up to the case of ASCII letters. */
  predicate SameIgnoringCase(s: string, t: string) {
    |s| == |t| && forall k :: 0 <= k < |s| ==> LowerAscii(s[k]) == LowerAscii(t[k])
  }

  /** The single non-empty segment after the prefix, without the optional trailing
      '/', when the rest of the path is such a segment. */
  function Segment(rest: string): (r: Option<string>)
    ensures r.Some? ==> r.value != [] && '/' !in r.value
    ensures r.Some? ==> rest == r.value || rest == r.value + "/"
  {
    var seg := if rest != [] && rest[|rest| - 1] == '/' then rest[..|rest| - 1] else rest;
    if seg != [] && '/' !in seg then Some(seg) else None
  }

  /** Routing a request path to `/proxy/:url`, with the parameter decoded. */
  function MatchProxy(path: string): (r: RouteMatch)
    ensures r != NoRoute ==> |path| > |Prefix| && SameIgnoringCase(path[..|Prefix|], Prefix)
  {
    if |path| < |Prefix| || !SameIgnoringCase(path[..|Prefix|], Prefix) then NoRoute
    else match Segment(path[|Prefix|..])
      case None => NoRoute
      case Some(seg) =>
        match UriComponent.Decode(seg)
        case None => BadParam
        case Some(v) => Param(v)
  }

  // ---------------------------------------------------------------- the handler

  /** What the HEAD request to the target gave: its content-type header, if any. */
  datatype Head = Headers(contentType: Option<string>) | HeadFailed

  /** The `ogImage` field of the scraper's result. */
  datatype OgImage =
    | OgAbsent
    | OgObject(url: Option<string>)
    | OgArray(items: seq<Option<string>>)

  datatype Scrape = Scraped(og: OgImage) | ScrapeThrew

  datatype Action =
    | Pipe(source: string)   // fetch source and stream its body as the response
    | NotFound               // status 404, empty body
    | NoResponse             // nothing is ever sent: the request hangs

  predicate StartsWith(s: string, p: string) {
    |p| <= |s| && s[..|p|] == p
  }

  /** JavaScript truthiness of an optional string: present and non-empty. */
  predicate Truthy(s: Option<string>) {
    s.Some? && s.value != ""
  }

  /** `ogImage && (ogImage.length ? ogImage[ogImage.length - 1].url : ogImage.url)`:
      the last entry's url for a non-empty array, the url of a single object, and
      nothing for an absent field or an empty array (which has no `url`). */
  function ChosenOgUrl(og: OgImage): (r: Option<string>)
    ensures og.OgAbsent? ==> r.None?
    ensures og.OgObject? ==> r == og.url
    ensures og.OgArray? && r.Some? ==> r in og.items
  {
    match og
    case OgAbsent => None
    case OgObject(u) => u
    case OgArray(items) => if items == [] then None else items[|items| - 1]
  }

  /** The handler's decision for the decoded parameter `url`. A failed HEAD request,
      or a missing content-type (`type.startsWith` on null), rejects the async
      handler and no response is sent; a scraper exception is caught and logged,
      and no response is sent either. */
  function Respond(url: string, head: Head, scrape: Scrape): (r: Action)
    ensures r == NoResponse <==>
      head.HeadFailed? || head.contentType.None? ||
      (StartsWith(head.contentType.value, "text/html") && scrape.ScrapeThrew?)
    ensures r.Pipe? && r.source != url ==> StartsWith(head.contentType.value, "text/html")
  {
    match head
    case HeadFailed => NoResponse
    case Headers(None) => NoResponse
    case Headers(Some(t)) =>
      if !StartsWith(t, "text/html") then Pipe(url)
      else match scrape
        case ScrapeThrew => NoResponse
        case Scraped(og) =>
          var chosen := ChosenOgUrl(og);
          if Truthy(chosen) then Pipe(chosen.value) else NotFound
  }

  // ---------------------------------------------------------------- lemmas

  /** A content-type that is not HTML streams the target itself, whatever the
      scraper would have said. */
  lemma NonHtmlPassesThrough(url: string, t: string, s1: Scrape, s2: Scrape)
    requires !StartsWith(t, "text/html")
    ensures Respond(url, Headers(Some(t)), s1) == Pipe(url)
    ensures Respond(url, Headers(Some(t)), s1) == Respond(url, Headers(Some(t)), s2)
  {
  }

  /** For an HTML target the response is the chosen Open Graph image, a 404 when
      there is none, or nothing when the scraper throws; the page itself is only
      streamed when it is its own chosen image. */
  lemma HtmlStreamsOgImage(url: string, t: string, scrape: Scrape)
    requires StartsWith(t, "text/html")
    ensures var a := Respond(url, Headers(Some(t)), scrape);
      && (a.Pipe? <==> scrape.Scraped? && Truthy(ChosenOgUrl(scrape.og)))
      && (a.Pipe? ==> a.source == ChosenOgUrl(scrape.og).value)
      && (a == NotFound <==> scrape.Scraped? && !Truthy(ChosenOgUrl(scrape.og)))
      && (a == NoResponse <==> scrape == ScrapeThrew)
  {
  }

  /** The last entry of a non-empty array wins, a single object gives its own url,
      and an absent field or an empty array gives none. */
  lemma OgChoice(items: seq<Option<string>>, u: Option<string>)
    ensures items != [] ==> ChosenOgUrl(OgArray(items)) == items[|items| - 1]
    ensures ChosenOgUrl(OgArray([])) == None && ChosenOgUrl(OgAbsent) == None
    ensures ChosenOgUrl(OgObject(u)) == u
    ensures ChosenOgUrl(OgArray(items + [u])) == u
  {
  }

  /** Nothing is fetched on the 404 path: an HTML page without a usable og image. */
  lemma NotFoundOnlyWithoutImage(url: string, head: Head, scrape: Scrape)
    ensures Respond(url, head, scrape) == NotFound <==>
      head.Headers? && head.contentType.Some? && StartsWith(head.contentType.value, "text/html") &&
      scrape.Scraped? && !Truthy(ChosenOgUrl(scrape.og))
  {
  }

  /** A path built as "/proxy/" + encodeURIComponent(s) routes to this handler
      with parameter s, for every non-empty s; for the empty string the route
      does not match at all. */
  lemma RouteRoundTrip(s: string)
    ensures s != [] ==> MatchProxy(Prefix + UriComponent.Encode(s)) == Param(s)
    ensures s == [] ==> MatchProxy(Prefix + UriComponent.Encode(s)) == NoRoute
  {
    var e := UriComponent.Encode(s);
    var path := Prefix + e;
    assert path[..|Prefix|] == Prefix;
    assert path[|Prefix|..] == e;
    if s != [] {
      assert e[|e| - 1] != '/';
      UriComponent.DecodeEncode(s);
      assert Segment(e) == Some(e);
    }
  }

  /** The route ignores the case of its literal part: a path whose first seven
      characters spell "/proxy/" in any mix of cases routes as "/proxy/" does. */
  lemma RouteIgnoresCase(p: string, seg: string)
    requires SameIgnoringCase(p, Prefix)
    ensures MatchProxy(p + seg) == MatchProxy(Prefix + seg)
  {
    var given := p + seg;
    var lower := Prefix + seg;
    assert given[..|Prefix|] == p && given[|Prefix|..] == seg;
    assert lower[..|Prefix|] == Prefix && lower[|Prefix|..] == seg;
  }
}
