/**
 * The single-page app's server: the JSON API (`/home.json`,
 * `/api/urls.json`, `/api/add-url`), the short-link redirect and the
 * catch-all that serves the client page. It has no user-agent middleware.
 */
module SpaApp {
  import opened Wrappers
  import opened JsText
  import opened ShortIds
  import opened LinkStore
  import opened Shortener

  /** The `data` object of an `/api/add-url` reply. */
  datatype ApiData =
    | ErrorData(message: string)
    | LinkData(shortId: string, relativePath: string)

  /** What a request gets back. */
  datatype Reply =
    | HomeJson(numUrlsKnown: nat)
    | UrlsJson(urls: seq<UrlRecord>)
    | AddUrlJson(status: int, success: bool, data: ApiData)
    | VisitReply(response: VisitResponse)
    | ClientPage
    | HandlerThrew

  const InvalidLinkMessage: string := "That is an invalid link :("

  /** The path prefix of the redirect route `/url/:shortId`. */
  const UrlPrefix: string := "/url/"

  /** The `relativePath` the API hands back for a short id. */
  function RelativePath(shortId: string): (p: string)
    ensures StartsWith(p, UrlPrefix) && p[|UrlPrefix|..] == shortId
  {
    UrlPrefix + shortId
  }

  /**
   * The `:shortId` parameter of a path matched against `/url/:shortId`:
   * the path is the prefix followed by one non-empty segment.
   */
  function ShortIdParam(path: string): (r: Option<string>)
    ensures r.Some? ==> RelativePath(r.value) == path && r.value != [] && '/' !in r.value
  {
    if StartsWith(path, UrlPrefix) && path[|UrlPrefix|..] != [] && '/' !in path[|UrlPrefix|..] then
      assert path == UrlPrefix + path[|UrlPrefix|..];
      Some(path[|UrlPrefix|..])
    else
      None
  }

  /**
   * The `relativePath` of every generated id routes back to that id: the
   * link handed to the client reaches the redirect handler for it.
   */
  lemma RelativePathRoutes(shortId: string)
    requires IsShortId(shortId)
    ensures ShortIdParam(RelativePath(shortId)) == Some(shortId)
  {
    var p := RelativePath(shortId);
    assert p[|UrlPrefix|..] == shortId;
  }

  /** `GET /home.json`: `numUrlsKnown` is `getAllUrls().length`. */
  method HomeJsonHandler(db: UrlDatabase) returns (reply: Reply)
    ensures reply == HomeJson(|db.urls|)
  {
    var all := db.GetAllUrls();
    MirrorLength(all, db.urls);
    reply := HomeJson(|all|);
  }

  /** `GET /api/urls.json`: every stored link, one record per key. */
  method UrlsJsonHandler(db: UrlDatabase) returns (reply: Reply)
    ensures reply.UrlsJson? && Mirrors(reply.urls, db.urls)
  {
    var all := db.GetAllUrls();
    reply := UrlsJson(all);
  }

  /**
   * `POST /api/add-url`: trims `longUrl`; a link not starting with `http`
   * gets 400 with `success: false` and stores nothing; otherwise the trimmed
   * link is stored and the reply carries its id and `/url/<id>`. A missing
   * or repeated field is not a string, so calling `.trim()` on it throws.
   */
  method AddUrlApi(db: UrlDatabase, longUrl: FormField, draws: seq<Draw>) returns (reply: Reply)
    requires db.Valid()
    requires |draws| == DefaultIdLength
    modifies db
    ensures db.Valid()
    ensures !longUrl.Text? ==> reply == HandlerThrew && db.urls == old(db.urls)
    ensures longUrl.Text? && !IsValidLink(longUrl.text) ==>
      reply == AddUrlJson(400, false, ErrorData(InvalidLinkMessage)) && db.urls == old(db.urls)
    ensures longUrl.Text? && IsValidLink(longUrl.text) ==>
      && reply == AddUrlJson(200, true, LinkData(IdOf(draws), RelativePath(IdOf(draws))))
      && db.urls == Added(old(db.urls), IdOf(draws), Trim(longUrl.text))
  {
    if !longUrl.Text? {
      reply := HandlerThrew;
      return;
    }
    var url := Trim(longUrl.text);
    if !StartsWith(url, "http") {
      reply := AddUrlJson(400, false, ErrorData(InvalidLinkMessage));
    } else {
      var shortId := db.AddUrl(url, draws);
      reply := AddUrlJson(200, true, LinkData(shortId, UrlPrefix + shortId));
    }
  }

  /**
   * What a successful `/api/add-url` promises the client: following the
   * returned `relativePath` straight away redirects to the trimmed link.
   */
  lemma AddedLinkResolves(db: map<string, Entry>, longUrl: string, draws: seq<Draw>)
    requires |draws| == DefaultIdLength
    ensures ShortIdParam(RelativePath(IdOf(draws))) == Some(IdOf(draws))
    ensures VisitOutcome(Added(db, IdOf(draws), Trim(longUrl)), IdOf(draws)) == Redirect(Trim(longUrl))
  {
    RelativePathRoutes(IdOf(draws));
  }

  /** The requests the SPA server answers. */
  datatype Route =
    | GetHomeJson
    | GetUrlsJson
    | PostAddUrl(longUrl: FormField)
    | GetShortUrl(shortId: string)
    | Other

  /**
   * One request, in the order the routes are registered: the API routes, the
   * redirect, then `app.all('*')` for every other request.
   */
  method Serve(db: UrlDatabase, route: Route, draws: seq<Draw>) returns (reply: Reply)
    requires db.Valid()
    requires |draws| == DefaultIdLength
    modifies db
    ensures db.Valid()
    ensures match route
      case GetHomeJson => reply == HomeJson(|db.urls|) && db.urls == old(db.urls)
      case GetUrlsJson => reply.UrlsJson? && Mirrors(reply.urls, db.urls) && db.urls == old(db.urls)
      case PostAddUrl(longUrl) =>
        if !longUrl.Text? then
          reply == HandlerThrew && db.urls == old(db.urls)
        else if IsValidLink(longUrl.text) then
          && reply == AddUrlJson(200, true, LinkData(IdOf(draws), RelativePath(IdOf(draws))))
          && db.urls == Added(old(db.urls), IdOf(draws), Trim(longUrl.text))
        else
          reply == AddUrlJson(400, false, ErrorData(InvalidLinkMessage)) && db.urls == old(db.urls)
      case GetShortUrl(shortId) =>
        reply == VisitReply(VisitOutcome(old(db.urls), shortId)) && db.urls == Visited(old(db.urls), shortId)
      case Other => reply == ClientPage && db.urls == old(db.urls)
  {
    match route
    case GetHomeJson =>
      reply := HomeJsonHandler(db);
    case GetUrlsJson =>
      reply := UrlsJsonHandler(db);
    case PostAddUrl(longUrl) =>
      reply := AddUrlApi(db, longUrl, draws);
    case GetShortUrl(shortId) =>
      var response := VisitShortUrl(db, shortId);
      reply := VisitReply(response);
    case Other =>
      reply := ClientPage;
  }
}
