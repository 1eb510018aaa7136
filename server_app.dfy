/**
 * The server-rendered app: the two user-agent middlewares, the home and
 * listing pages, the `/add-url` form handler, and the request pipeline that
 * runs the middlewares before the route handlers.
 */
module ServerApp {
  import opened Wrappers
  import opened JsText
  import opened ShortIds
  import opened LinkStore
  import opened Shortener

  // ---------------------------------------------------------------------
  // Middleware

  /** What `antiCurlMiddleware` does: answer 403 itself, or call `next()`. */
  datatype Gate = Blocked(status: int, body: string) | Next

  const CurlBody: string := "Begone, knave!\n"

  /** `antiCurlMiddleware`: a present user-agent containing `curl` is refused. */
  function AntiCurl(userAgent: Option<string>): (r: Gate)
    ensures r.Blocked? <==> userAgent.Some? && ContainsWord(userAgent.value, "curl")
    ensures r.Blocked? ==> r == Blocked(403, CurlBody)
  {
    if userAgent.Some? && userAgent.value != "" then
      IndexOfFinds(userAgent.value, "curl");
      if IndexOf(userAgent.value, "curl") >= 0 then Blocked(403, CurlBody) else Next
    else
      Next
  }

  /**
   * `elinksBrowserDetectorMiddleware`: `req.isElinksUser` is set when a
   * present user-agent, lower-cased, contains `elinks`.
   */
  const ElinksWord: string := "elinks"

  function IsElinksUser(userAgent: Option<string>): (r: bool)
    ensures r <==> userAgent.Some? && ContainsWord(ToLower(userAgent.value), ElinksWord)
  {
    if userAgent.Some? && userAgent.value != "" then
      IndexOfFinds(ToLower(userAgent.value), ElinksWord);
      IndexOf(ToLower(userAgent.value), ElinksWord) >= 0
    else
      assert userAgent.Some? ==> ToLower(userAgent.value) == [];
      false
  }

  /** `curl` is matched case-sensitively: `Curl/8.0` passes, `curl/8.0` does not. */
  lemma CurlCaseSensitive()
    ensures AntiCurl(Some("Curl/8.0")) == Next
    ensures AntiCurl(Some("curl/8.0")) == Blocked(403, CurlBody)
    ensures AntiCurl(None) == Next
  {
    assert OccursAt("curl/8.0", "curl", 0);
    forall i ensures !OccursAt("Curl/8.0", "curl", i) {
      if 0 <= i && i + 4 <= 8 { assert "Curl/8.0"[i + 1] != 'u' || "Curl/8.0"[i] != 'c'; }
    }
  }

  /** `elinks` is matched in any letter case of an ASCII user-agent. */
  lemma ElinksAnyCase(userAgent: string, i: nat)
    requires forall j :: 0 <= j < |userAgent| ==> userAgent[j] < '\U{0080}'
    requires i + 6 <= |userAgent|
    requires forall j :: 0 <= j < 6 ==>
      userAgent[i + j] == "elinks"[j] || userAgent[i + j] as int == "elinks"[j] as int - 32
    ensures IsElinksUser(Some(userAgent))
  {
    ToLowerAscii(userAgent);
    var lower := ToLower(userAgent);
    assert lower[i..i + 6] == "elinks";
    assert OccursAt(lower, "elinks", i);
  }

  // ---------------------------------------------------------------------
  // Route handlers

  /** What a request gets back. */
  datatype Page =
    | Forbidden(status: int, body: string)
    | IndexPage(numUrlsKnown: nat, isElinksUser: bool)
    | ListUrlsPage(urls: seq<UrlRecord>, isElinksUser: bool)
    | AddedUrlPage(shortId: string)
    | InvalidLinkPage(status: int, body: string)
    | VisitPage(response: VisitResponse)
    | HandlerThrew

  const InvalidLinkBody: string :=
    "<strong style=\"color: red\">That is an invalid link! :(</strong> <a href=\"/\">Back<a>"

  /** `GET /`: the home page shows `getAllUrls().length`. */
  method HomePage(db: UrlDatabase, isElinksUser: bool) returns (page: Page)
    ensures page == IndexPage(|db.urls|, isElinksUser)
  {
    var all := db.GetAllUrls();
    MirrorLength(all, db.urls);
    page := IndexPage(|all|, isElinksUser);
  }

  /** `GET /urls`: the listing page shows every stored link. */
  method ListUrls(db: UrlDatabase, isElinksUser: bool) returns (page: Page)
    ensures page.ListUrlsPage? && page.isElinksUser == isElinksUser
    ensures Mirrors(page.urls, db.urls)
  {
    var all := db.GetAllUrls();
    page := ListUrlsPage(all, isElinksUser);
  }

  /**
   * `POST /add-url`: trims `longUrl`; if it does not start with `http`
   * answers 400 and stores nothing, otherwise stores the trimmed link under
   * a fresh draw and shows its id. A missing or repeated field is not a
   * string, so calling `.trim()` on it throws.
   */
  method AddUrlForm(db: UrlDatabase, longUrl: FormField, draws: seq<Draw>) returns (page: Page)
    requires db.Valid()
    requires |draws| == DefaultIdLength
    modifies db
    ensures db.Valid()
    ensures !longUrl.Text? ==> page == HandlerThrew && db.urls == old(db.urls)
    ensures longUrl.Text? && !IsValidLink(longUrl.text) ==>
      page == InvalidLinkPage(400, InvalidLinkBody) && db.urls == old(db.urls)
    ensures longUrl.Text? && IsValidLink(longUrl.text) ==>
      page == AddedUrlPage(IdOf(draws)) && db.urls == Added(old(db.urls), IdOf(draws), Trim(longUrl.text))
  {
    if !longUrl.Text? {
      page := HandlerThrew;
      return;
    }
    var url := Trim(longUrl.text);
    if !StartsWith(url, "http") {
      page := InvalidLinkPage(400, InvalidLinkBody);
    } else {
      var shortId := db.AddUrl(url, draws);
      page := AddedUrlPage(shortId);
    }
  }

  // ---------------------------------------------------------------------
  // The request pipeline: access log, antiCurl, elinks detector, then the route

  datatype Route =
    | GetHome
    | GetUrls
    | PostAddUrl(longUrl: FormField)
    | GetShortUrl(shortId: string)

  /**
   * One request: `antiCurlMiddleware` either answers 403, and no later
   * middleware or handler runs, or passes on to the elinks detector and the
   * route's handler.
   */
  method Serve(db: UrlDatabase, userAgent: Option<string>, route: Route, draws: seq<Draw>) returns (page: Page)
    requires db.Valid()
    requires |draws| == DefaultIdLength
    modifies db
    ensures db.Valid()
    ensures AntiCurl(userAgent).Blocked? ==> page == Forbidden(403, CurlBody) && db.urls == old(db.urls)
    ensures AntiCurl(userAgent).Next? ==> match route
      case GetHome => page == IndexPage(|db.urls|, IsElinksUser(userAgent)) && db.urls == old(db.urls)
      case GetUrls =>
        && page.ListUrlsPage? && page.isElinksUser == IsElinksUser(userAgent)
        && Mirrors(page.urls, db.urls) && db.urls == old(db.urls)
      case PostAddUrl(longUrl) =>
        if !longUrl.Text? then
          page == HandlerThrew && db.urls == old(db.urls)
        else if IsValidLink(longUrl.text) then
          page == AddedUrlPage(IdOf(draws)) && db.urls == Added(old(db.urls), IdOf(draws), Trim(longUrl.text))
        else
          page == InvalidLinkPage(400, InvalidLinkBody) && db.urls == old(db.urls)
      case GetShortUrl(shortId) =>
        page == VisitPage(VisitOutcome(old(db.urls), shortId)) && db.urls == Visited(old(db.urls), shortId)
  {
    var gate := AntiCurl(userAgent);
    if gate.Blocked? {
      page := Forbidden(gate.status, gate.body);
      return;
    }
    var isElinksUser := IsElinksUser(userAgent);
    match route
    case GetHome =>
      page := HomePage(db, isElinksUser);
    case GetUrls =>
      page := ListUrls(db, isElinksUser);
    case PostAddUrl(longUrl) =>
      page := AddUrlForm(db, longUrl, draws);
    case GetShortUrl(shortId) =>
      var response := VisitShortUrl(db, shortId);
      page := VisitPage(response);
  }
}
