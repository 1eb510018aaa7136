/**
 * The request logic both apps share word for word: the `/url/:shortId`
 * visit handler and the start-up seeding loop.
 */
module Shortener {
  import opened Wrappers
  import opened ShortIds
  import opened LinkStore
  import opened JsText

  // ---------------------------------------------------------------------
  // Link validation, shared by `/add-url` and `/api/add-url`

  /**
   * A field of the url-encoded request body as the body parser delivers it:
   * absent, one string, or an array of strings when the field is repeated
   * (`longUrl=a&longUrl=b`). Only a string has a `trim` method.
   */
  datatype FormField = Missing | Text(text: string) | Repeated(values: seq<string>)

  /**
   * `longUrl.trim().startsWith("http")`: the only check a link must pass.
   * Trailing white space never matters, since `http` ends in a letter: the
   * link is valid exactly when it starts with `http` after leading white space.
   */
  function IsValidLink(longUrl: string): (valid: bool)
    ensures valid <==> StartsWith(TrimStart(longUrl), "http")
  {
    HttpSurvivesTrimEnd(TrimStart(longUrl));
    StartsWith(Trim(longUrl), "http")
  }

  /** Cutting trailing white space neither creates nor destroys an `http` prefix. */
  lemma HttpSurvivesTrimEnd(t: string)
    ensures StartsWith(TrimEnd(t), "http") <==> StartsWith(t, "http")
  {
    var r := TrimEnd(t);
    assert forall j :: |r| <= j < |t| ==> t[|r|..][j - |r|] == t[j];
    if StartsWith(t, "http") {
      assert !IsJsSpace(t[3]);
      assert r[..4] == t[..4];
    }
    if StartsWith(r, "http") {
      assert t[..4] == r[..4];
    }
  }

  /**
   * The link stored for an accepted input is already trimmed and would be
   * accepted again as it stands; it is at least the four characters `http`.
   */
  lemma StoredLinkRevalidates(longUrl: string)
    requires IsValidLink(longUrl)
    ensures Trim(Trim(longUrl)) == Trim(longUrl)
    ensures IsValidLink(Trim(longUrl))
    ensures |Trim(longUrl)| >= 4
  {
    TrimIdempotent(longUrl);
  }

  /** Every stored link starts with `http`. */
  ghost predicate LinksAreHttp(db: map<string, Entry>) {
    forall k :: k in db ==> StartsWith(db[k].link, "http")
  }

  /** Adding an accepted, trimmed link keeps every stored link starting with `http`. */
  lemma AddKeepsLinksHttp(db: map<string, Entry>, shortId: string, longUrl: string)
    requires LinksAreHttp(db) && IsValidLink(longUrl)
    ensures LinksAreHttp(Added(db, shortId, Trim(longUrl)))
  {
  }

  /** Visits never change a link. */
  lemma VisitKeepsLinksHttp(db: map<string, Entry>, shortId: string)
    requires LinksAreHttp(db)
    ensures LinksAreHttp(Visited(db, shortId))
  {
  }

  /** What `/url/:shortId` answers: `res.redirect(url)` or a 404 page. */
  datatype VisitResponse =
    | Redirect(location: string)
    | NotFound(status: int, body: string)

  const NotFoundBody: string := "Not Found! <a href=\"/\">Home</a>"

  /**
   * The answer to a visit of `shortId` on store `db`: a redirect to the link
   * stored under that id, read before the count is raised, or a 404.
   */
  function VisitOutcome(db: map<string, Entry>, shortId: string): (r: VisitResponse)
    ensures r.Redirect? <==> shortId in db
    ensures r.Redirect? ==> r.location == db[shortId].link
    ensures r.NotFound? ==> r.status == 404 && r.body == NotFoundBody
  {
    if shortId in db then Redirect(db[shortId].link) else NotFound(404, NotFoundBody)
  }

  /**
   * The `/url/:shortId` handler: on a hit, reads the link, calls
   * `updateVisitCount` and redirects; on a miss answers 404 and changes
   * nothing. The lookup is by own key (see the finding on inherited names).
   */
  method VisitShortUrl(db: UrlDatabase, shortId: string) returns (resp: VisitResponse)
    requires db.Valid()
    modifies db
    ensures db.Valid()
    ensures resp == VisitOutcome(old(db.urls), shortId)
    ensures db.urls == Visited(old(db.urls), shortId)
  {
    if shortId in db.urls {
      var url := db.urls[shortId].link;
      db.UpdateVisitCount(shortId);
      resp := Redirect(url);
    } else {
      resp := NotFound(404, NotFoundBody);
    }
  }

  /**
   * A link added under id `k` is found by the next visit of `k`, and after
   * `n` visits its count is exactly `n`, its link unchanged.
   */
  lemma {:induction false} AddThenVisit(db: map<string, Entry>, k: string, link: string, n: nat)
    ensures VisitOutcome(Added(db, k, link), k) == Redirect(link)
    ensures VisitedTimes(Added(db, k, link), k, n).Keys == db.Keys + {k}
    ensures VisitedTimes(Added(db, k, link), k, n)[k] == Entry(link, n)
  {
    VisitedTimesCount(Added(db, k, link), k, n);
  }

  /**
   * Under the own-key lookup of the corrected handler (see the finding on
   * inherited names), an id `generateId` cannot produce is never found on a
   * store built by `addUrl`.
   */
  lemma UnknownShapeNotFound(db: map<string, Entry>, shortId: string)
    requires KeysAreShortIds(db)
    requires !IsShortId(shortId)
    ensures VisitOutcome(db, shortId) == NotFound(404, NotFoundBody)
    ensures Visited(db, shortId) == db
  {
  }

  // ---------------------------------------------------------------------
  // The lookup as written: `urlDatabase[shortId]` on an object made by `{}`

  /**
   * The properties every object made by `{}` inherits from
   * `Object.prototype`; reading one of them gives a truthy value.
   */
  const InheritedNames: set<string> := {
    "constructor", "__proto__", "hasOwnProperty", "isPrototypeOf",
    "propertyIsEnumerable", "toLocaleString", "toString", "valueOf",
    "__defineGetter__", "__defineSetter__", "__lookupGetter__", "__lookupSetter__"}

  /** What `urlDatabase[shortId]` evaluates to. */
  datatype Lookup = Own(entry: Entry) | InheritedMember | Undefined

  function LookupAsWritten(db: map<string, Entry>, shortId: string): (r: Lookup)
    ensures r.Own? <==> shortId in db
    ensures r.InheritedMember? <==> shortId !in db && shortId in InheritedNames
  {
    if shortId in db then Own(db[shortId])
    else if shortId in InheritedNames then InheritedMember
    else Undefined
  }

  /**
   * The visit handler as written answers from the truthiness of the lookup:
   * an inherited member is truthy, so it takes the redirect branch with
   * `urlInfo.link` undefined (`None` here) instead of answering 404.
   */
  datatype AsWrittenVisit = RedirectTo(link: Option<string>) | NotFound404

  function VisitAsWritten(db: map<string, Entry>, shortId: string): (r: AsWrittenVisit)
    ensures r.NotFound404? <==> LookupAsWritten(db, shortId).Undefined?
  {
    match LookupAsWritten(db, shortId)
    case Own(e) => RedirectTo(Some(e.link))
    case InheritedMember => RedirectTo(None)
    case Undefined => NotFound404
  }

  /**
   * On every store `addUrl` can build, `/url/constructor` is not stored, yet
   * the handler as written redirects (to an undefined link) instead of
   * answering 404, while the own-key lookup of VisitOutcome answers 404.
   */
  lemma InheritedNameRedirects(db: map<string, Entry>)
    requires KeysAreShortIds(db)
    ensures "constructor" !in db
    ensures VisitAsWritten(db, "constructor") == RedirectTo(None)
    ensures VisitOutcome(db, "constructor") == NotFound(404, NotFoundBody)
  {
    assert !IsShortId("constructor");
  }

  /**
   * `valueOf` is both an inherited name and a 7-character alphanumeric id
   * `generateId` can produce: until it is drawn, the handler as written
   * redirects for it; once stored, the own entry shadows the inherited one.
   */
  lemma ValueOfShadowed(db: map<string, Entry>)
    ensures "valueOf" in InheritedNames
    ensures IdOf([47, 26, 37, 46, 30, 14, 31]) == "valueOf" && IsShortId("valueOf")
    ensures "valueOf" !in db ==> VisitAsWritten(db, "valueOf") == RedirectTo(None)
    ensures "valueOf" in db ==> VisitAsWritten(db, "valueOf") == RedirectTo(Some(db["valueOf"].link))
  {
    var id := IdOf([47, 26, 37, 46, 30, 14, 31]);
    CharacterAt(47); CharacterAt(26); CharacterAt(37); CharacterAt(46);
    CharacterAt(30); CharacterAt(14); CharacterAt(31);
    assert id[0] == 'v' && id[1] == 'a' && id[2] == 'l' && id[3] == 'u';
    assert id[4] == 'e' && id[5] == 'O' && id[6] == 'f';
  }

  /** Away from the inherited names, the as-written lookup agrees with VisitOutcome. */
  lemma AsWrittenAgreesElsewhere(db: map<string, Entry>, shortId: string)
    requires shortId !in InheritedNames || shortId in db
    ensures VisitAsWritten(db, shortId).NotFound404? <==> VisitOutcome(db, shortId).NotFound?
    ensures VisitAsWritten(db, shortId).RedirectTo? ==>
      VisitAsWritten(db, shortId).link == Some(VisitOutcome(db, shortId).location)
  {
  }

  // ---------------------------------------------------------------------
  // Seeding

  /** The three links added at start-up. */
  const SeedUrls: seq<string> := ["https://google.com", "https://reddit.com", "https://youtu.be/dQw4w9WgXcQ"]

  /** Each `addUrl` call draws one default-length id. */
  predicate IdDraws(draws: seq<seq<Draw>>) {
    forall i :: 0 <= i < |draws| ==> |draws[i]| == DefaultIdLength
  }

  /** The ids those calls generate, in call order. */
  function GeneratedIds(draws: seq<seq<Draw>>): (ids: seq<string>)
    ensures |ids| == |draws|
    ensures forall i :: 0 <= i < |draws| ==> ids[i] == IdOf(draws[i])
  {
    seq(|draws|, i requires 0 <= i < |draws| => IdOf(draws[i]))
  }

  /** The store after `links.forEach(url => addUrl(url))`, the i-th call generating `ids[i]`. */
  function Seeded(db: map<string, Entry>, links: seq<string>, ids: seq<string>): (r: map<string, Entry>)
    requires |ids| == |links|
    ensures forall k :: k in r <==> k in db || k in ids
    decreases |links|
  {
    if links == [] then db
    else
      var n := |links| - 1;
      assert ids == ids[..n] + [ids[n]];
      Added(Seeded(db, links[..n], ids[..n]), ids[n], links[n])
  }

  /** An old key that no call draws again keeps its entry. */
  lemma {:induction false} SeededKeeps(db: map<string, Entry>, links: seq<string>, ids: seq<string>, k: string)
    requires |ids| == |links|
    requires k in db && k !in ids
    ensures Seeded(db, links, ids)[k] == db[k]
  {
    if links != [] {
      var n := |links| - 1;
      assert ids == ids[..n] + [ids[n]];
      SeededKeeps(db, links[..n], ids[..n], k);
    }
  }

  /** Each drawn id holds, with count 0, the link of the LAST call that drew it. */
  lemma {:induction false} SeededLast(db: map<string, Entry>, links: seq<string>, ids: seq<string>, i: nat)
    requires |ids| == |links|
    requires i < |links| && ids[i] !in ids[i + 1..]
    ensures Seeded(db, links, ids)[ids[i]] == Entry(links[i], 0)
  {
    var n := |links| - 1;
    if i < n {
      assert ids[n] == ids[i + 1..][n - i - 1];
      assert ids[..n][i + 1..] == ids[i + 1..n];
      SeededLast(db, links[..n], ids[..n], i);
    }
  }

  /** Every drawn id ends with count 0. */
  lemma SeededCount(db: map<string, Entry>, links: seq<string>, ids: seq<string>, k: string)
    requires |ids| == |links|
    requires k in ids
    ensures Seeded(db, links, ids)[k].visitCount == 0
  {
    var i := LastIndex(ids, k);
    SeededLast(db, links, ids, i);
  }

  /** The position of the last occurrence of `k` in `ids`. */
  lemma {:induction false} LastIndex(ids: seq<string>, k: string) returns (i: nat)
    requires k in ids
    ensures i < |ids| && ids[i] == k && k !in ids[i + 1..]
  {
    var n := |ids| - 1;
    if ids[n] == k {
      i := n;
      assert ids[i + 1..] == [];
    } else {
      assert k in ids[..n] by { var j :| 0 <= j < |ids| && ids[j] == k; assert ids[..n][j] == k; }
      i := LastIndex(ids[..n], k);
      assert ids[i + 1..] == ids[..n][i + 1..] + [ids[n]];
    }
  }

  /** Seeding the empty store with three links: the keys are the three ids, all counts 0. */
  lemma SeedThreeKeys(links: seq<string>, ids: seq<string>)
    requires |links| == |ids| == 3
    ensures Seeded(map[], links, ids).Keys == {ids[0], ids[1], ids[2]}
    ensures forall k :: k in Seeded(map[], links, ids) ==> Seeded(map[], links, ids)[k].visitCount == 0
  {
    var db := Seeded(map[], links, ids);
    assert forall k :: k in ids <==> k in {ids[0], ids[1], ids[2]};
    forall k | k in db ensures db[k].visitCount == 0 {
      SeededCount(map[], links, ids, k);
    }
  }

  /**
   * Seeding the empty store with three links leaves at most three keys, and
   * exactly three when the three ids differ.
   */
  lemma SeedThreeSize(links: seq<string>, ids: seq<string>)
    requires |links| == |ids| == 3
    ensures |Seeded(map[], links, ids)| <= 3
    ensures |Seeded(map[], links, ids)| == 3 <==> (ids[0] != ids[1] && ids[0] != ids[2] && ids[1] != ids[2])
  {
    var db := Seeded(map[], links, ids);
    SeedThreeKeys(links, ids);
    assert |db| == |db.Keys|;
    ThreeDistinct(ids[0], ids[1], ids[2]);
  }

  /**
   * Seeding the empty store with three links: the third link is always
   * stored, and when the three ids differ each link is stored under its own id.
   */
  lemma SeedThreeEntries(links: seq<string>, ids: seq<string>)
    requires |links| == |ids| == 3
    ensures ids[2] in Seeded(map[], links, ids) && Seeded(map[], links, ids)[ids[2]] == Entry(links[2], 0)
    ensures (ids[0] != ids[1] && ids[0] != ids[2] && ids[1] != ids[2]) ==>
      && Seeded(map[], links, ids)[ids[0]] == Entry(links[0], 0)
      && Seeded(map[], links, ids)[ids[1]] == Entry(links[1], 0)
  {
    assert ids[3..] == [];
    SeededLast(map[], links, ids, 2);
    if ids[0] != ids[1] && ids[0] != ids[2] && ids[1] != ids[2] {
      assert ids[1..] == [ids[1], ids[2]] && ids[2..] == [ids[2]];
      SeededLast(map[], links, ids, 0);
      SeededLast(map[], links, ids, 1);
    }
  }

  /** Every id built from default-length draws is a short id. */
  lemma SeedIdsAreShortIds(draws: seq<seq<Draw>>)
    requires IdDraws(draws)
    ensures forall k :: k in GeneratedIds(draws) ==> IsShortId(k)
  {
    forall k | k in GeneratedIds(draws) ensures IsShortId(k) {
      var i :| 0 <= i < |draws| && GeneratedIds(draws)[i] == k;
      assert k == IdOf(draws[i]);
    }
  }

  /**
   * Start-up seeding of the empty store: every key is a generated id with
   * count 0, `https://youtu.be/dQw4w9WgXcQ` is always stored, and fewer than
   * three keys remain only when two generated ids collide.
   */
  lemma SeedStartup(draws: seq<seq<Draw>>)
    requires |draws| == |SeedUrls| && IdDraws(draws)
    ensures forall k :: k in Seeded(map[], SeedUrls, GeneratedIds(draws)) ==>
      IsShortId(k) && Seeded(map[], SeedUrls, GeneratedIds(draws))[k].visitCount == 0
    ensures Seeded(map[], SeedUrls, GeneratedIds(draws))[IdOf(draws[2])] == Entry(SeedUrls[2], 0)
    ensures |Seeded(map[], SeedUrls, GeneratedIds(draws))| < 3 <==>
      (IdOf(draws[0]) == IdOf(draws[1]) || IdOf(draws[0]) == IdOf(draws[2]) || IdOf(draws[1]) == IdOf(draws[2]))
  {
    var ids := GeneratedIds(draws);
    SeedIdsAreShortIds(draws);
    SeedThreeKeys(SeedUrls, ids);
    SeedThreeEntries(SeedUrls, ids);
    SeedThreeSize(SeedUrls, ids);
  }

  /** Seeding links that all start with `http` keeps every stored link starting with `http`. */
  lemma {:induction false} SeededKeepsLinksHttp(db: map<string, Entry>, links: seq<string>, ids: seq<string>)
    requires |ids| == |links|
    requires LinksAreHttp(db)
    requires forall i :: 0 <= i < |links| ==> StartsWith(links[i], "http")
    ensures LinksAreHttp(Seeded(db, links, ids))
    decreases |links|
  {
    if links != [] {
      var n := |links| - 1;
      SeededKeepsLinksHttp(db, links[..n], ids[..n]);
    }
  }

  /** Every link left by seeding is one of the seeded links or an untouched old entry. */
  lemma {:induction false} SeededLinksFrom(db: map<string, Entry>, links: seq<string>, ids: seq<string>)
    requires |ids| == |links|
    ensures forall k :: k in Seeded(db, links, ids) ==>
      Seeded(db, links, ids)[k].link in links || (k in db && Seeded(db, links, ids)[k] == db[k])
    decreases |links|
  {
    if links != [] {
      var n := |links| - 1;
      SeededLinksFrom(db, links[..n], ids[..n]);
      assert ids == ids[..n] + [ids[n]];
      assert forall k :: k in links[..n] ==> k in links;
    }
  }

  /** After start-up every stored link is one of the seeds and starts with `http`. */
  lemma SeedLinksAreHttp(draws: seq<seq<Draw>>)
    requires |draws| == |SeedUrls|
    ensures forall k :: k in Seeded(map[], SeedUrls, GeneratedIds(draws)) ==>
      Seeded(map[], SeedUrls, GeneratedIds(draws))[k].link in SeedUrls
    ensures LinksAreHttp(Seeded(map[], SeedUrls, GeneratedIds(draws)))
  {
    SeededLinksFrom(map[], SeedUrls, GeneratedIds(draws));
    SeededKeepsLinksHttp(map[], SeedUrls, GeneratedIds(draws));
  }

  /** A set of three named elements has three members exactly when they differ. */
  lemma ThreeDistinct<T>(a: T, b: T, c: T)
    ensures |{a, b, c}| <= 3 && (|{a, b, c}| == 3 <==> (a != b && a != c && b != c))
  {
    if a == b {
      assert {a, b, c} == {a, c};
    } else if a == c {
      assert {a, b, c} == {a, b};
    } else if b == c {
      assert {a, b, c} == {a, b};
    }
  }

  /** The start-up loop `seedUrls.forEach(url => addUrl(url))`. */
  method SeedDatabase(db: UrlDatabase, draws: seq<seq<Draw>>)
    requires db.Valid()
    requires |draws| == |SeedUrls| && IdDraws(draws)
    modifies db
    ensures db.Valid()
    ensures db.urls == Seeded(old(db.urls), SeedUrls, GeneratedIds(draws))
  {
    AddEach(db, SeedUrls, draws);
  }

  /** One more call of the loop adds one more link. */
  lemma SeededStep(db: map<string, Entry>, links: seq<string>, ids: seq<string>, i: nat)
    requires |ids| == |links| && i < |links|
    ensures Seeded(db, links[..i + 1], ids[..i + 1]) == Added(Seeded(db, links[..i], ids[..i]), ids[i], links[i])
  {
    assert links[..i + 1][..i] == links[..i] && ids[..i + 1][..i] == ids[..i];
  }

  /** `links.forEach(url => addUrl(url))`. */
  method AddEach(db: UrlDatabase, links: seq<string>, draws: seq<seq<Draw>>)
    requires db.Valid()
    requires |draws| == |links| && IdDraws(draws)
    modifies db
    ensures db.Valid()
    ensures db.urls == Seeded(old(db.urls), links, GeneratedIds(draws))
  {
    ghost var ids := GeneratedIds(draws);
    for i := 0 to |links|
      invariant db.Valid()
      invariant db.urls == Seeded(old(db.urls), links[..i], ids[..i])
    {
      var _ := db.AddUrl(links[i], draws[i]);
      SeededStep(old(db.urls), links, ids, i);
    }
    assert links[..|links|] == links;
    assert ids[..|ids|] == ids;
  }
}
