# URL shortener link store, modelled in Dafny

This project models the core of two small Express URL shorteners: the
server-rendered app (`simple-url-shortener/main.js`) and the single-page
app's API server (`simple-url-shortener-spa/main.js`). Both keep the same
in-memory link database, `urlDatabase`, an object from short id to
`{link, visitCount}`. Both use the same four helpers:

- `generateId` builds a 7-character id from a 62-character alphabet.
- `addUrl` writes a new entry under a fresh id.
- `getAllUrls` lists every entry.
- `updateVisitCount` counts a visit.

On top of the database the apps have request handlers:

- adding a link: trimmed, and accepted only when it starts with `http`;
- visiting `/url/<id>`: a redirect and a count, or a 404;
- the home and listing pages and their JSON counterparts;
- the start-up loop that seeds three links;
- in the server-rendered app, two user-agent middlewares (`curl` gets 403,
  ELinks users are flagged).

Modules:

- `ShortIds` (`short_ids.dfy`): the alphabet, `generateId` as a loop over
  random draws, and the bijection between draw sequences and ids.
- `JsText` (`js_text.dfy`): the JavaScript string operations the handlers
  use (`trim`, `indexOf`, `toLowerCase`, `startsWith`).
- `LinkStore` (`link_store.dfy`): the class `UrlDatabase` with its field
  `urls: map<string, Entry>`, its three methods, and the value-level
  functions `Added` and `Visited` that specify them.
- `Shortener` (`shortener.dfy`): the parts both apps share word for word.
  These are the `/url/:shortId` handler, link validation and the seeding
  loop. The module also holds the finding below.
- `ServerApp` (`server_app.dfy`): the middlewares, `/`, `/urls`,
  `/add-url`, and the request pipeline.
- `SpaApp` (`spa_app.dfy`): `/home.json`, `/api/urls.json`,
  `/api/add-url`, the catch-all route, and the pipeline.
- `Wrappers` (`wrappers.dfy`): `Option`.

`Math.random()` is replaced by a parameter: a sequence of draws, one per
character, each an integer in `[0, 62)`. This is what
`Math.floor(Math.random() * 62)` yields. A missing user-agent header is
`None`. The `longUrl` body field is `Missing`, `Text` or `Repeated`
(an array, when the field occurs more than once).

Two behaviours of the code are worth stating plainly:

- Ids are not checked for uniqueness and nothing is retried: `addUrl`
  overwrites whatever is stored under the generated id, so M adds can
  leave fewer than M entries. `LinkStore.AddOverwrites` states this, and
  `Shortener.SeedThreeSize` shows that seeding three links leaves fewer
  than three entries exactly when two ids collide.
- A visit reads the link, then calls `updateVisitCount`, in one handler
  run on a single thread. The model does the same in that order.

## Model

| member | source | states |
|---|---|---|
| ShortIds.GenerateId | simple-url-shortener/main.js:90-97 | The loop appends one alphabet character per draw. The result is exactly `IdOf(draws)`, has the requested length, and is all alphanumeric. The SPA has the same code at simple-url-shortener-spa/main.js:19-26. |
| ShortIds.IdOf | simple-url-shortener/main.js:91-95 | The id spelled by a sequence of draws has one character per draw. Character `i` is the alphabet character at `draws[i]`, and it is in `[A-Za-z0-9]`. |
| ShortIds.CharacterAt | simple-url-shortener/main.js:91 | The alphabet has 62 characters: `A`-`Z` at 0-25, `a`-`z` at 26-51 and `0`-`9` at 52-61, at consecutive code points. |
| ShortIds.CharacterIsIdChar | simple-url-shortener/main.js:94 | Every draw picks an alphanumeric character. |
| ShortIds.DrawOf | simple-url-shortener/main.js:91 | Every alphanumeric character sits at some position of the alphabet. |
| ShortIds.CharactersDistinct | simple-url-shortener/main.js:91 | The 62 alphabet characters are pairwise distinct. |
| ShortIds.DrawsOfIdOf | simple-url-shortener/main.js:90-97 | The draws can be read back from the id they produce. |
| ShortIds.IdOfDrawsOf | simple-url-shortener/main.js:90-97 | Every alphanumeric string is produced by some draws. With the lemma above, ids of length 7 are in bijection with the 62^7 draw sequences. |
| ShortIds.IdOfInjective | simple-url-shortener/main.js:90-97 | Different draws never produce the same id. |
| JsText.Trim | simple-url-shortener/main.js:166 | `trim()` returns `s` with white space removed from both ends only. The result neither starts nor ends with white space. White space here is ECMAScript WhiteSpace plus LineTerminator. |
| JsText.TrimUnique | simple-url-shortener/main.js:166 | Any cut of white space from both ends that leaves no white space at either end equals `Trim(s)`. This is the partner definition of `trim`. |
| JsText.CutsAgree | simple-url-shortener/main.js:166 | Two such cuts of the same string are the same string. |
| JsText.TrimIdempotent | simple-url-shortener/main.js:166 | Trimming twice is the same as trimming once. |
| JsText.TrimStart | simple-url-shortener/main.js:166 | Dropping leading white space leaves a suffix that does not start with white space. |
| JsText.TrimEnd | simple-url-shortener/main.js:166 | Dropping trailing white space leaves a prefix that does not end with white space. |
| JsText.IndexOf | simple-url-shortener/main.js:39 | `indexOf` returns -1 or an index where the word occurs, and no earlier index holds an occurrence. |
| JsText.IndexOfFrom | simple-url-shortener/main.js:39 | The search from `from` returns the first occurrence at or after `from`, or -1. |
| JsText.IndexOfFinds | simple-url-shortener/main.js:39 | `indexOf(t) >= 0` holds exactly when `t` occurs somewhere in `s`. |
| JsText.ToLower | simple-url-shortener/main.js:60 | The lower-cased string is at least as long as `s` and holds no `A`-`Z`. |
| JsText.ToLowerAscii | simple-url-shortener/main.js:60 | On ASCII input, `toLowerCase` maps each character to its lower-case form at the same index and keeps the length. |
| LinkStore.Added | simple-url-shortener/main.js:106 | Writing `{link, visitCount: 0}` under `shortId` adds that key, resets its entry, and leaves every other key as it was. |
| LinkStore.Visited | simple-url-shortener/main.js:131-138 | Counting a visit keeps every key and every link. Only the visited id's count goes up, by one. An unknown id changes nothing. |
| LinkStore.AddOverwrites | simple-url-shortener/main.js:104-109 | Adding under an id already stored does not add a key. The old link is replaced and its count reset to 0. No retry happens. |
| LinkStore.VisitedTimesCount | simple-url-shortener/main.js:131-138 | `n` visits to the same id raise its count by exactly `n` and change nothing else. |
| LinkStore.DistinctIdsCount | simple-url-shortener/main.js:115-126 | A listing with no repeated id has as many distinct ids as records. |
| LinkStore.MirrorLength | simple-url-shortener/main.js:149 | `getAllUrls().length` is the number of stored ids. |
| LinkStore.MirrorsInit | simple-url-shortener/main.js:115-126 | A listing without its last record mirrors the store without that record's id. |
| LinkStore.MirrorMultiplicity | simple-url-shortener/main.js:115-126 | A listing never contains the same record twice. |
| LinkStore.MirrorsAgree | simple-url-shortener/main.js:115-126 | Two listings of the same store hold the same records, perhaps in a different order. |
| LinkStore.UrlDatabase.constructor | simple-url-shortener/main.js:85 | The database starts empty. |
| LinkStore.UrlDatabase.AddUrl | simple-url-shortener/main.js:104-109 | `addUrl` returns `IdOf(draws)`, a 7-character alphanumeric id. The new store is `Added(old store, id, url)`. SPA: simple-url-shortener-spa/main.js:28-33. |
| LinkStore.UrlDatabase.GetAllUrls | simple-url-shortener/main.js:115-126 | The listing has one record per stored id, each with that id's link and count, and no id twice. SPA: simple-url-shortener-spa/main.js:35-46. |
| LinkStore.UrlDatabase.UpdateVisitCount | simple-url-shortener/main.js:131-138 | The new store is `Visited(old store, shortId)`. SPA: simple-url-shortener-spa/main.js:48-55. |
| JsText.StartsWith | simple-url-shortener/main.js:167 | `startsWith(prefix)` holds exactly when `s` is at least as long as `prefix` and agrees with it at every index of `prefix`. |
| Shortener.IsValidLink | simple-url-shortener/main.js:166-167 | `longUrl.trim().startsWith("http")` holds exactly when `longUrl` starts with `http` after its leading white space; trailing white space never matters. |
| Shortener.HttpSurvivesTrimEnd | simple-url-shortener/main.js:166-167 | Cutting trailing white space neither creates nor destroys an `http` prefix. |
| Shortener.StoredLinkRevalidates | simple-url-shortener/main.js:166-170 | An accepted link is stored trimmed. The stored link would be accepted again unchanged, and it is at least 4 characters long. |
| Shortener.AddKeepsLinksHttp | simple-url-shortener/main.js:166-170 | If every stored link starts with `http`, that stays true after adding an accepted link. |
| Shortener.VisitKeepsLinksHttp | simple-url-shortener/main.js:186-198 | Visits keep every stored link starting with `http`. |
| Shortener.VisitOutcome | simple-url-shortener/main.js:186-198 | A visit redirects exactly when the id is stored, and then to that id's link. Otherwise it answers 404 with the "Not Found!" body (own-key lookup, the corrected handler of ## Findings). |
| Shortener.VisitShortUrl | simple-url-shortener/main.js:186-198 | The handler answers `VisitOutcome` of the store as it was before the visit. The new store is `Visited(old store, shortId)`, so a miss changes nothing (own-key lookup, the corrected handler of ## Findings). SPA: simple-url-shortener-spa/main.js:90-102. |
| Shortener.AddThenVisit | simple-url-shortener/main.js:186-198 | A link just added under `k` is found by a visit to `k`. After `n` visits its entry is `(link, n)` and the keys are the old ones plus `k` (own-key lookup, the corrected handler of ## Findings). |
| Shortener.UnknownShapeNotFound | simple-url-shortener/main.js:186-198 | On a store whose keys are all generated ids (what `UrlDatabase.Valid` keeps), an id that `generateId` cannot produce gets a 404 and leaves the store unchanged (own-key lookup, the corrected handler of ## Findings). The code as written redirects for `constructor`, see `Shortener.InheritedNameRedirects`. |
| Shortener.LookupAsWritten | simple-url-shortener/main.js:188 | `urlDatabase[shortId]` finds an own entry exactly when the id is stored. Otherwise it finds an inherited member exactly when the name is an `Object.prototype` property. |
| Shortener.VisitAsWritten | simple-url-shortener/main.js:186-198 | The handler as written answers 404 exactly when the lookup yields `undefined`. |
| Shortener.InheritedNameRedirects | simple-url-shortener/main.js:188-189 | On every store whose keys are all generated ids (what `UrlDatabase.Valid` keeps), `/url/constructor` takes the redirect branch with an undefined link, although no such id is stored. The corrected lookup answers 404. |
| Shortener.ValueOfShadowed | simple-url-shortener/main.js:188-189 | `valueOf` is both an inherited name and an id `generateId` can produce (draws 47, 26, 37, 46, 30, 14, 31). The handler as written redirects with no link while it is not stored, and to its own link once it is. |
| Shortener.AsWrittenAgreesElsewhere | simple-url-shortener/main.js:186-198 | For names that are not inherited members, the handler as written and `VisitOutcome` agree on 404 versus redirect, and on the target. |
| Shortener.GeneratedIds | simple-url-shortener/main.js:206-208 | One id per `addUrl` call, in call order: the i-th is `IdOf(draws[i])`. |
| Shortener.Seeded | simple-url-shortener/main.js:205-208 | After adding the links in order, the keys are the old keys plus every generated id. |
| Shortener.SeededKeeps | simple-url-shortener/main.js:205-208 | An old entry whose id is not drawn again keeps its link and count. |
| Shortener.SeededLast | simple-url-shortener/main.js:205-208 | A link is stored under its id when no later call draws the same id. |
| Shortener.SeededCount | simple-url-shortener/main.js:205-208 | Every id drawn during seeding ends with count 0. |
| Shortener.LastIndex | simple-url-shortener/main.js:205-208 | Every drawn id has a last call that draws it. |
| Shortener.SeededStep | simple-url-shortener/main.js:206-208 | Each loop step applies `Added` to the store built so far. |
| Shortener.SeedThreeKeys | simple-url-shortener/main.js:205-208 | Seeding an empty store with three links leaves exactly the three ids as keys, all with count 0. |
| Shortener.SeedThreeSize | simple-url-shortener/main.js:205-208 | Seeding leaves at most three entries. There are exactly three when the three ids differ. |
| Shortener.SeedThreeEntries | simple-url-shortener/main.js:205-208 | The third seed link is always stored under its id. When the ids differ, every seed link is stored under its own id. |
| Shortener.SeedIdsAreShortIds | simple-url-shortener/main.js:205-208 | Every id drawn during seeding is a 7-character alphanumeric id. |
| Shortener.SeedStartup | simple-url-shortener/main.js:205-208 | After start-up every key is a generated id with count 0. `https://youtu.be/dQw4w9WgXcQ` is stored. Fewer than three entries remain exactly when two generated ids collide. |
| Shortener.SeededKeepsLinksHttp | simple-url-shortener/main.js:205-208 | Seeding links that start with `http` keeps every stored link starting with `http`. |
| Shortener.SeededLinksFrom | simple-url-shortener/main.js:205-208 | Every link left by seeding is one of the seeded links, or an old entry left untouched. |
| Shortener.SeedLinksAreHttp | simple-url-shortener/main.js:205-208 | Every link stored after start-up is one of the three seed links and starts with `http`. |
| Shortener.AddEach | simple-url-shortener/main.js:206-208 | The `forEach` loop leaves the store `Seeded(old store, links, ids)`. |
| Shortener.SeedDatabase | simple-url-shortener/main.js:205-208 | Start-up seeding leaves the store `Seeded(old store, seed links, ids)`. SPA: simple-url-shortener-spa/main.js:108-111. |
| ServerApp.AntiCurl | simple-url-shortener/main.js:36-48 | A request is refused with 403 "Begone, knave!" exactly when a user-agent is present and contains `curl`. Otherwise it passes on. |
| ServerApp.CurlCaseSensitive | simple-url-shortener/main.js:39 | The match is case-sensitive: `curl/8.0` is refused, while `Curl/8.0` and a missing header pass. |
| ServerApp.IsElinksUser | simple-url-shortener/main.js:57-66 | `isElinksUser` is set exactly when a user-agent is present and, lower-cased, contains `elinks`. |
| ServerApp.ElinksAnyCase | simple-url-shortener/main.js:60 | An ASCII user-agent with `elinks` in any mix of cases flags the user. |
| ServerApp.HomePage | simple-url-shortener/main.js:148-151 | The home page shows the number of stored ids and the `isElinksUser` flag. |
| ServerApp.ListUrls | simple-url-shortener/main.js:156-159 | The listing page shows one record per stored id, with no id twice. |
| ServerApp.AddUrlForm | simple-url-shortener/main.js:165-173 | A missing or repeated field (not a string) makes the handler throw, and nothing is stored. A link whose trim does not start with `http` gets 400 with the error body, and nothing is stored. Otherwise the trimmed link is added under `IdOf(draws)` and that id is shown. |
| ServerApp.Serve | simple-url-shortener/main.js:71 | A `curl` user-agent gets 403 before any route runs, and the store is unchanged. Otherwise each route does what its handler states, with `isElinksUser` from the detector: on `/add-url` a field that is not a string throws, a present invalid link gets 400, and a valid one is added; `/url/:shortId` uses the own-key lookup, the corrected handler of ## Findings. |
| SpaApp.RelativePath | simple-url-shortener-spa/main.js:84 | The returned path is `/url/` followed by the id. |
| SpaApp.ShortIdParam | simple-url-shortener-spa/main.js:90-91 | A path matched against `/url/:shortId` yields a non-empty parameter with no `/`. The path is `RelativePath` of that parameter. |
| SpaApp.RelativePathRoutes | simple-url-shortener-spa/main.js:84-91 | The path returned for any generated id routes back to that id. |
| SpaApp.HomeJsonHandler | simple-url-shortener-spa/main.js:58-62 | `numUrlsKnown` is the number of stored ids. |
| SpaApp.UrlsJsonHandler | simple-url-shortener-spa/main.js:64-67 | The JSON array has one record per stored id, with no id twice. |
| SpaApp.AddUrlApi | simple-url-shortener-spa/main.js:69-88 | A missing or repeated field (not a string) makes the handler throw, and nothing is stored. An invalid link gets 400 with `success: false` and "That is an invalid link :(", and nothing is stored. Otherwise the reply has `success: true`, `shortId = IdOf(draws)` and `relativePath = /url/<id>`, and the trimmed link is stored. |
| SpaApp.AddedLinkResolves | simple-url-shortener-spa/main.js:78-97 | Right after a successful add, the returned `relativePath` routes to the new id, and visiting it redirects to the trimmed link. |
| SpaApp.Serve | simple-url-shortener-spa/main.js:58-106 | Each API route and the redirect do what their handlers state: on `/api/add-url` a field that is not a string throws, a present invalid link gets 400, and a valid one is added; `/url/:shortId` uses the own-key lookup, the corrected handler of ## Findings. Every other request gets the client page and leaves the store unchanged. |

## Left out

- Express itself is not modelled: body parsing, view rendering (EJS
  templates), `res.json` serialisation, the redirect status code, and
  `app.listen`. Handlers return a value that names the page or JSON reply
  and its data.
- Static files from `public/` are served by `express.static` before any
  other middleware, so `curl` can still fetch them. Serving them is not
  modelled; `ServerApp.Serve` and `SpaApp.Serve` start at the routes.
- The access log (`simpleAccessLog`, `Date`, `console.log`) is output
  only and is not modelled.
- `Math.random()` is a floating-point random source. It is replaced by the
  draws parameter. Its distribution is not modelled.
- `Object.entries` order: `GetAllUrls` walks the keys in an unspecified
  order. Contracts speak of listings up to order, never of one particular
  order.
- Concurrency: Node runs each handler to completion on one thread, and the
  model has no interleavings.
- `visitCount` is a JavaScript number. The model counts with unbounded
  integers, so precision loss beyond 2^53 visits is not modelled.
- JsText.ToLower: only the characters whose lower-case form contains an
  ASCII letter are mapped (`A`-`Z`, the Kelvin sign, capital I with dot
  above). Every other character is kept. This does not change whether
  `elinks` occurs, but the lower-cased string differs from JavaScript's for
  other scripts.
- Strings are sequences of UTF-16 code units only as far as the
  operations above need; lone surrogates and Unicode normalisation play no
  part.
- A missing `longUrl`, or a repeated one (which `querystring.parse` turns
  into an array), has no `trim` method, so the handler throws a TypeError
  and Express answers with a 500 page. The model stops at `HandlerThrew`,
  with the store unchanged.
- SpaApp.ShortIdParam: Express decodes percent-escapes in `:shortId`,
  allows a trailing slash and matches routes case-insensitively (`/URL/abc`
  also reaches the handler). ShortIdParam does none of these, so it
  returns `None` for such paths; generated ids never contain `%` or `/`.
- Shortener.VisitAsWritten: for an inherited name, the code's
  `updateVisitCount` then writes a `visitCount` property onto the inherited
  object (e.g. `Object.prototype` for `__proto__`). That write is outside
  the store's own keys and is not modelled.
- The client files (the SPA's `client.js` and the React app) are not
  part of this model.
- LinkStore.UrlDatabase.AddUrl: `generateId` takes a length parameter,
  but `addUrl` always uses the default 7, so the method takes exactly 7
  draws. ShortIds.GenerateId models the general length.
- ServerApp.Serve and SpaApp.Serve take draws on every request, and only
  the add route uses them.

## Findings

| source | as written | input that shows it | evidently intended | confidence | as-written member | corrected member |
|---|---|---|---|---|---|---|
| simple-url-shortener/main.js:188-189 (same at simple-url-shortener-spa/main.js:92-93) | `urlDatabase` is created by `{}`, so `urlDatabase[shortId]` also finds properties inherited from `Object.prototype`. Those values are truthy, so the redirect branch runs with `urlInfo.link` undefined. `valueOf` is one of these names and also a possible generated id. | `GET /url/constructor` (also `toString`, `__proto__`, …) on any store | An id that was never stored answers 404 and changes nothing. | high (not executed) | Shortener.InheritedNameRedirects (with Shortener.VisitAsWritten) | Shortener.VisitShortUrl (with Shortener.VisitOutcome) |
