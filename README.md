# Re-Local backend: scraper, users, search and image proxy

This project models four parts of the Re-Local backend in Dafny:

- **`crawl.js`, the theatre-play scraper.** It collects detail URLs from the timeticket.co.kr list page and visits each one. On each detail page it reads the venue, the address, the coordinates and the poster. It then upserts one document per detail URL into the `theaterplays` collection.
- **`routes/users.js`, the users router.** It covers the paged and filtered list, the create-or-upsert, the read, the allow-listed update and the soft delete.
- **`routes/search.js`, the play search.** It escapes the query into a literal pattern and returns the first `limit` plays whose title, category, area name or address contains it, ignoring case.
- **`routes/imageProxy.js`, the image proxy.** It forges browser headers for the upstream host and passes the upstream image back with caching headers.

Dafny modules, one concept each:

| module | file | what it holds |
|---|---|---|
| `JsString` | jsstring.dfy | null/undefined as `Option`; JavaScript's `\s` class and `String.prototype.trim`; ASCII case folding for the `i` flag |
| `MongoDoc` | mongodoc.dfy | the `$set` update on a document |
| `CrawlTrim` | crawltrim.dfy | the scraper's `trim` helper |
| `CoordScan` | coordscan.dfy | the two coordinate regular expressions as scanners, with round-trip lemmas |
| `DetailExtract` | detailextract.dfy | one detail visit: the lookups, their precedence, and which browser call faults lose the result |
| `PlayStore` | playstore.dfy | the three loops of the scraper and the `theaterplays` collection as a class |
| `UserRecords` | userrecords.dfy | the pure rules of the users router |
| `UserStore` | userstore.dfy | the users collection as a class, with the handlers that read and change it |
| `Search` | search.dfy | escaping, the filter, the limit and the handler |
| `ImageProxy` | imageproxy.dfy | the host test, the forged headers and the proxy handler |

How the environment appears in the model:

- Browser lookups, the list page's links, HTTP query parameters and upstream responses are inputs.
- A detail page is a `DetailPage` record. A lookup that finds nothing, or whose promise is caught, is `None` or `""`. `fault` names the one uncaught browser call that throws on this visit.
- `new URL(ref, BASE).href` in the scraper is the parameter `resolve`. `new URL(url)` in the proxy is the parameter `parse`.
- Mongo ObjectIds are natural numbers. An id that `isValidObjectId` rejects is `None`.
- The users collection's `createdAt` order is its insertion order `order`.
- The users list's `$regex` test is the parameter `rx`.

## Model

| member | source | states |
|---|---|---|
| JsString.Strip | routes/search.js:10 | `trim`: the result is a contiguous slice of the input with no white space at either end, and everything cut off on either side is white space |
| JsString.StripIdempotent | routes/users.js:64 | trimming an already trimmed query changes nothing |
| JsString.NonSpacesStrip | crawl.js:106 | trimming never drops a non-white-space character |
| JsString.NatToString | routes/imageProxy.js:28 | a status printed in a template literal is a non-empty run of decimal digits whose decimal value is the status, with no leading zero |
| CrawlTrim.CollapseSpaces | crawl.js:106 | `.replace(/\s+/g, ' ')`: the result is empty iff the input is; no white space other than single spaces; never two adjacent; the non-space characters are kept in order; a leading run becomes one space |
| CrawlTrim.Trim | crawl.js:106 | null and undefined give ""; the result is collapsed with no white space at either end, and keeps every non-space character of the input in order |
| CrawlTrim.CollapseFixpoint | crawl.js:106 | collapsing leaves an already collapsed string unchanged |
| CrawlTrim.TrimFixpoint | crawl.js:106 | a string that is already tidy comes back from `trim` unchanged |
| CrawlTrim.TrimIdempotent | crawl.js:106 | `trim(trim(s)) == trim(s)` |
| CrawlTrim.TrimEmptyIff | crawl.js:106 | `trim` gives "" exactly when the input holds nothing but white space |
| CrawlTrim.CollapseAppend | crawl.js:106 | collapsing works run by run: cut after a character that is not white space, the two parts collapse apart |
| CrawlTrim.CollapseRun | crawl.js:106 | a white-space run followed by the end or by a character that is not white space becomes one space |
| CrawlTrim.CollapseBetween | crawl.js:106 | between two pieces of text any non-empty white-space run becomes exactly one space, and the pieces collapse on their own |
| CrawlTrim.TrimTwoWords | crawl.js:106 | `trim` of two words with any white space between them is the two words joined by one space |
| CoordScan.GroupAfter | crawl.js:71 | `\s*[P]\s*([\d.]+)`: a match captures a non-empty run of digits and dots and ends inside the text |
| CoordScan.CallArgsAt | crawl.js:71 | `\s*\(\s*([\d.]+)\s*,\s*([\d.]+)\s*\)`: a match captures two well-formed coordinates |
| CoordScan.ConstructorAt | crawl.js:71 | `LatLng` or `new kakao.maps.LatLng` followed by the call arguments, ignoring ASCII case; a match captures two well-formed coordinates |
| CoordScan.KeyValueAt | crawl.js:72 | `lat\s*[:=]\s*([\d.]+)[,\s]+lng\s*[:=]\s*([\d.]+)`, ignoring case; a match captures two well-formed coordinates |
| CoordScan.SkipSpacesIsSpaceRun | crawl.js:71-72 | the scanner's `\s*` ends where the white-space run of `trim` ends: one notion of white space throughout |
| CoordScan.GroupAfterComplete | crawl.js:71-72 | `\s*[P]\s*([\d.]+)`: a text laid out for the sub-pattern (spaces, the punctuation, spaces, a maximal run of digits and dots) is captured as laid out |
| CoordScan.GroupAfterSound | crawl.js:71-72 | whatever the sub-pattern captures, the text is laid out for it, and the capture is the run the layout marks |
| CoordScan.CallArgsComplete | crawl.js:71 | a text laid out as `(A, B)`, with any white space around the parts, is captured as (A, B) |
| CoordScan.CallArgsSound | crawl.js:71 | whatever the call arguments capture, the text is laid out as `(A, B)` for that capture |
| CoordScan.LatLngComplete | crawl.js:71 | `LatLng` in any case followed by laid-out call arguments is captured as laid out |
| CoordScan.KakaoComplete | crawl.js:71 | `new`, white space, `kakao.maps.LatLng` in any case and laid-out call arguments are captured as laid out |
| CoordScan.ConstructorSound | crawl.js:71 | whatever the constructor pattern captures, the text is laid out for `LatLng(...)` or for `new kakao.maps.LatLng(...)`, and the capture is what the layout marks |
| CoordScan.LatLngSound | crawl.js:71 | a match of the short alternative is laid out for it |
| CoordScan.KakaoSound | crawl.js:71 | a match of the `new kakao.maps.LatLng` alternative is laid out for it |
| CoordScan.KakaoCase | crawl.js:71 | when `LatLng(...)` does not match at a position, a constructor match there is the `new kakao.maps.LatLng` alternative |
| CoordScan.LngAfterComplete | crawl.js:72 | separators, `lng` and a laid-out group after the latitude are captured as laid out |
| CoordScan.LngAfterSound | crawl.js:72 | whatever the longitude half captures, the text after the latitude is laid out for it |
| CoordScan.KeyValueComplete | crawl.js:72 | a text laid out as `lat`, a group, separators, `lng` and a group is captured as laid out |
| CoordScan.KeyValueSound | crawl.js:72 | whatever the key-value pattern captures, the text is laid out for it |
| CoordScan.KeyValueFound | crawl.js:71-72 | a text with no `(` that is laid out for the key-value pattern at its start yields that capture |
| CoordScan.LngAfter | crawl.js:72 | the longitude half of the key-value pattern keeps the latitude group as the capture's latitude |
| CoordScan.MatchPos | crawl.js:71-72 | the leftmost position at which a pattern matches: it matches there and at no earlier position, and None means it matches nowhere |
| CoordScan.FirstMatch | crawl.js:71-72 | `String.prototype.match`: None iff the pattern matches at no position; otherwise the match at the leftmost matching position |
| CoordScan.FindCoordinates | crawl.js:71-72 | the constructor pattern is tried first: the constructor match whenever there is one, otherwise the key-value match; None iff neither pattern matches anywhere |
| CoordScan.UnsignedCoordinates | crawl.js:71-72 | a captured coordinate never has a minus sign, so western or southern coordinates cannot be read |
| CoordScan.NoConstructorWithoutParen | crawl.js:71 | text without `(` never matches the constructor pattern |
| CoordScan.KeyValueRoundTrip | crawl.js:72 | a script that writes `lat: A, lng: B` yields exactly (A, B) |
| CoordScan.LatLngRoundTrip | crawl.js:71 | a script that calls `LatLng(A, B)` yields exactly (A, B) |
| CoordScan.KakaoRoundTrip | crawl.js:71 | a script that calls `new kakao.maps.LatLng(A, B)` yields exactly (A, B) |
| CoordScan.AssignRoundTrip | crawl.js:72 | a script that assigns `lat=A` and `lng=B` on two lines yields exactly (A, B) |
| CoordScan.LatOnlyNone | crawl.js:72 | a script that writes `lat: A` with no longitude yields nothing |
| CoordScan.SignedLatLngNone | crawl.js:71 | `LatLng(-A, B)` yields nothing: the minus sign stops the pattern, which does not fall back to A |
| CoordScan.SignedKeyValueNone | crawl.js:72 | `lat: -A, lng: B` yields nothing, for the same reason |
| CoordScan.JoinLinesConcat | crawl.js:70 | `join('\n')` of two non-empty lists is their two joins with one newline: each script keeps its text and neighbouring scripts are separated by exactly one newline |
| DetailExtract.ParseFloat | crawl.js:67 | `parseFloat` of a data attribute is NaN exactly when the attribute is missing |
| DetailExtract.ScriptTexts | crawl.js:69 | each script text, a missing one read as "" |
| DetailExtract.ScanCoordinates | crawl.js:69-73 | both coordinates come from one match of the scan of the joined scripts, or both stay null |
| DetailExtract.Coordinates | crawl.js:62-74 | a map element always yields both coordinates |
| DetailExtract.LookUpPlace | crawl.js:47-59 | the tab is counted iff venue or address came back empty; it is clicked iff it exists; only the empty value is retried; a thrown count, click or wait is reported |
| DetailExtract.ReadCoordinates | crawl.js:62-74 | the scripts are read only when no map element matched; fails exactly on a thrown map query or script read; otherwise returns `Coordinates` |
| DetailExtract.ReadPoster | crawl.js:77-79 | the gallery image is read only when og:image is empty; returns `Poster` |
| DetailExtract.ScrapeDetail | crawl.js:43-87 | the pushed result is `Scrape` and carries the visited URL; there is a result iff no uncaught call threw before the push; which conditional lookups ran, each as an iff |
| DetailExtract.FoundVenueKept | crawl.js:47-59 | a venue or address found by the first lookup is kept, and the retry is used only when it was empty |
| DetailExtract.MapElementWins | crawl.js:63-68 | with a map element, the scripts do not affect the result, and the coordinates are its parsed attributes |
| DetailExtract.MissingAttributesGiveNaN | crawl.js:65-68 | a map element without data attributes still decides the coordinates, as NaN and NaN |
| DetailExtract.ScanGivesPairOrNothing | crawl.js:68-74 | without a map element, the two stored coordinates are both present or both null, and come from the same match |
| DetailExtract.KeyValueScriptScanned | crawl.js:69-73 | a page whose one script writes `lat: A, lng: B` gets coordinates A and B |
| DetailExtract.LatLngScriptScanned | crawl.js:69-73 | a page whose one script calls `LatLng(A, B)` gets coordinates A and B |
| DetailExtract.PosterPrecedence | crawl.js:77-79 | the poster is og:image when truthy, otherwise the gallery image, otherwise null; a chosen value is resolved against the base URL |
| DetailExtract.NavigationFailureDropsResult | crawl.js:43-87 | a page that fails to load gives no result |
| DetailExtract.PauseFailureKeepsResult | crawl.js:81-84 | a failing courtesy delay comes after the push, so the result is the same as without the fault |
| PlayStore.SetDoc | crawl.js:81 | the `$set` of one result writes exactly the six result fields, including `detailUrl`, each with the result's value: venue and address as strings, a missing coordinate or poster as null, a present one as its number or string |
| MongoDoc.Merge | crawl.js:94 | `$set`: the patched fields take the patch's values, the document's other fields stay, and no field is removed; the users router's `$set` and its PATCH and DELETE updates (routes/users.js:127, 215, 241-245) use the same rule |
| PlayStore.SaveAllKeyed | models/TheaterPlay.js:25 | saving keeps every document stored under its own `detailUrl`, the unique key |
| PlayStore.SaveAllKeys | crawl.js:91-97 | after the save loop there is a document for exactly the old URLs plus the results' URLs |
| PlayStore.SaveAllUntouched | crawl.js:91-97 | a URL that no result mentions keeps its old document, or stays absent |
| PlayStore.LastResultWins | crawl.js:91-97 | a saved URL's document is its old fields with the last result for that URL laid over them; earlier results for the URL leave no trace |
| PlayStore.SaveAllIdempotent | crawl.js:91-97 | running the save loop twice with the same results gives the same collection as running it once |
| PlayStore.TheaterPlayStore.UpdateOneUpsert | crawl.js:92-96 | `updateOne({detailUrl}, {$set: r}, {upsert: true})`: merges into the existing document or inserts the `$set`, keeping the collection keyed |
| PlayStore.TheaterPlayStore.SaveResults | crawl.js:91-97 | the loop leaves the collection equal to `SaveAll` of the results, in order, and keeps it keyed |
| PlayStore.CollectDetailUrls | crawl.js:25-29 | the loop returns `CollectedUrls`: the resolved truthy hrefs, in document order, duplicates kept |
| PlayStore.CollectedUrlsAppend | crawl.js:26-29 | collecting distributes over consecutive runs of links, so repeated links give repeated URLs |
| PlayStore.CollectedUrlsMembers | crawl.js:26-29 | a URL is collected iff some link has a truthy href that resolves to it |
| PlayStore.Outcomes | crawl.js:42-88 | the i-th outcome is the scrape of the i-th URL on the page the i-th visit sees |
| PlayStore.ScrapeAll | crawl.js:41-88 | the loop returns the results of the successful visits, in visiting order |
| PlayStore.PushedAppend | crawl.js:42-88 | the results of consecutive runs of visits are concatenated |
| PlayStore.FailedVisitSkipped | crawl.js:85-87 | a visit whose error reaches the catch adds nothing and does not affect the visits around it |
| PlayStore.PushedMembers | crawl.js:41-88 | at most one result per visit, and a result is present iff some visit produced it |
| PlayStore.Crawl | crawl.js:11-97 | the whole run: collect, visit, save; the collection ends up as `SaveAll` of the pushed results |
| UserRecords.Pick | routes/users.js:8-9 | `pick`: exactly the listed keys that are defined on the object, with their values |
| UserRecords.PickIdempotent | routes/users.js:8-9 | picking twice with the same keys gives what picking once gave |
| UserRecords.PickWhole | routes/users.js:8-9 | an object with only listed keys is picked whole |
| UserRecords.PageNumber | routes/users.js:62 | page is at least 1, 1 when absent, the parameter when it is at least 1 |
| UserRecords.PageSize | routes/users.js:63 | limit lies in 1..100: 20 when absent, the parameter within range, clamped outside it |
| UserRecords.NextPageFollows | routes/users.js:76 | consecutive pages lie back to back |
| UserRecords.ChooseQuery | routes/users.js:120-122 | the query is by email iff the email is truthy, and otherwise by the complete provider pair, with the body's values |
| UserRecords.BuildUpdate | routes/users.js:124-131 | `$setOnInsert` is role user and status active; `$set` holds exactly the defined posted fields; a provider entry stamped now is added iff both provider fields are truthy |
| UserRecords.AddToSet | routes/users.js:129 | `$addToSet`: the old array is a prefix of the new one, which holds the element and at most one more item; an element already present changes nothing |
| UserRecords.ApplyUpdate | routes/users.js:125-137 | the new document's fields are the old ones plus the written ones; every `$set` field holds its posted value; `$setOnInsert` values appear only on insert; every other field keeps its value; the provider entry is in the providers array, which keeps the old one as a prefix |
| UserRecords.RoleAndStatusOnlyOnInsert | routes/users.js:125-127 | an update leaves role and status as they were; an insert sets them to user and active |
| UserRecords.ProvidersUntouchedWithoutPair | routes/users.js:128-130 | without a complete provider pair the providers array is left as it was |
| UserRecords.PostKeepsOtherFields | routes/users.js:124-131 | a POST changes only the posted fields, the insert defaults and the providers array; the deletion stamp survives |
| UserRecords.ProvidersAppended | routes/users.js:128-130 | with a complete provider pair, the old providers array is kept as a prefix and the posted entry is present |
| UserRecords.PostSetsEmail | routes/users.js:124-127 | a body with an email writes that email |
| UserRecords.PatchUpdate | routes/users.js:212-213 | exactly the allow-listed fields the body defines, with their values; a missing body is `{}` |
| UserRecords.PatchLeavesIdentity | routes/users.js:212-213 | a PATCH never writes the email, the providers, the role or the deletion stamp |
| UserStore.FirstMatching | routes/users.js:133 | the first document in order that matches the identity query; None iff none matches |
| UserStore.InsertBase | routes/users.js:120-122 | an upsert by email starts from a document with that email, which matches the query; one by provider starts with an empty providers array and matches only once the entry is added |
| UserStore.UpdateMatchesQuery | routes/users.js:120-131 | whatever document POST's update is applied to, the result matches the identity query (`MatchesQuery`) |
| UserStore.WrittenMatchesQuery | routes/users.js:120-137 | the document POST writes matches its own identity query |
| UserStore.RepostUpdates | routes/users.js:120-137 | a second POST of the same identity finds the written user, so it updates instead of inserting |
| UserStore.StoredMatchFound | routes/users.js:133 | a stored, ordered document that matches the query is found |
| UserStore.PostOutcomeOf | routes/users.js:112-141 | a written document breaks no email uniqueness; an insert uses the new id; an update targets a stored document in the order |
| UserStore.PostRejectsIff | routes/users.js:116-118 | POST answers 400 iff the body has neither a truthy email nor a complete provider pair |
| UserStore.PostTargetsFirstMatch | routes/users.js:120-137 | POST inserts iff no document matches; otherwise it rewrites the first match and keeps its role and status; an insert gets role user and status active |
| UserStore.Fetch | routes/users.js:163-170 | 400 for an invalid id, 404 for a missing or deleted user, otherwise 200 with the document |
| UserStore.NewestFirst | routes/users.js:66-76 | an id is listed iff it is stored, not deleted and matches `q` |
| UserStore.BlankQueryListsLive | routes/users.js:66-72 | with a blank `q` the list holds exactly the stored users that are not soft-deleted |
| UserStore.NewestFirstAppend | routes/users.js:76 | listing distributes over consecutive parts of the insertion order, later part first: a later user is listed before every earlier one |
| UserStore.NewestFirstDistinct | routes/users.js:76 | with distinct ids in the order, no user is listed twice |
| UserStore.Window | routes/users.js:76 | `.skip(s).limit(n)`: at most n elements, the ones starting at s, and as many as remain |
| UserStore.List | routes/users.js:60-82 | `page` and `limit` are `PageNumber` and `PageSize` of the parameters; the items are the window of the listed users, newest first, that starts after `(page - 1) * limit` of them and holds at most `limit`; every item is listed; `total` counts all listed users |
| UserStore.ListedIsFetchable | routes/users.js:163-170 | every listed user is one GET /:id returns |
| UserStore.DeletedIsHidden | routes/users.js:237-250 | after a soft delete the user is still stored with status deleted, but GET answers 404 and the list leaves it out |
| UserStore.PatchKeepsDeletedHidden | routes/users.js:208-219 | a PATCH of a deleted user leaves it hidden from GET and the list |
| UserStore.RewriteKeepsConsistent | routes/users.js:133-137 | rewriting a stored user without an email clash keeps ids, insertion order and email uniqueness consistent |
| UserStore.InsertKeepsConsistent | routes/users.js:133-137 | inserting under the next id without an email clash keeps the collection consistent |
| UserStore.Users.Post | routes/users.js:112-141 | 400 with no change when rejected; 500 with no change on an email clash; otherwise 201 with the written document, an insert appended to the order |
| UserStore.Users.Patch | routes/users.js:208-219 | 400 or 404 with no change; otherwise the allow-listed fields are merged and 200 returns the new document; a deleted user is patched too |
| UserStore.Users.Delete | routes/users.js:237-250 | 400 or 404 with no change; otherwise status deleted and deletedAt now are merged in, nothing is removed, and 204 |
| Search.Esc | routes/search.js:6 | at most doubles the length, and maps "" to "" |
| Search.EscAppend | routes/search.js:6 | escaping distributes over concatenation, so each character is escaped on its own |
| Search.EscIsEscaped | routes/search.js:6 | the escaped query is a literal pattern: every metacharacter is escaped and every backslash escapes one |
| Search.UnescapeEsc | routes/search.js:6 | removing the inserted backslashes gives the query back |
| Search.EscUnescape | routes/search.js:15 | every literal pattern is the escaping of its text, so `esc` is a bijection onto literal patterns |
| Search.ContainsSubstring | routes/search.js:15 | a field that contains the query letter for letter matches it |
| Search.ContainsIgnoresCase | routes/search.js:15 | lower-casing the field or the query does not change whether it matches |
| Search.Select | routes/search.js:25 | the projection drops only the unselected fields |
| Search.SelectKeepsMatch | routes/search.js:17-25 | the projection keeps every field the filter reads |
| Search.Matching | routes/search.js:17-24 | a play is returned iff it is stored and its title, category, area name or address contains the query, ignoring case |
| Search.MatchingAppend | routes/search.js:17-24 | filtering distributes over consecutive parts of the store, keeping store order |
| Search.LimitAsWritten | routes/search.js:11 | never 0 and at most 50: 20 when absent or 0, the parameter in 1..50, 50 above, and a negative parameter unchanged |
| Search.MongoLimitCount | routes/search.js:26 | MongoDB's `.limit(n)` returns at most abs(n) documents, and no cap exactly when n is 0 |
| Search.AsWrittenExceedsCap | routes/search.js:11 | as written, a limit below -50 lets MongoDB return more than 50 plays |
| Search.Limit | routes/search.js:11 | the corrected limit: 1..50, 20 by default, the parameter within range |
| Search.LimitCorrection | routes/search.js:11 | the corrected limit agrees with the source wherever the source's limit is positive, and always caps the result at 50 |
| Search.Project | routes/search.js:25 | each returned play is projected |
| Search.ServedCount | routes/search.js:11-26 | the number of plays MongoDB serves for the limit as written: abs of `LimitAsWritten`, at least 1 |
| Search.Served | routes/search.js:17-27 | the first `count` matching plays in store order, projected, or all of them when fewer match |
| Search.ServedSound | routes/search.js:17-27 | every served play is the projection of a matching stored play |
| Search.Find | routes/search.js:8-31 | the handler as written: a blank query returns no items and makes no query; otherwise the first `ServedCount(limit)` matching plays in store order, projected, so a limit below -50 returns more than 50 |
| Search.FindExceedsCap | routes/search.js:11-26 | as written, `limit=k` with k below -50 and enough matching plays returns -k plays, more than the cap of 50 |
| Search.FindCorrected | routes/search.js:8-31 | the handler with the corrected limit: at most `Limit(limit)` plays, never more than 50 |
| Search.FindCorrectedAgrees | routes/search.js:11 | wherever the limit as written is positive, the corrected handler answers exactly as the source does |
| Search.FindSound | routes/search.js:17-27 | for the handler as written and the corrected one: every returned play matches and comes from the store; when no more plays match than the limit, all of them are returned |
| Search.SurroundingSpaceIgnored | routes/search.js:10-12 | both handlers depend only on the trimmed query |
| ImageProxy.HostRegexIff | routes/imageProxy.js:10 | the host regular expression accepts a hostname iff it is the host or one of its subdomains, ignoring ASCII case |
| ImageProxy.NoDotBoundaryRejected | routes/imageProxy.js:10 | a hostname ending in the host's name without a dot before it, such as `faketimeticket.co.kr`, is not recognised |
| ImageProxy.SubdomainAccepted | routes/imageProxy.js:10 | every subdomain of the host is recognised, whatever the case of its letters |
| ImageProxy.SpoofHeaders | routes/imageProxy.js:9-19 | Referer equals Origin; the three browser headers are fixed; the origin is the site when the host test passes, otherwise the URL's protocol and hostname |
| ImageProxy.HeadersIgnorePath | routes/imageProxy.js:9-19 | two URLs with the same protocol and hostname get the same headers |
| ImageProxy.Handle | routes/imageProxy.js:21-38 | 400 Missing url or Bad url with no fetch; a fetch with the forged headers; 502 when it throws; a non-2xx status is passed on with `Upstream <status>`; otherwise 200 with the piped body, the content type (image/jpeg by default), the length iff given, and a one-day Cache-Control |
| ImageProxy.BadInputNeverFetches | routes/imageProxy.js:22-24 | a missing or unparseable url is answered with 400 without a fetch, whatever the upstream would do |

## Left out

- Network and browser I/O are inputs of the model and are not modelled. This covers the list page fetch (axios and cheerio), Playwright's `goto`, locators, clicks, waits and `evaluate`, and the proxy's `fetch` and stream pipeline.
- A failing list page fetch, or a failing `updateOne` in the save loop, reaches the outer catch of crawl.js and ends the whole run. This is not modelled: `Crawl` is given the links and every save succeeds.
- One fault per visit: at most one uncaught browser call throws per visit; a visit with several faults is not modelled.
- DetailExtract.ParseFloat: the value `parseFloat` reads is not computed, because floating point is out of scope. A present attribute is kept as its text, even one such as `abc` that parses to NaN.
- The courtesy delay's random length, the log lines and the timeouts are not modelled. They do not affect what is stored.
- PlayStore.SetDoc: the model stores all six fields. Mongoose's strict mode would drop `venueName`, `address`, `lat` and `lng`, which the `TheaterPlay` schema does not declare; the source comment at crawl.js:90 says fields must be added to the schema. Casting NaN coordinates is not modelled either.
- `resolve` and `parse` stand for `new URL`. URL parsing and resolution are not modelled, and `resolve` never throws.
- UserRecords.PageNumber: a non-numeric `page` (`parseInt` gives NaN, and `Math.max` passes NaN through) is not modelled. The parameter is absent or an integer.
- UserRecords.PageSize: a non-numeric `limit` is not modelled, for the same reason.
- The users list's `$regex` test on name, email and nickname is the parameter `rx`. MongoDB's regular-expression engine is not modelled.
- The search's case-insensitive matching folds ASCII letters only. MongoDB's folding of other scripts is not modelled.
- UserRecords.RoleAndStatusOnlyOnInsert: the model writes `role` on insert. The `User` schema (models/User.js) declares no `role`, so Mongoose's strict mode would drop it from `$setOnInsert`; only `status` would be stored.
- UserStore.PostTargetsFirstMatch: states the inserted document's `role` as user for the same reason, which strict mode would not keep.
- UserStore.Users.Patch: merges every allow-listed field. Strict mode would drop `locale`, `timeZone` and `region`, which the schema does not declare; `name`, `nickname`, `profileImageUrl` and `status` would be kept.
- UserStore.List: `q` is given to `$regex` unescaped (routes/users.js:64-72). A `q` that is not a valid regular expression makes MongoDB throw, and the error handler in server.js:95-97 answers 500. The parameter `rx` is a total test, so that error path is not modelled.
- The Mongoose `timestamps` fields, `setDefaultsOnInsert` for fields other than status and providers, and schema casting and validation are not modelled.
- MongoDB's natural order is the insertion order, for `findOne` and for the search. Sort ties on `createdAt` are not modelled.
- `Promise.all` in the users list reads one consistent state. Concurrent requests are not modelled.
- ImageProxy.Handle: an error while streaming, after the headers are sent, is not modelled. Neither is the redirect handling inside `fetch`.
- The `/image-proxy/debug` route (routes/imageProxy.js:41-54) and GET /users/ping (routes/users.js:22-24) are not modelled. They only report state.
- server.js, index.js, the other routers (movies, play, notifications, transcribe, imageCache), docs/swagger.js and the School/Comit C files are not part of this model.

## Findings

| source | as written | input that shows it | evidently intended | confidence | as-written member | corrected member |
|---|---|---|---|---|---|---|
| routes/search.js:11 | the limit expression caps the limit from above only, so a negative limit reaches `.limit()`, and MongoDB reads a negative limit as its absolute value | `GET /search?q=a&limit=-100` returns up to 100 plays | at most 50 plays, at least one: clamp to 1..50 as routes/users.js:63 clamps its limit | not executed | Search.LimitAsWritten, Search.AsWrittenExceedsCap, Search.Find, Search.FindExceedsCap | Search.Limit, Search.LimitCorrection, Search.FindCorrected, Search.FindCorrectedAgrees |
