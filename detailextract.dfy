/** What the scraper takes from one detail page (crawl.js:43-84): venue and address with one retry
    behind the venue tab, coordinates by a fixed precedence, and the poster by a fixed precedence.
    Browser lookups are abstract inputs collected in a DetailPage record. */
module DetailExtract {
  import opened JsString
  import opened CrawlTrim
  import opened CoordScan

  /** What `parseFloat` was given: an attribute that is missing reads as NaN; otherwise the number
      written in `text` (the digit-and-dot captures of the script scan, or a data attribute). */
  datatype Number = NaN | Num(text: string)

  /** The attributes of the element that matches the map selector; a missing attribute is None. */
  datatype MapElement = MapElement(dataLat: Option<string>, dataLng: Option<string>)

  /** The browser calls of one detail visit that have no `.catch`, so that their failure
      escapes to the loop's catch (crawl.js:85-87). */
  datatype Fault =
    | GotoFails         // page.goto
    | TabCountFails     // counting the venue-tab locator
    | TabClickFails     // clicking the venue tab
    | SettleFails       // the wait after the click
    | MapQueryFails     // reading the map element's data attributes
    | ScriptReadFails   // reading the text of every script
    | PauseFails        // the courtesy delay after the result is pushed

  /** Which of the conditional browser calls a visit made. */
  datatype Calls = Calls(
    tabCounted: bool,
    tabClicked: bool,
    venueRetried: bool,
    addressRetried: bool,
    mapQueried: bool,
    scriptsRead: bool,
    galleryRead: bool,
    paused: bool)

  /** One detail page as the scraper sees it. A lookup that finds no element or whose promise is
      rejected gives None or "", as the `.catch` handlers make it. `fault` names the one call,
      if any, that throws when it is made. */
  datatype DetailPage = DetailPage(
    venue: Option<string>,
    address: Option<string>,
    tabCount: nat,
    venueRetry: Option<string>,
    addressRetry: Option<string>,
    mapElement: Option<MapElement>,
    scripts: seq<Option<string>>,
    ogImage: Option<string>,
    galleryImage: Option<string>,
    fault: Option<Fault>)

  /** One pushed result (crawl.js:81). */
  datatype Scraped = Scraped(
    detailUrl: string,
    venueName: string,
    address: string,
    lat: Option<Number>,
    lng: Option<Number>,
    posterUrl: Option<string>)

  /** JavaScript truthiness of a lookup result: not null and not the empty string. */
  predicate Truthy(o: Option<string>) {
    o.Some? && |o.value| > 0
  }

  /** `parseFloat(el.dataset.x)`: a missing attribute gives NaN. */
  function ParseFloat(a: Option<string>): (n: Number)
    ensures n.NaN? <==> a.None?
    ensures a.Some? ==> n.text == a.value
  {
    match a
    case None => NaN
    case Some(t) => Num(t)
  }

  /** Whether the call throws when it is made on this page. */
  predicate Throws(p: DetailPage, f: Fault) {
    p.fault == Some(f)
  }

  /** Venue or address came back empty, so the tab is looked for and the empty one retried. */
  predicate NeedsRetry(p: DetailPage) {
    !Truthy(p.venue) || !Truthy(p.address)
  }

  /** The page loaded. */
  predicate PastGoto(p: DetailPage) {
    !Throws(p, GotoFails)
  }

  /** The tab count, click and wait, when they happen at all, do not throw. */
  predicate TabSucceeds(p: DetailPage) {
    && !(NeedsRetry(p) && Throws(p, TabCountFails))
    && !(NeedsRetry(p) && p.tabCount > 0 && (Throws(p, TabClickFails) || Throws(p, SettleFails)))
  }

  /** The page loaded and the venue tab handling went through. */
  predicate PastTab(p: DetailPage) {
    PastGoto(p) && TabSucceeds(p)
  }

  /** The map element was queried without an error. */
  predicate PastMap(p: DetailPage) {
    PastTab(p) && !Throws(p, MapQueryFails)
  }

  /** The map query and, when it runs, the script read do not throw. */
  predicate CoordinatesSucceed(p: DetailPage) {
    !Throws(p, MapQueryFails) && !(p.mapElement.None? && Throws(p, ScriptReadFails))
  }

  /** The detail URL produces a result: nothing before the push threw. */
  predicate Completes(p: DetailPage) {
    PastTab(p) && CoordinatesSucceed(p)
  }

  /** The venue as finally chosen: the first lookup when it found text, else the retry. */
  function Venue(p: DetailPage): Option<string> {
    if Truthy(p.venue) then p.venue else p.venueRetry
  }

  /** The address as finally chosen, in the same way. */
  function Address(p: DetailPage): Option<string> {
    if Truthy(p.address) then p.address else p.addressRetry
  }

  /** The script texts, a missing text read as "". */
  function ScriptTexts(scripts: seq<Option<string>>): (r: seq<string>)
    ensures |r| == |scripts|
    ensures forall i :: 0 <= i < |r| ==> r[i] == scripts[i].GetOr("")
  {
    seq(|scripts|, i requires 0 <= i < |scripts| => scripts[i].GetOr(""))
  }

  /** Coordinates found by scanning the joined scripts: both from one match, or neither. */
  function ScanCoordinates(scripts: seq<Option<string>>): (r: (Option<Number>, Option<Number>))
    ensures r.0.Some? <==> r.1.Some?
    ensures r.0.Some? <==> FindCoordinates(JoinLines(ScriptTexts(scripts))).Some?
    ensures r.0.Some? ==> var c := FindCoordinates(JoinLines(ScriptTexts(scripts))).value;
      r.0 == Some(Num(c.lat)) && r.1 == Some(Num(c.lng))
  {
    match FindCoordinates(JoinLines(ScriptTexts(scripts)))
    case Some(c) => (Some(Num(c.lat)), Some(Num(c.lng)))
    case None => (None, None)
  }

  /** The coordinates: the map element's attributes when there is one (NaN is not null, so the
      scan is skipped even if the attributes are missing), else the script scan. */
  function Coordinates(p: DetailPage): (r: (Option<Number>, Option<Number>))
    ensures p.mapElement.Some? ==> r.0.Some? && r.1.Some?
  {
    match p.mapElement
    case Some(el) => (Some(ParseFloat(el.dataLat)), Some(ParseFloat(el.dataLng)))
    case None => ScanCoordinates(p.scripts)
  }

  /** The poster: og:image when truthy, else the gallery image; absolutised when truthy. */
  function Poster(p: DetailPage, resolve: string -> string): Option<string> {
    var raw := if Truthy(p.ogImage) then p.ogImage else p.galleryImage;
    if Truthy(raw) then Some(resolve(raw.value)) else None
  }

  /** The result pushed for one detail URL, or None when an error escaped to the catch. */
  function Scrape(url: string, p: DetailPage, resolve: string -> string): Option<Scraped> {
    if Completes(p) then
      var (lat, lng) := Coordinates(p);
      Some(Scraped(url, Trim(Venue(p)), Trim(Address(p)), lat, lng, Poster(p, resolve)))
    else None
  }

  /** Venue and address (crawl.js:47-59): a second lookup, behind a click on the venue tab when
      there is one, only for the value the first lookup left empty. `ok` is false when the tab
      count, the click or the wait after it threw. */
  method LookUpPlace(p: DetailPage)
    returns (ok: bool, venueName: Option<string>, address: Option<string>,
             counted: bool, clicked: bool, venueRetried: bool, addressRetried: bool)
    ensures ok <==> TabSucceeds(p)
    ensures ok ==> venueName == Venue(p) && address == Address(p)
    ensures counted <==> NeedsRetry(p)
    ensures clicked <==> NeedsRetry(p) && !Throws(p, TabCountFails) && p.tabCount > 0
    ensures venueRetried <==> ok && !Truthy(p.venue)
    ensures addressRetried <==> ok && !Truthy(p.address)
  {
    venueName := p.venue;
    address := p.address;
    ok, counted, clicked, venueRetried, addressRetried := true, false, false, false, false;
    if !Truthy(venueName) || !Truthy(address) {
      counted := true;
      if Throws(p, TabCountFails) {
        ok := false;
        return;
      }
      if p.tabCount > 0 {
        clicked := true;
        if Throws(p, TabClickFails) || Throws(p, SettleFails) {
          ok := false;
          return;
        }
      }
      if !Truthy(venueName) {
        venueRetried := true;
        venueName := p.venueRetry;
      }
      if !Truthy(address) {
        addressRetried := true;
        address := p.addressRetry;
      }
    }
  }

  /** The coordinates (crawl.js:62-74): the map element's data attributes, and the script scan
      only when no element matched. `ok` is false when the query or the script read threw. */
  method ReadCoordinates(p: DetailPage)
    returns (ok: bool, lat: Option<Number>, lng: Option<Number>, scriptsRead: bool)
    ensures ok <==> CoordinatesSucceed(p)
    ensures ok ==> (lat, lng) == Coordinates(p)
    ensures scriptsRead <==> !Throws(p, MapQueryFails) && p.mapElement.None?
  {
    lat, lng, scriptsRead := None, None, false;
    if Throws(p, MapQueryFails) {
      ok := false;
      return;
    }
    if p.mapElement.Some? {
      lat := Some(ParseFloat(p.mapElement.value.dataLat));
      lng := Some(ParseFloat(p.mapElement.value.dataLng));
    }
    ok := true;
    if lat.None? || lng.None? {
      scriptsRead := true;
      if Throws(p, ScriptReadFails) {
        ok := false;
        return;
      }
      var big := JoinLines(ScriptTexts(p.scripts));
      var m := FindCoordinates(big);
      if m.Some? {
        lat := Some(Num(m.value.lat));
        lng := Some(Num(m.value.lng));
      }
    }
  }

  /** The poster (crawl.js:77-79): og:image, and the gallery image only when that is empty. */
  method ReadPoster(p: DetailPage, resolve: string -> string)
    returns (posterAbs: Option<string>, galleryRead: bool)
    ensures posterAbs == Poster(p, resolve)
    ensures galleryRead <==> !Truthy(p.ogImage)
  {
    var posterUrl := p.ogImage;
    galleryRead := false;
    if !Truthy(posterUrl) {
      galleryRead := true;
      posterUrl := p.galleryImage;
    }
    posterAbs := if Truthy(posterUrl) then Some(resolve(posterUrl.value)) else None;
  }

  /** The body of the loop at crawl.js:43-84 for one detail URL. `resolve` stands for
      `new URL(ref, BASE).href`. `calls` says which conditional browser calls were made. */
  method ScrapeDetail(url: string, p: DetailPage, resolve: string -> string)
    returns (r: Option<Scraped>, calls: Calls)
    ensures r == Scrape(url, p, resolve)
    ensures r.Some? <==> Completes(p)
    ensures r.Some? ==> r.value.detailUrl == url
    ensures calls.tabCounted <==> PastGoto(p) && NeedsRetry(p)
    ensures calls.tabClicked <==> PastGoto(p) && NeedsRetry(p) && !Throws(p, TabCountFails) && p.tabCount > 0
    ensures calls.venueRetried <==> PastTab(p) && !Truthy(p.venue)
    ensures calls.addressRetried <==> PastTab(p) && !Truthy(p.address)
    ensures calls.mapQueried <==> PastTab(p)
    ensures calls.scriptsRead <==> PastMap(p) && p.mapElement.None?
    ensures calls.galleryRead <==> Completes(p) && !Truthy(p.ogImage)
    ensures calls.paused <==> Completes(p)
  {
    r := None;
    calls := Calls(false, false, false, false, false, false, false, false);
    if Throws(p, GotoFails) {
      return;
    }
    var placeOk, venueName, address, counted, clicked, venueRetried, addressRetried := LookUpPlace(p);
    calls := calls.(tabCounted := counted, tabClicked := clicked,
                    venueRetried := venueRetried, addressRetried := addressRetried);
    if !placeOk {
      return;
    }
    calls := calls.(mapQueried := true);
    var coordsOk, lat, lng, scriptsRead := ReadCoordinates(p);
    calls := calls.(scriptsRead := scriptsRead);
    if !coordsOk {
      return;
    }
    var posterAbs, galleryRead := ReadPoster(p, resolve);
    r := Some(Scraped(url, Trim(venueName), Trim(address), lat, lng, posterAbs));
    // The result is pushed before the delay, so a failing delay still keeps it.
    calls := calls.(galleryRead := galleryRead, paused := true);
  }

  /** A venue found by the first lookup is kept, and the retry is used only when it was empty. */
  lemma FoundVenueKept(url: string, p: DetailPage, resolve: string -> string)
    requires Completes(p)
    ensures Truthy(p.venue) ==> Scrape(url, p, resolve).value.venueName == Trim(p.venue)
    ensures !Truthy(p.venue) ==> Scrape(url, p, resolve).value.venueName == Trim(p.venueRetry)
    ensures Truthy(p.address) ==> Scrape(url, p, resolve).value.address == Trim(p.address)
    ensures !Truthy(p.address) ==> Scrape(url, p, resolve).value.address == Trim(p.addressRetry)
  {
  }

  /** A map element decides the coordinates, so the scripts do not matter. */
  lemma MapElementWins(url: string, p: DetailPage, other: seq<Option<string>>, resolve: string -> string)
    requires Completes(p) && p.mapElement.Some?
    ensures Scrape(url, p.(scripts := other), resolve) == Scrape(url, p, resolve)
    ensures Scrape(url, p, resolve).value.lat == Some(ParseFloat(p.mapElement.value.dataLat))
    ensures Scrape(url, p, resolve).value.lng == Some(ParseFloat(p.mapElement.value.dataLng))
  {
    var q := p.(scripts := other);
    assert Completes(q);
    assert Venue(q) == Venue(p) && Address(q) == Address(p);
    assert Coordinates(q) == Coordinates(p) && Poster(q, resolve) == Poster(p, resolve);
  }

  /** A map element with no data attributes still wins: both coordinates read as NaN. */
  lemma MissingAttributesGiveNaN(url: string, p: DetailPage, resolve: string -> string)
    requires Completes(p) && p.mapElement == Some(MapElement(None, None))
    ensures Scrape(url, p, resolve).value.lat == Some(NaN)
    ensures Scrape(url, p, resolve).value.lng == Some(NaN)
  {
  }

  /** Without a map element, both coordinates come from the same match of the scan, or both are
      null. */
  lemma ScanGivesPairOrNothing(url: string, p: DetailPage, resolve: string -> string)
    requires Completes(p) && p.mapElement.None?
    ensures var r := Scrape(url, p, resolve).value;
      && (r.lat.Some? <==> r.lng.Some?)
      && (r.lat.Some? ==> var c := FindCoordinates(JoinLines(ScriptTexts(p.scripts))).value;
            r.lat == Some(Num(c.lat)) && r.lng == Some(Num(c.lng)))
  {
  }

  /** A single script holding `lat: A, lng: B` gives the coordinates A and B. */
  lemma KeyValueScriptScanned(a: string, b: string)
    requires CoordText(a) && CoordText(b)
    ensures ScanCoordinates([Some(KeyValueText(a, b))]) == (Some(Num(a)), Some(Num(b)))
  {
    assert ScriptTexts([Some(KeyValueText(a, b))]) == [KeyValueText(a, b)];
    KeyValueRoundTrip(a, b);
  }

  /** A single script holding `LatLng(A, B)` gives the coordinates A and B. */
  lemma LatLngScriptScanned(a: string, b: string)
    requires CoordText(a) && CoordText(b)
    ensures ScanCoordinates([Some(LatLngText(a, b))]) == (Some(Num(a)), Some(Num(b)))
  {
    assert ScriptTexts([Some(LatLngText(a, b))]) == [LatLngText(a, b)];
    LatLngRoundTrip(a, b);
  }

  /** The poster is og:image when that is truthy, otherwise the gallery image, otherwise null;
      a chosen value is absolutised. */
  lemma PosterPrecedence(p: DetailPage, resolve: string -> string)
    ensures Truthy(p.ogImage) ==> Poster(p, resolve) == Some(resolve(p.ogImage.value))
    ensures !Truthy(p.ogImage) && Truthy(p.galleryImage) ==>
      Poster(p, resolve) == Some(resolve(p.galleryImage.value))
    ensures !Truthy(p.ogImage) && !Truthy(p.galleryImage) ==> Poster(p, resolve) == None
  {
  }

  /** A page that fails to load gives no result. */
  lemma NavigationFailureDropsResult(url: string, p: DetailPage, resolve: string -> string)
    requires p.fault == Some(GotoFails)
    ensures Scrape(url, p, resolve) == None
  {
  }

  /** A failing courtesy delay comes after the push, so the result stays. */
  lemma PauseFailureKeepsResult(url: string, p: DetailPage, resolve: string -> string)
    requires p.fault == Some(PauseFails)
    ensures Scrape(url, p, resolve) == Scrape(url, p.(fault := None), resolve)
    ensures Scrape(url, p, resolve).Some?
  {
    var q := p.(fault := None);
    assert Completes(p) && Completes(q);
    assert Venue(q) == Venue(p) && Address(q) == Address(p);
    assert Coordinates(q) == Coordinates(p) && Poster(q, resolve) == Poster(p, resolve);
  }
}
