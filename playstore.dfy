/** The scraper's loops (crawl.js:25-29, 42-88, 91-97): collecting detail URLs, visiting each one
    with failures caught per URL, and upserting the results into the `theaterplays` collection,
    whose documents are keyed by `detailUrl` (the unique index at models/TheaterPlay.js:25). */
module PlayStore {
  import opened JsString
  import opened MongoDoc
  import opened DetailExtract

  /** A stored field value. */
  datatype Value = VStr(s: string) | VNum(n: Number) | VNull

  /** A stored document: field name to value. */
  type Doc = map<string, Value>

  /** The six fields every `$set` of the save loop writes (crawl.js:81, 94). */
  const SetFields: set<string> := {"detailUrl", "venueName", "address", "lat", "lng", "posterUrl"}

  function OrNull(n: Option<Number>): Value {
    match n
    case Some(x) => VNum(x)
    case None => VNull
  }

  function StrOrNull(s: Option<string>): Value {
    match s
    case Some(x) => VStr(x)
    case None => VNull
  }

  /** The `$set` document for one result: all six fields, null ones included. */
  function SetDoc(r: Scraped): (d: Doc)
    ensures d.Keys == SetFields
    ensures d["detailUrl"] == VStr(r.detailUrl)
    ensures d["venueName"] == VStr(r.venueName) && d["address"] == VStr(r.address)
    ensures (d["lat"] == VNull <==> r.lat.None?) && (r.lat.Some? ==> d["lat"] == VNum(r.lat.value))
    ensures (d["lng"] == VNull <==> r.lng.None?) && (r.lng.Some? ==> d["lng"] == VNum(r.lng.value))
    ensures (d["posterUrl"] == VNull <==> r.posterUrl.None?)
    ensures r.posterUrl.Some? ==> d["posterUrl"] == VStr(r.posterUrl.value)
  {
    map["detailUrl" := VStr(r.detailUrl), "venueName" := VStr(r.venueName),
        "address" := VStr(r.address), "lat" := OrNull(r.lat), "lng" := OrNull(r.lng),
        "posterUrl" := StrOrNull(r.posterUrl)]
  }

  /** The existing document for `url`, or the empty one an upsert starts from. The filter's
      `detailUrl` is also among the `$set` fields, so an inserted document is the `$set`. */
  function Existing(docs: map<string, Doc>, url: string): Doc {
    if url in docs then docs[url] else map[]
  }

  /** `updateOne({detailUrl}, {$set: r}, {upsert: true})` on a collection keyed by detailUrl. */
  function Upserted(docs: map<string, Doc>, r: Scraped): map<string, Doc> {
    docs[r.detailUrl := Merge(Existing(docs, r.detailUrl), SetDoc(r))]
  }

  /** The collection after upserting `rs` in order. */
  function SaveAll(docs: map<string, Doc>, rs: seq<Scraped>): map<string, Doc>
    decreases |rs|
  {
    if rs == [] then docs else Upserted(SaveAll(docs, rs[..|rs| - 1]), rs[|rs| - 1])
  }

  /** The detail URLs of the results. */
  function Urls(rs: seq<Scraped>): set<string> {
    set r | r in rs :: r.detailUrl
  }

  /** Every stored document carries the key it is stored under (the unique `detailUrl` index). */
  predicate Keyed(docs: map<string, Doc>) {
    forall u :: u in docs ==> "detailUrl" in docs[u] && docs[u]["detailUrl"] == VStr(u)
  }

  /** Saving keeps every document keyed by its own detailUrl. */
  lemma {:induction false} SaveAllKeyed(docs: map<string, Doc>, rs: seq<Scraped>)
    requires Keyed(docs)
    ensures Keyed(SaveAll(docs, rs))
    decreases |rs|
  {
    if rs != [] {
      SaveAllKeyed(docs, rs[..|rs| - 1]);
    }
  }

  /** After the save loop there is a document for exactly the old URLs and the results' URLs. */
  lemma {:induction false} SaveAllKeys(docs: map<string, Doc>, rs: seq<Scraped>)
    ensures SaveAll(docs, rs).Keys == docs.Keys + Urls(rs)
    decreases |rs|
  {
    if rs != [] {
      var init := rs[..|rs| - 1];
      SaveAllKeys(docs, init);
      assert rs == init + [rs[|rs| - 1]];
      assert Urls(rs) == Urls(init) + {rs[|rs| - 1].detailUrl};
    }
  }

  /** A URL no result mentions keeps its old document, or stays absent. */
  lemma {:induction false} SaveAllUntouched(docs: map<string, Doc>, rs: seq<Scraped>, u: string)
    requires forall r :: r in rs ==> r.detailUrl != u
    ensures u in SaveAll(docs, rs) <==> u in docs
    ensures u in docs ==> SaveAll(docs, rs)[u] == docs[u]
    decreases |rs|
  {
    if rs != [] {
      SaveAllUntouched(docs, rs[..|rs| - 1], u);
      assert rs[|rs| - 1] in rs;
    }
  }

  /** The document of a saved URL: its old fields with the last result's `$set` laid over them.
      Earlier results for the same URL leave no trace in the six `$set` fields. */
  lemma {:induction false} LastResultWins(docs: map<string, Doc>, rs: seq<Scraped>, i: nat)
    requires i < |rs|
    requires forall j :: i < j < |rs| ==> rs[j].detailUrl != rs[i].detailUrl
    ensures var saved := SaveAll(docs, rs);
      var u := rs[i].detailUrl;
      u in saved && saved[u] == Merge(Existing(docs, u), SetDoc(rs[i]))
    decreases |rs|, 1
  {
    if i == |rs| - 1 {
      FinalResultWins(docs, rs);
    } else {
      LastResultWins(docs, rs[..|rs| - 1], i);
    }
  }

  /** The case of `LastResultWins` where the result is the final one. */
  lemma {:induction false} FinalResultWins(docs: map<string, Doc>, rs: seq<Scraped>)
    requires rs != []
    ensures var saved := SaveAll(docs, rs);
      var u := rs[|rs| - 1].detailUrl;
      u in saved && saved[u] == Merge(Existing(docs, u), SetDoc(rs[|rs| - 1]))
    decreases |rs|, 0
  {
    var init := rs[..|rs| - 1];
    var u := rs[|rs| - 1].detailUrl;
    if exists j :: 0 <= j < |init| && init[j].detailUrl == u {
      var j :| 0 <= j < |init| && init[j].detailUrl == u;
      var k := LastIndexOf(init, u, j);
      LastResultWins(docs, init, k);
      MergeTwice(Existing(docs, u), SetDoc(init[k]), SetDoc(rs[|rs| - 1]));
    } else {
      SaveAllUntouched(docs, init, u);
    }
  }

  /** The last index at or after `j` whose result has URL `u`. */
  ghost function LastIndexOf(rs: seq<Scraped>, u: string, j: nat): (k: nat)
    requires j < |rs| && rs[j].detailUrl == u
    ensures j <= k < |rs| && rs[k].detailUrl == u
    ensures forall m :: k < m < |rs| ==> rs[m].detailUrl != u
    decreases |rs| - j
  {
    if exists m :: j < m < |rs| && rs[m].detailUrl == u then
      var m :| j < m < |rs| && rs[m].detailUrl == u;
      LastIndexOf(rs, u, m)
    else j
  }

  /** Two `$set`s with the same fields: the second one decides. */
  lemma MergeTwice(doc: Doc, a: Doc, b: Doc)
    requires a.Keys == b.Keys
    ensures Merge(Merge(doc, a), b) == Merge(doc, b)
  {
  }

  /** Running the save loop a second time with the same results changes nothing. */
  lemma {:induction false} SaveAllIdempotent(docs: map<string, Doc>, rs: seq<Scraped>)
    ensures SaveAll(SaveAll(docs, rs), rs) == SaveAll(docs, rs)
  {
    var once := SaveAll(docs, rs);
    var twice := SaveAll(once, rs);
    SaveAllKeys(docs, rs);
    SaveAllKeys(once, rs);
    forall u | u in twice
      ensures twice[u] == once[u]
    {
      if exists j :: 0 <= j < |rs| && rs[j].detailUrl == u {
        var j :| 0 <= j < |rs| && rs[j].detailUrl == u;
        var k := LastIndexOf(rs, u, j);
        LastResultWins(docs, rs, k);
        LastResultWins(once, rs, k);
        MergeTwice(Existing(docs, u), SetDoc(rs[k]), SetDoc(rs[k]));
      } else {
        forall r | r in rs
          ensures r.detailUrl != u
        {
          var j :| 0 <= j < |rs| && rs[j] == r;
        }
        SaveAllUntouched(once, rs, u);
      }
    }
    assert twice.Keys == once.Keys;
  }

  /** The collection of scraped plays, keyed by detailUrl. */
  class TheaterPlayStore {
    var docs: map<string, Doc>

    ghost predicate Valid()
      reads this
    {
      Keyed(docs)
    }

    constructor(initial: map<string, Doc>)
      requires Keyed(initial)
      ensures Valid() && docs == initial
    {
      docs := initial;
    }

    /** `TheaterPlay.updateOne({detailUrl: r.detailUrl}, {$set: r}, {upsert: true})`. */
    method UpdateOneUpsert(r: Scraped)
      requires Valid()
      modifies this
      ensures Valid()
      ensures docs == Upserted(old(docs), r)
    {
      var existing := if r.detailUrl in docs then docs[r.detailUrl] else map[];
      docs := docs[r.detailUrl := Merge(existing, SetDoc(r))];
    }

    /** The save loop (crawl.js:91-97). */
    method SaveResults(results: seq<Scraped>)
      requires Valid()
      modifies this
      ensures Valid()
      ensures docs == SaveAll(old(docs), results)
    {
      var i := 0;
      while i < |results|
        invariant 0 <= i <= |results|
        invariant Valid()
        invariant docs == SaveAll(old(docs), results[..i])
      {
        assert results[..i + 1][..i] == results[..i];
        UpdateOneUpsert(results[i]);
        i := i + 1;
      }
      assert results[..i] == results;
    }
  }

  /** The detail URLs collected from the list page's `/product/` links, in document order,
      without removing duplicates; a link without a truthy href is skipped. */
  function CollectedUrls(hrefs: seq<Option<string>>, resolve: string -> string): seq<string>
    decreases |hrefs|
  {
    if hrefs == [] then []
    else
      var init := CollectedUrls(hrefs[..|hrefs| - 1], resolve);
      var h := hrefs[|hrefs| - 1];
      if Truthy(h) then init + [resolve(h.value)] else init
  }

  /** The link loop (crawl.js:25-29). */
  method CollectDetailUrls(hrefs: seq<Option<string>>, resolve: string -> string)
    returns (items: seq<string>)
    ensures items == CollectedUrls(hrefs, resolve)
  {
    items := [];
    for i := 0 to |hrefs|
      invariant items == CollectedUrls(hrefs[..i], resolve)
    {
      assert hrefs[..i + 1][..i] == hrefs[..i];
      var href := hrefs[i];
      if Truthy(href) {
        items := items + [resolve(href.value)];
      }
    }
    assert hrefs[..|hrefs|] == hrefs;
  }

  /** Collecting from two runs of links gives the two collections one after the other, so
      duplicate links give duplicate URLs. */
  lemma {:induction false} CollectedUrlsAppend(a: seq<Option<string>>, b: seq<Option<string>>, resolve: string -> string)
    ensures CollectedUrls(a + b, resolve) == CollectedUrls(a, resolve) + CollectedUrls(b, resolve)
    decreases |b|
  {
    if b != [] {
      var b' := b[..|b| - 1];
      assert (a + b)[..|a + b| - 1] == a + b';
      CollectedUrlsAppend(a, b', resolve);
    } else {
      assert a + b == a;
    }
  }

  /** A collected URL comes from a truthy href, and every truthy href gives one. */
  lemma {:induction false} CollectedUrlsMembers(hrefs: seq<Option<string>>, resolve: string -> string, u: string)
    ensures u in CollectedUrls(hrefs, resolve) <==>
      exists i :: 0 <= i < |hrefs| && Truthy(hrefs[i]) && resolve(hrefs[i].value) == u
    decreases |hrefs|
  {
    if hrefs != [] {
      var init := hrefs[..|hrefs| - 1];
      CollectedUrlsMembers(init, resolve, u);
      if exists i :: 0 <= i < |hrefs| && Truthy(hrefs[i]) && resolve(hrefs[i].value) == u {
        var i :| 0 <= i < |hrefs| && Truthy(hrefs[i]) && resolve(hrefs[i].value) == u;
        if i < |init| {
          assert init[i] == hrefs[i];
        }
      }
    }
  }

  /** The results of a sequence of visits: the Some values, in order. */
  function Pushed(outcomes: seq<Option<Scraped>>): seq<Scraped>
    decreases |outcomes|
  {
    if outcomes == [] then []
    else
      var init := Pushed(outcomes[..|outcomes| - 1]);
      match outcomes[|outcomes| - 1]
      case Some(r) => init + [r]
      case None => init
  }

  /** One more visit pushes its result, if any, after the earlier ones. */
  lemma PushedSnoc(outcomes: seq<Option<Scraped>>, i: nat)
    requires i < |outcomes|
    ensures Pushed(outcomes[..i + 1]) ==
      if outcomes[i].Some? then Pushed(outcomes[..i]) + [outcomes[i].value] else Pushed(outcomes[..i])
  {
    assert outcomes[..i + 1][..i] == outcomes[..i];
  }

  /** The outcome of visiting `items[i]`; the page seen on the i-th visit is `load(i, items[i])`. */
  function Outcomes(items: seq<string>, load: (nat, string) -> DetailPage, resolve: string -> string)
    : (o: seq<Option<Scraped>>)
    ensures |o| == |items|
    ensures forall i :: 0 <= i < |items| ==> o[i] == Scrape(items[i], load(i, items[i]), resolve)
  {
    seq(|items|, i requires 0 <= i < |items| => Scrape(items[i], load(i, items[i]), resolve))
  }

  /** The visiting loop (crawl.js:41-88): one visit per collected URL, duplicates included; a
      visit whose error reached the catch pushes nothing and the loop goes on. */
  method ScrapeAll(items: seq<string>, load: (nat, string) -> DetailPage, resolve: string -> string)
    returns (results: seq<Scraped>)
    ensures results == Pushed(Outcomes(items, load, resolve))
  {
    results := [];
    ghost var outcomes := Outcomes(items, load, resolve);
    for i := 0 to |items|
      invariant results == Pushed(outcomes[..i])
    {
      var r, _ := ScrapeDetail(items[i], load(i, items[i]), resolve);
      assert r == outcomes[i];
      PushedSnoc(outcomes, i);
      if r.Some? {
        results := results + [r.value];
      }
    }
    assert outcomes[..|items|] == outcomes;
  }

  /** Pushing distributes over consecutive runs of visits, so a failed visit between two runs
      only loses its own result. */
  lemma {:induction false} PushedAppend(a: seq<Option<Scraped>>, b: seq<Option<Scraped>>)
    ensures Pushed(a + b) == Pushed(a) + Pushed(b)
    decreases |b|
  {
    if b != [] {
      var b' := b[..|b| - 1];
      assert (a + b)[..|a + b| - 1] == a + b';
      PushedAppend(a, b');
    } else {
      assert a + b == a;
    }
  }

  /** A visit that threw adds nothing; the visits before and after it are unaffected. */
  lemma FailedVisitSkipped(a: seq<Option<Scraped>>, b: seq<Option<Scraped>>)
    ensures Pushed(a + [None] + b) == Pushed(a) + Pushed(b)
  {
    PushedAppend(a + [None], b);
    PushedAppend(a, [None]);
    assert Pushed([None]) == [];
  }

  /** At most one result per visit, and a result present exactly when some visit produced it. */
  lemma {:induction false} PushedMembers(outcomes: seq<Option<Scraped>>, r: Scraped)
    ensures |Pushed(outcomes)| <= |outcomes|
    ensures r in Pushed(outcomes) <==> Some(r) in outcomes
    decreases |outcomes|
  {
    if outcomes != [] {
      var init := outcomes[..|outcomes| - 1];
      PushedMembers(init, r);
      assert outcomes == init + [outcomes[|outcomes| - 1]];
    }
  }

  /** The whole scraper run: collect, visit, save. */
  method Crawl(store: TheaterPlayStore, hrefs: seq<Option<string>>,
               load: (nat, string) -> DetailPage, resolve: string -> string)
    returns (results: seq<Scraped>)
    requires store.Valid()
    modifies store
    ensures store.Valid()
    ensures results == Pushed(Outcomes(CollectedUrls(hrefs, resolve), load, resolve))
    ensures store.docs == SaveAll(old(store.docs), results)
  {
    var items := CollectDetailUrls(hrefs, resolve);
    results := ScrapeAll(items, load, resolve);
    store.SaveResults(results);
  }
}
