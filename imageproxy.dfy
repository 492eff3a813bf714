/** The image proxy of routes/imageProxy.js: the request headers it forges for the upstream
    host and the response it sends back. */
module ImageProxy {
  import opened JsString

  /** The parts of a parsed `URL` the proxy reads. */
  datatype Url = Url(protocol: string, hostname: string, href: string)

  /** The host the proxy recognises, in lower case. */
  const TimeticketHost: string := "timeticket.co.kr"

  /** The regular expression `/(^|\.)timeticket\.co\.kr$/i` matches at `i`: the anchor
      alternative holds there (start of input, or a dot just before) and the rest of the
      hostname equals the host literal, ignoring ASCII case. */
  predicate HostMatchAt(h: string, i: nat) {
    i <= |h| && (i == 0 || h[i - 1] == '.') && Lower(h[i..]) == TimeticketHost
  }

  /** `.test(hostname)`: some position matches (routes/imageProxy.js:10). */
  predicate HostRegexTest(h: string) {
    exists i :: 0 <= i <= |h| && HostMatchAt(h, i)
  }

  /** The intended rule: the hostname is the host itself or one of its subdomains, ignoring
      ASCII case. */
  predicate IsTimeticketHost(h: string) {
    Lower(h) == TimeticketHost || EndsWith(Lower(h), "." + TimeticketHost)
  }

  /** Lower-casing commutes with dropping a prefix. */
  lemma LowerSuffix(h: string, i: nat)
    requires i <= |h|
    ensures Lower(h[i..]) == Lower(h)[i..]
  {
    forall k | 0 <= k < |h| - i
      ensures Lower(h[i..])[k] == Lower(h)[i..][k]
    {
      assert h[i..][k] == h[i + k];
    }
  }

  /** Only a dot lower-cases to a dot. */
  lemma LowerDot(c: char)
    ensures LowerChar(c) == '.' <==> c == '.'
  {
  }

  /** The regular expression accepts exactly the host and its subdomains. */
  lemma HostRegexIff(h: string)
    ensures HostRegexTest(h) <==> IsTimeticketHost(h)
  {
    var low := Lower(h);
    var dotted := "." + TimeticketHost;
    if HostRegexTest(h) {
      var i :| 0 <= i <= |h| && HostMatchAt(h, i);
      LowerSuffix(h, i);
      if i > 0 {
        LowerDot(h[i - 1]);
        assert low[|low| - |dotted|..] == [low[i - 1]] + low[i..];
      }
    }
    if IsTimeticketHost(h) {
      if low == TimeticketHost {
        LowerSuffix(h, 0);
        assert HostMatchAt(h, 0);
      } else {
        var i := |h| - |TimeticketHost|;
        LowerSuffix(h, i);
        assert low[i..] == dotted[1..];
        LowerDot(h[i - 1]);
        assert low[i - 1] == dotted[0];
        assert HostMatchAt(h, i);
      }
    }
  }

  /** A hostname that ends with the host's name without a dot boundary, such as
      `faketimeticket.co.kr`, is not recognised. */
  lemma NoDotBoundaryRejected(prefix: string)
    requires |prefix| > 0 && prefix[|prefix| - 1] != '.'
    ensures !HostRegexTest(prefix + TimeticketHost)
  {
    var h := prefix + TimeticketHost;
    HostRegexIff(h);
    var low := Lower(h);
    LowerDot(h[|prefix| - 1]);
    assert low[|prefix| - 1] != '.';
    assert |low| > |TimeticketHost|;
  }

  /** Every subdomain is recognised, whatever the case of the host's letters. */
  lemma SubdomainAccepted(sub: string, host: string)
    requires Lower(host) == TimeticketHost
    ensures HostRegexTest(sub + "." + host)
  {
    var h := sub + "." + host;
    var i := |sub| + 1;
    assert h[i..] == host;
    assert HostMatchAt(h, i);
  }

  /** The headers sent upstream. */
  datatype Headers = Headers(userAgent: string, accept: string, acceptLanguage: string,
                             referer: string, origin: string)

  const UserAgent: string :=
    "Mozilla/5.0 (Macintosh; Intel Mac OS X 10_15_7) AppleWebKit/537.36 (KHTML, like Gecko) Chrome/124 Safari/537.36"
  const AcceptImages: string := "image/avif,image/webp,image/apng,image/*,*/*;q=0.8"
  const AcceptLanguage: string := "ko-KR,ko;q=0.9,en-US;q=0.8"
  const TimeticketOrigin: string := "https://timeticket.co.kr/"

  /** `spoofHeaders(u)` (routes/imageProxy.js:9-19): a browser's headers with Referer and Origin
      set to the recognised site, or else to the URL's own origin without port or path. */
  function SpoofHeaders(u: Url): (r: Headers)
    ensures r.referer == r.origin
    ensures r.userAgent == UserAgent && r.accept == AcceptImages && r.acceptLanguage == AcceptLanguage
    ensures IsTimeticketHost(u.hostname) ==> r.origin == TimeticketOrigin
    ensures !IsTimeticketHost(u.hostname) ==> r.origin == u.protocol + "//" + u.hostname + "/"
  {
    HostRegexIff(u.hostname);
    var origin := if HostRegexTest(u.hostname) then TimeticketOrigin else u.protocol + "//" + u.hostname + "/";
    Headers(UserAgent, AcceptImages, AcceptLanguage, origin, origin)
  }

  /** Two URLs on the same protocol and host get the same headers, whatever their port and path. */
  lemma HeadersIgnorePath(u: Url, v: Url)
    requires u.protocol == v.protocol && u.hostname == v.hostname
    ensures SpoofHeaders(u) == SpoofHeaders(v)
  {
  }

  /** What `fetch` gave: a thrown error, or a response with its status and two headers. */
  datatype Upstream =
    | Threw
    | Answered(status: nat, contentType: Option<string>, contentLength: Option<string>)

  /** `upstream.ok`: a 2xx status. */
  predicate Ok(status: nat) {
    200 <= status <= 299
  }

  /** The request made upstream. */
  datatype Request = Request(href: string, headers: Headers)

  /** A response body: a text message, or the piped upstream body. */
  datatype Body = Text(message: string) | Piped

  /** What the client receives. */
  datatype Reply = Reply(status: nat, headers: map<string, string>, body: Body)

  /** The request made (None when the handler returned before fetching) and the reply. */
  datatype Exchange = Exchange(request: Option<Request>, reply: Reply)

  const CacheControl: string := "public, max-age=86400, s-maxage=86400"

  /** GET /image-proxy (routes/imageProxy.js:21-38). `url` is the query parameter, `parse` stands
      for `new URL` (None when it throws) and `upstream` for what the fetch of the request gives. */
  function Handle(url: Option<string>, parse: string -> Option<Url>, upstream: Upstream): (e: Exchange)
    ensures (url.None? || url.value == "") ==> e == Exchange(None, Reply(400, map[], Text("Missing url")))
    ensures url.Some? && url.value != "" && parse(url.value).None? ==>
      e == Exchange(None, Reply(400, map[], Text("Bad url")))
    ensures url.Some? && url.value != "" && parse(url.value).Some? ==>
      e.request == Some(Request(parse(url.value).value.href, SpoofHeaders(parse(url.value).value)))
    ensures e.request.Some? && upstream.Threw? ==> e.reply == Reply(502, map[], Text("Bad gateway (proxy failed)"))
    ensures e.request.Some? && upstream.Answered? && !Ok(upstream.status) ==>
      e.reply == Reply(upstream.status, map[], Text("Upstream " + NatToString(upstream.status)))
    ensures e.request.Some? && upstream.Answered? && Ok(upstream.status) ==>
      && e.reply.status == 200 && e.reply.body == Piped
      && "Content-Type" in e.reply.headers && "Cache-Control" in e.reply.headers
      && e.reply.headers["Content-Type"] ==
           (if upstream.contentType.Some? && upstream.contentType.value != "" then upstream.contentType.value
            else "image/jpeg")
      && ("Content-Length" in e.reply.headers <==> upstream.contentLength.Some? && upstream.contentLength.value != "")
      && ("Content-Length" in e.reply.headers ==> e.reply.headers["Content-Length"] == upstream.contentLength.value)
      && e.reply.headers["Cache-Control"] == CacheControl
  {
    if url.None? || url.value == "" then Exchange(None, Reply(400, map[], Text("Missing url")))
    else match parse(url.value)
      case None => Exchange(None, Reply(400, map[], Text("Bad url")))
      case Some(u) =>
        var req := Request(u.href, SpoofHeaders(u));
        match upstream
        case Threw => Exchange(Some(req), Reply(502, map[], Text("Bad gateway (proxy failed)")))
        case Answered(status, contentType, contentLength) =>
          if !Ok(status) then Exchange(Some(req), Reply(status, map[], Text("Upstream " + NatToString(status))))
          else
            var typed := map["Content-Type" := if contentType.Some? && contentType.value != "" then contentType.value else "image/jpeg"];
            var sized := if contentLength.Some? && contentLength.value != "" then typed["Content-Length" := contentLength.value] else typed;
            Exchange(Some(req), Reply(200, sized["Cache-Control" := CacheControl], Piped))
  }

  /** A missing or unparseable URL is answered with 400 whatever the upstream would have done,
      so no fetch is made. */
  lemma BadInputNeverFetches(url: Option<string>, parse: string -> Option<Url>, a: Upstream, b: Upstream)
    requires url.None? || url.value == "" || parse(url.value).None?
    ensures Handle(url, parse, a) == Handle(url, parse, b)
    ensures Handle(url, parse, a).request.None? && Handle(url, parse, a).reply.status == 400
  {
  }
}
