/** The fetchers that get a resource from a backend: `FetcherHttp` (a
    conditional GET), `FetcherFtp` (an anonymous FTP listing) and `FetcherPool`,
    which picks one by the URL's protocol. The remote side is a parameter: the
    HTTP client is a function from request to response, the FTP world a
    function from host to site. */
module Fetchers {
  import opened Common
  import opened Urls

  /** `FetchedResource` as `IOHandler` reads it: whether there is a newer
      version, the content type and the announced length (each of whose
      lookups may throw), the remote timestamp (0 when unknown), and the bytes
      its input stream delivers, None when that stream is null. */
  datatype FetchedResource = FetchedResource(
    modified: bool,
    contentType: Result<Option<string>, Exception>,
    lastModified: int,
    contentLength: Result<int, Exception>,
    body: Option<seq<byte>>)

  // ---------------------------------------------------------------- HTTP

  /** The `HttpGet` the fetcher sends: the URL, the User-Agent header and the
      If-Modified-Since header, as the timestamp it is formatted from. */
  datatype HttpGet = HttpGet(uri: string, userAgent: string, ifModifiedSince: Option<int>)

  /** The entity of an HTTP response: its announced length and its bytes. */
  datatype HttpEntity = HttpEntity(contentLength: int, content: seq<byte>)

  /** What the HTTP client returns: the status code, the Content-Type header,
      the Last-Modified header as a parsed date (None when it is missing or does
      not parse), and the entity, which HttpClient leaves null for a response
      that carries no body, such as a 304. */
  datatype HttpResponse = HttpResponse(
    status: int,
    contentType: Option<string>,
    lastModified: Option<int>,
    entity: Option<HttpEntity>)

  /** What became of the HTTP exchange when `fetch` returns: no response
      arrived, the connection was released (404), the response was closed (an
      IOException escaped) or it is left open for the caller to read and close. */
  datatype Connection = NoResponse | Released | Closed | Open

  datatype HttpFetched = HttpFetched(result: Result<FetchedResource, Exception>, connection: Connection)

  const AgentPrefix: string := "Japt-Proxy/"

  /** `Util.USER_AGENT`: the proxy's name and the version read from its resources. */
  function ProxyUserAgent(version: string): string {
    AgentPrefix + version
  }

  /** The User-Agent sent upstream: the client's agent (empty when absent), a
      space and the proxy's agent, trimmed. */
  function OutgoingUserAgent(original: Option<string>, version: string): string {
    Trim((if original.Some? then original.value else "") + " " + ProxyUserAgent(version))
  }

  /** The proxy's own agent always survives the trimming. */
  lemma UserAgentKeepsProxyAgent(original: Option<string>, version: string)
    ensures ContainsInfix(OutgoingUserAgent(original, version), AgentPrefix)
  {
    var o := if original.Some? then original.value else "";
    var agent := ProxyUserAgent(version);
    var s := o + " " + agent;
    var k, n := |o| + 1, |AgentPrefix|;
    assert agent[..n] == AgentPrefix;
    assert s[k..k + n] == agent[..n];
    assert s[k] == agent[0] == 'J';
    assert s[k + n - 1] == agent[n - 1] == '/';
    TrimKeepsInner(s, k, n);
  }

  /** `trim` keeps a stretch that starts and ends with characters it does not remove. */
  lemma TrimKeepsInner(s: string, k: nat, n: nat)
    requires 0 < n && k + n <= |s|
    requires !IsTrimmable(s[k]) && !IsTrimmable(s[k + n - 1])
    ensures ContainsInfix(Trim(s), s[k..k + n])
  {
    var i := TrimStartIndex(s, 0);
    var j := TrimEndIndex(s, i, |s|);
    assert Trim(s) == s[i..j];
    assert i <= k;
    assert k + n <= j;
    var r, w := s[i..j], s[k..k + n];
    forall m | 0 <= m < n
      ensures r[k - i + m] == w[m]
    {
      assert r[k - i + m] == s[k + m];
    }
    assert r[k - i..k - i + n] == w;
    assert OccursAt(r, w, k - i);
  }

  /** The request for `url`: If-Modified-Since is sent exactly when the local
      copy has a timestamp. */
  function HttpRequestFor(url: Url, lastModified: int, originalUserAgent: Option<string>, version: string): (r: HttpGet)
    ensures r.ifModifiedSince.Some? <==> lastModified != 0
    ensures r.ifModifiedSince.Some? ==> r.ifModifiedSince.value == lastModified
    ensures r.uri == Format(url)
  {
    HttpGet(Format(url), OutgoingUserAgent(originalUserAgent, version),
            if lastModified != 0 then Some(lastModified) else None)
  }

  /** `FetcherHttp.fetch`: 404 is ResourceUnavailableException, any other status
      but 200 and 304 an IOException; otherwise the resource, modified unless the
      request was conditional and the server answered 304. Its length and its
      stream are read from the entity, so without one `getContentLength`
      throws a NullPointerException and the stream is null. */
  function HttpFetch(execute: HttpGet -> Option<HttpResponse>, url: Url, lastModified: int,
                     originalUserAgent: Option<string>, version: string): (r: HttpFetched)
    ensures var response := execute(HttpRequestFor(url, lastModified, originalUserAgent, version));
            (r.result.Ok? <==> response.Some? && (response.value.status == 200 || response.value.status == 304))
            && (r.result == Err(ResourceUnavailable) <==> response.Some? && response.value.status == 404)
            && (r.result.Err? ==> r.result.error == ResourceUnavailable || r.result.error == IOException)
            && (r.result.Ok? ==>
                  r.result.value.modified == (lastModified == 0 || response.value.status != 304)
                  && (var entity := response.value.entity;
                      (entity.Some? ==> r.result.value.body == Some(entity.value.content)
                                        && r.result.value.contentLength == Ok(entity.value.contentLength))
                      && (entity.None? ==> r.result.value.body.None?
                                           && r.result.value.contentLength == Err(NullPointer))))
    ensures r.connection == Open <==> r.result.Ok?
    ensures r.connection == Released <==> r.result == Err(ResourceUnavailable)
    ensures r.connection == NoResponse ==> r.result == Err(IOException)
  {
    var response := execute(HttpRequestFor(url, lastModified, originalUserAgent, version));
    if response.None? then HttpFetched(Err(IOException), NoResponse)
    else
      var status := response.value.status;
      if status == 404 then HttpFetched(Err(ResourceUnavailable), Released)
      else if status != 200 && status != 304 then HttpFetched(Err(IOException), Closed)
      else
        var lastModifiedHeader := response.value.lastModified;
        var entity := response.value.entity;
        HttpFetched(Ok(FetchedResource(
                         lastModified == 0 || status != 304,
                         Ok(response.value.contentType),
                         if lastModifiedHeader.Some? then lastModifiedHeader.value else 0,
                         if entity.Some? then Ok(entity.value.contentLength) else Err(NullPointer),
                         if entity.Some? then Some(entity.value.content) else None)),
                    Open)
  }

  /** A resource is reported unmodified only for a conditional request that the
      server answered with 304. */
  lemma HttpUnmodifiedOnlyWhenConditional(execute: HttpGet -> Option<HttpResponse>, url: Url, lastModified: int,
                                          originalUserAgent: Option<string>, version: string)
    requires HttpFetch(execute, url, lastModified, originalUserAgent, version).result.Ok?
    requires !HttpFetch(execute, url, lastModified, originalUserAgent, version).result.value.modified
    ensures var request := HttpRequestFor(url, lastModified, originalUserAgent, version);
            request.ifModifiedSince == Some(lastModified) && execute(request).value.status == 304
  {
  }

  /** HttpClient gives a 304 no entity, so the resource of a conditional
      request answered 304 is reported unmodified but has no length: asking
      for it is a NullPointerException. */
  lemma NotModifiedHasNoLength(execute: HttpGet -> Option<HttpResponse>, url: Url, lastModified: int,
                               originalUserAgent: Option<string>, version: string)
    requires lastModified != 0
    requires var response := execute(HttpRequestFor(url, lastModified, originalUserAgent, version));
             response.Some? && response.value.status == 304 && response.value.entity.None?
    ensures var r := HttpFetch(execute, url, lastModified, originalUserAgent, version).result;
            r.Ok? && !r.value.modified && r.value.contentLength == Err(NullPointer) && r.value.body.None?
  {
  }

  // ---------------------------------------------------------------- FTP

  /** A file an FTP listing shows: its timestamp and size. */
  datatype FtpFile = FtpFile(timestamp: int, size: int)

  /** An FTP server as the fetcher sees it: whether `connect` succeeds, whether
      it lets `anonymous` in, what `listFiles` returns for a path, and what it
      streams for a RETR without a file name, which is what
      `retrieveFileStream` of the never assigned resource name sends (None
      when the server refuses it and the stream is null). */
  datatype FtpSite = FtpSite(reachable: bool, anonymousLogin: bool, listing: string -> seq<FtpFile>,
                             unnamedRetrieval: Option<seq<byte>>)

  /** The outcome of `FetcherFtp.fetch` and whether the client is still connected. */
  datatype FtpFetched = FtpFetched(result: Result<FetchedResource, Exception>, connected: bool)

  /** `FetcherFtp.fetch`: connect to the URL's host, log in anonymously and list
      the URL's path; no file is ResourceUnavailableException, more than one an
      IOException. The resource is modified unless the local copy is at least
      as new as the remote one. The fetched resource's own name is never set, so
      its content type is the lookup `mimetypeOfNull` of a null name and its
      stream the server's answer to a RETR without a name. Only an IOException
      disconnects the client. */
  function FtpFetch(sites: string -> FtpSite, url: Url, lastModified: int,
                    mimetypeOfNull: Result<Option<string>, Exception>): (r: FtpFetched)
    ensures var site := sites(url.host);
            var files := site.listing(url.path);
            (r.result.Ok? <==> site.reachable && site.anonymousLogin && |files| == 1)
            && (r.result == Err(ResourceUnavailable) <==> site.reachable && site.anonymousLogin && files == [])
            && (r.result.Err? ==> r.result.error == ResourceUnavailable || r.result.error == IOException)
            && (r.result.Ok? ==>
                  r.result.value.modified == (lastModified == 0 || lastModified < files[0].timestamp)
                  && r.result.value.lastModified == files[0].timestamp
                  && r.result.value.contentLength == Ok(files[0].size)
                  && r.result.value.body == site.unnamedRetrieval)
    ensures r.connected <==> r.result.Ok? || r.result == Err(ResourceUnavailable)
  {
    var site := sites(url.host);
    if !site.reachable then FtpFetched(Err(IOException), false)
    else if !site.anonymousLogin then FtpFetched(Err(IOException), false)
    else
      var files := site.listing(url.path);
      if |files| == 0 then FtpFetched(Err(ResourceUnavailable), true)
      else if |files| > 1 then FtpFetched(Err(IOException), false)
      else
        var file := files[0];
        FtpFetched(Ok(FetchedResource(lastModified == 0 || lastModified < file.timestamp,
                                      mimetypeOfNull, file.timestamp, Ok(file.size), site.unnamedRetrieval)),
                   true)
  }

  /** Equal timestamps count as unmodified: a copy as new as the remote file
      that has a timestamp is not fetched again. */
  lemma FtpEqualTimestampUnmodified(sites: string -> FtpSite, url: Url, lastModified: int,
                                    mimetypeOfNull: Result<Option<string>, Exception>)
    requires FtpFetch(sites, url, lastModified, mimetypeOfNull).result.Ok?
    requires lastModified != 0 && lastModified == sites(url.host).listing(url.path)[0].timestamp
    ensures !FtpFetch(sites, url, lastModified, mimetypeOfNull).result.value.modified
  {
  }

  // ---------------------------------------------------------------- the pool

  /** A configured fetcher, together with the remote world it talks to. */
  datatype Fetcher =
    | HttpFetcher(execute: HttpGet -> Option<HttpResponse>, version: string)
    | FtpFetcher(sites: string -> FtpSite, mimetypeOfNull: Result<Option<string>, Exception>)

  /** `Fetcher.fetch` of either kind. */
  function Fetch(f: Fetcher, url: Url, lastModified: int, originalUserAgent: Option<string>): (r: Result<FetchedResource, Exception>)
    ensures r.Err? ==> r.error == ResourceUnavailable || r.error == IOException
    ensures r.Ok? && lastModified == 0 ==> r.value.modified
  {
    match f
    case HttpFetcher(execute, version) => HttpFetch(execute, url, lastModified, originalUserAgent, version).result
    case FtpFetcher(sites, mimetypeOfNull) => FtpFetch(sites, url, lastModified, mimetypeOfNull).result
  }

  /** `FetcherPool.getInstance(url)`: the fetcher registered for the URL's
      protocol, or null. */
  function GetInstance(fetchers: map<string, Fetcher>, url: Url): (r: Option<Fetcher>)
    ensures r.Some? <==> url.protocol in fetchers
    ensures r.Some? ==> r.value == fetchers[url.protocol]
  {
    if url.protocol in fetchers then Some(fetchers[url.protocol]) else None
  }
}
