/** `JaptProxy`: turns the servlet request into a `RequestedData`, rebuilds the
    URL the client asked for, and hands the request to the finder of its
    backend's type. */
module JaptProxies {
  import opened Common
  import opened FileSystems
  import opened Requests
  import opened Backends
  import opened Configurations
  import opened PoolFiles
  import opened IOHandlers
  import opened ResourceLocks
  import opened Finders

  /** `getURL(req, serverOnly, configuration)`: scheme, `://`, the server name
      or its remap, and `:port` unless the port is 80 or 443; unless
      `serverOnly`, the context path, the servlet path, the path info and `?`
      with the query string, each of the last two only when present. */
  function GetUrl(req: ServletRequest, serverOnly: bool, configuration: Configuration): string {
    var remap := configuration.Remap(req.serverName);
    var serverName := if remap.Some? then remap.value else req.serverName;
    var server := req.scheme + "://" + serverName
                  + (if req.serverPort != 80 && req.serverPort != 443 then ":" + IntToDecimal(req.serverPort) else "");
    if serverOnly then server
    else
      server + req.contextPath + req.servletPath
      + (if req.pathInfo.Some? then req.pathInfo.value else "")
      + (if req.queryString.Some? then "?" + req.queryString.value else "")
  }

  /** The server part of a URL the proxy rebuilds: the host it is addressed as
      (after remapping) and the port written only when it is not a default. */
  function ServerPart(req: ServletRequest, configuration: Configuration): string {
    var remap := configuration.Remap(req.serverName);
    req.scheme + "://" + (if remap.Some? then remap.value else req.serverName)
  }

  /** The full URL extends the server-only URL by the request's own path and
      query; the server-only URL names the remapped host and leaves the
      default ports 80 and 443 out, writing any other port in decimal. */
  lemma GetUrlParts(req: ServletRequest, configuration: Configuration)
    ensures var host := GetUrl(req, true, configuration);
            GetUrl(req, false, configuration)
              == host + req.contextPath + req.servletPath
                 + (if req.pathInfo.Some? then req.pathInfo.value else "")
                 + (if req.queryString.Some? then "?" + req.queryString.value else "")
    ensures req.serverPort == 80 || req.serverPort == 443 ==>
              GetUrl(req, true, configuration) == ServerPart(req, configuration)
    ensures req.serverPort >= 0 && req.serverPort != 80 && req.serverPort != 443 ==>
              var host := GetUrl(req, true, configuration);
              var prefix := ServerPart(req, configuration) + ":";
              |prefix| < |host| && host[..|prefix|] == prefix
              && AllDigitChars(host[|prefix|..]) && DecimalValue(host[|prefix|..]) == req.serverPort
  {
    if req.serverPort >= 0 && req.serverPort != 80 && req.serverPort != 443 {
      var host := GetUrl(req, true, configuration);
      var prefix := ServerPart(req, configuration) + ":";
      assert host == prefix + NatToDecimal(req.serverPort);
      assert host[|prefix|..] == NatToDecimal(req.serverPort);
      DecimalRoundTrip(req.serverPort);
    }
  }

  /** `buildRequestedData(request, configuration)`: the path info must be
      present, free of `/../`, name a backend between the leading character and
      the next `/`, and continue after that `/`. The backend is what lies
      between; the target starts at that `/`. */
  function BuildRequestedData(req: ServletRequest, configuration: Configuration): (r: Result<RequestedData, Exception>)
    ensures r.Err? ==> r.error == InvalidRequest
    ensures r.Ok? ==> req.pathInfo.Some? && |req.pathInfo.value| >= 1
    ensures r.Ok? ==>
              var resource := req.pathInfo.value;
              var d := r.value;
              d.requestedResource == resource
              && d.requestedBackend != [] && '/' !in d.requestedBackend
              && |d.requestedTarget| >= 2 && d.requestedTarget[0] == '/'
              && resource == resource[..1] + d.requestedBackend + d.requestedTarget
              && !ContainsInfix(resource, "/../")
    ensures r.Ok? ==>
              r.value.requestModifiedSince == req.ifModifiedSince && r.value.userAgent == req.userAgent
              && r.value.url == GetUrl(req, false, configuration) && r.value.hostUrl == GetUrl(req, true, configuration)
              && r.value.scheme == req.scheme && r.value.serverName == req.serverName
              && r.value.serverPort == req.serverPort
  {
    if req.pathInfo.None? then Err(InvalidRequest)
    else
      var resource := req.pathInfo.value;
      if ContainsInfix(resource, "/../") then Err(InvalidRequest)
      else
        var endIdx := IndexOfFrom(resource, '/', 1);
        if endIdx <= 1 then Err(InvalidRequest)
        else if |resource| == endIdx + 1 then Err(InvalidRequest)
        else
          SplitAtBackend(resource, endIdx);
          Ok(RequestedData(resource, req.ifModifiedSince, resource[endIdx..], resource[1..endIdx], req.userAgent,
                           GetUrl(req, false, configuration), GetUrl(req, true, configuration),
                           req.scheme, req.serverName, req.serverPort))
  }

  /** The parts `buildRequestedData` cuts a path into at the first `/` after
      its leading character. */
  lemma SplitAtBackend(resource: string, endIdx: int)
    requires 1 < endIdx && endIdx + 1 < |resource| && resource[endIdx] == '/'
    requires forall i :: 1 <= i < endIdx ==> resource[i] != '/'
    ensures '/' !in resource[1..endIdx]
    ensures resource == resource[..1] + resource[1..endIdx] + resource[endIdx..]
  {
    assert resource == resource[..1] + resource[1..endIdx] + resource[endIdx..];
  }

  /** A request path is rebuilt from its parts: `/backend/target…` with a
      backend free of `/` and no `/../` anywhere is split back into that
      backend and that target. */
  lemma {:induction false} RequestPathRoundTrip(req: ServletRequest, configuration: Configuration,
                                                backend: string, target: string)
    requires backend != [] && '/' !in backend
    requires |target| >= 2 && target[0] == '/'
    requires req.pathInfo == Some("/" + backend + target)
    requires !ContainsInfix("/" + backend + target, "/../")
    ensures BuildRequestedData(req, configuration).Ok?
    ensures BuildRequestedData(req, configuration).value.requestedBackend == backend
    ensures BuildRequestedData(req, configuration).value.requestedTarget == target
  {
    var resource := "/" + backend + target;
    var k := 1 + |backend|;
    assert resource[k] == '/';
    forall i | 1 <= i < k
      ensures resource[i] != '/'
    {
      assert resource[i] == backend[i - 1];
    }
    assert IndexOfFrom(resource, '/', 1) == k;
    assert resource[1..k] == backend;
    assert resource[k..] == target;
  }

  /** The paths `buildRequestedData` turns away: none at all, one with a `/../`
      segment, one whose backend is empty (`//…`), and one that stops at the
      slash after the backend. */
  lemma {:induction false} RejectedRequestPaths(req: ServletRequest, configuration: Configuration, backend: string)
    ensures req.pathInfo.None? ==> BuildRequestedData(req, configuration) == Err(InvalidRequest)
    ensures req.pathInfo.Some? && ContainsInfix(req.pathInfo.value, "/../") ==>
              BuildRequestedData(req, configuration) == Err(InvalidRequest)
    ensures req.pathInfo.Some? && |req.pathInfo.value| >= 2 && req.pathInfo.value[..2] == "//" ==>
              BuildRequestedData(req, configuration) == Err(InvalidRequest)
    ensures '/' !in backend && req.pathInfo == Some("/" + backend + "/") ==>
              BuildRequestedData(req, configuration) == Err(InvalidRequest)
  {
    if req.pathInfo.Some? && |req.pathInfo.value| >= 2 && req.pathInfo.value[..2] == "//" {
      var resource := req.pathInfo.value;
      assert resource[1] == "//"[1];
      assert IndexOfFrom(resource, '/', 1) == 1;
    }
    if '/' !in backend && req.pathInfo == Some("/" + backend + "/") {
      var resource := "/" + backend + "/";
      var k := 1 + |backend|;
      assert resource[k] == '/';
      forall i | 1 <= i < k
        ensures resource[i] != '/'
      {
        assert resource[i] == backend[i - 1];
      }
      assert IndexOfFrom(resource, '/', 1) == k;
    }
  }

  /** The servlet's request handler: the configuration and one finder per
      backend type. */
  class JaptProxy {
    const configuration: Configuration
    const finders: map<BackendType, RepoPackageFinder>

    constructor Init(configuration: Configuration, finders: map<BackendType, RepoPackageFinder>)
      ensures this.configuration == configuration && this.finders == finders
    {
      this.configuration := configuration;
      this.finders := finders;
    }

    /** The finders share the proxy's configuration and its file system, and
        none of them holds a lock. */
    ghost predicate Ready()
      reads set t | t in finders :: finders[t].table
      reads set t, l | t in finders && l in LockObjects(finders[t].table.locks) :: l
    {
      forall t | t in finders ::
        finders[t].configuration == configuration && finders[t].packagePool.fs == configuration.fs
        && finders[t].table.Valid() && HoldsNone(finders[t].table)
    }

    /** What `findSendSave` of finder `f` leaves when the request's backend
        is `backend` and the disk was `d`, with `lastChecked` and `pending` the
        finder's version checks and pending set before: the pool file `pool`,
        if the part before the mirrors resolves one, and then the disk, the
        response, the result, the version checks and the pending set after
        trying the mirrors. */
    ghost predicate Forwarded(f: RepoPackageFinder, d: Disk, backend: BackendView,
                              lastChecked: map<string, int>, pending: set<PoolFile>,
                              data: RequestedData, reply: Reply, now: nat,
                              r: Result<(), Exception>, out: Reply, pool: Option<PoolFile>)
      reads configuration.fs, f.ioHandler, f.packagePool
    {
      var res := ResolvePool(d, backend, data.requestedTarget);
      (pool.None? <==> res.result.Err?)
      && (pool.None? ==>
            r == Err(res.result.error) && out == reply && configuration.fs.disk == res.disk
            && f.ioHandler.lastChecked == lastChecked && f.packagePool.filesToRemove == pending)
      && (pool.Some? ==>
            pool.value.resource == res.result.value.0
            && var o := TryMirrors(SendAndSaveOf(f.ioHandler.fetchers, f.ioHandler.mimetype, data, pool.value, now),
                                   lastChecked, res.disk, Targets(res.result.value.1, data.requestedTarget),
                                   reply, configuration.maxVersions.Some?);
            r == o.result && out == o.reply && configuration.fs.disk == o.disk
            && f.ioHandler.lastChecked == o.lastChecked
            && f.packagePool.filesToRemove == pending + (if o.schedule then {pool.value} else {}))
    }

    /** What `handleRequest` promises once the request is parsed into `data`,
        between the state before and the state after: `getBackend` resolves
        the backend as `Lookup` does, and `backend` is that backend; a null
        backend is UnknownBackendException, a type without a finder
        IllegalStateException, both with the response untouched; otherwise
        `finder` is the finder for its type, and the outcome is what that
        finder's `findSendSave` leaves. */
    twostate predicate Dispatched(data: RequestedData, reply: Reply, now: nat,
                                  new r: Result<(), Exception>, new out: Reply, new backend: Option<Backend>,
                                  new finder: Option<RepoPackageFinder>, new pool: Option<PoolFile>)
      reads configuration.fs, if backend.Some? then {backend.value} else {}
      reads set t | t in finders :: finders[t].ioHandler
      reads set t | t in finders :: finders[t].packagePool
    {
      var looked := Lookup(old(configuration.fs.disk), configuration.cacheDir,
                           old(configuration.Stored(data.serverName)), data);
      (backend.Some? <==> looked.backend.Some?)
      && (backend.Some? ==> backend.value.View() == looked.backend.value)
      && (looked.backend.None? ==>
            r == Err(UnknownBackend) && out == reply && finder.None? && configuration.fs.disk == looked.disk)
      && (looked.backend.Some? && looked.backend.value.backendType !in finders ==>
            r == Err(IllegalState) && out == reply && finder.None? && configuration.fs.disk == looked.disk)
      && (looked.backend.Some? && looked.backend.value.backendType in finders ==>
            var f := finders[looked.backend.value.backendType];
            finder == Some(f)
            && Forwarded(f, looked.disk, looked.backend.value, old(f.ioHandler.lastChecked),
                         old(f.packagePool.filesToRemove), data, reply, now, r, out, pool))
    }

    /** `handleRequest(req, res)`: an invalid request is rejected with the
        response untouched; any other is dispatched. */
    method HandleRequest(req: ServletRequest, reply: Reply, now: nat)
      returns (r: Result<(), Exception>, out: Reply, ghost backend: Option<Backend>,
               ghost finder: Option<RepoPackageFinder>, ghost pool: Option<PoolFile>)
      requires Ready()
      modifies configuration, configuration.fs
      modifies set t | t in finders :: finders[t].packagePool
      modifies set t | t in finders :: finders[t].ioHandler
      modifies set t | t in finders :: finders[t].table
      modifies set t, l | t in finders && l in LockObjects(finders[t].table.locks) :: l
      ensures var d := BuildRequestedData(req, configuration);
              (d.Err? ==> r == Err(d.error) && out == reply && finder.None?
                          && configuration.fs.disk == old(configuration.fs.disk))
              && (d.Ok? ==> Dispatched(d.value, reply, now, r, out, backend, finder, pool))
              && (d.Ok? && d.value.serverName in old(configuration.backendSystems) ==>
                    backend == Some(old(configuration.backendSystems)[d.value.serverName]))
    {
      var data := BuildRequestedData(req, configuration);
      if data.Err? {
        return Err(data.error), reply, None, None, None;
      }
      r, out, backend, finder, pool := Dispatch(data.value, reply, now);
    }

    /** `handleRequest` once the request is parsed: the backend `getBackend`
        resolves for it and the finder for that backend's type. */
    method Dispatch(data: RequestedData, reply: Reply, now: nat)
      returns (r: Result<(), Exception>, out: Reply, ghost backend: Option<Backend>,
               ghost finder: Option<RepoPackageFinder>, ghost pool: Option<PoolFile>)
      requires Ready()
      modifies configuration, configuration.fs
      modifies set t | t in finders :: finders[t].packagePool
      modifies set t | t in finders :: finders[t].ioHandler
      modifies set t | t in finders :: finders[t].table
      modifies set t, l | t in finders && l in LockObjects(finders[t].table.locks) :: l
      ensures Dispatched(data, reply, now, r, out, backend, finder, pool)
      ensures data.serverName in old(configuration.backendSystems) ==>
                backend == Some(old(configuration.backendSystems)[data.serverName])
    {
      backend, finder, pool := None, None, None;
      var resolved := configuration.GetBackend(data);
      backend := resolved;
      if resolved.None? {
        return Err(UnknownBackend), reply, backend, finder, pool;
      }
      var backendType := resolved.value.backendType;
      if backendType !in finders {
        return Err(IllegalState), reply, backend, finder, pool;
      }
      var rpf := finders[backendType];
      finder := Some(rpf);
      r, out, pool := Forward(backendType, resolved.value, data, reply, now);
    }

    /** The call of `findSendSave` of the finder for `backendType`, once the
        request's backend is stored; it leaves every backend, such as the
        ghost `backend`, as it was. */
    method Forward(backendType: BackendType, ghost backend: Backend, data: RequestedData, reply: Reply, now: nat)
      returns (r: Result<(), Exception>, out: Reply, ghost pool: Option<PoolFile>)
      requires Ready() && backendType in finders && configuration.Stored(data.serverName).Some?
      modifies configuration, configuration.fs
      modifies set t | t in finders :: finders[t].packagePool
      modifies set t | t in finders :: finders[t].ioHandler
      modifies set t | t in finders :: finders[t].table
      modifies set t, l | t in finders && l in LockObjects(finders[t].table.locks) :: l
      ensures var f := finders[backendType];
              Forwarded(f, old(configuration.fs.disk), old(configuration.Stored(data.serverName)).value,
                        old(f.ioHandler.lastChecked), old(f.packagePool.filesToRemove), data, reply, now, r, out, pool)
      ensures backend.View() == old(backend.View())
    {
      r, out, pool := finders[backendType].FindSendSave(data, reply, now);
    }
  }
}
