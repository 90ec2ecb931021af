/** `RepoPackageFinder`: serves a request from the mirrors of its backend,
    tried in order until one of them delivers the resource. A mirror that fails
    before the response is committed is skipped; the response is reset first
    when the failure was an IOException. */
module Finders {
  import opened Common
  import opened FileSystems
  import opened Urls
  import opened Requests
  import opened Backends
  import opened Configurations
  import opened Packages
  import opened PoolFiles
  import opened DiskPackagePools
  import opened Fetchers
  import opened ResourceLocks
  import opened IOHandlers

  /** `Util.DEFAULT_BUFFER_SIZE`, the response buffer the servlet sets: the
      response is committed once more than this has been written, if its
      stream was not closed before. */
  const BufferSize: nat := 4096

  /** What `handleBackend` makes of one `sendAndSave`: true (served), false
      (try the next mirror) or an exception it lets through; the response after
      it; and whether the pool file is scheduled for the removal of old versions. */
  datatype Handled = Handled(result: Result<bool, Exception>, reply: Reply, schedule: bool)

  /** A failure `handleBackend` swallows: ResourceUnavailableException,
      InitializationException, and an IOException while nothing is committed. */
  predicate Recoverable(s: Served) {
    s.result.Err?
    && (s.result.error == ResourceUnavailable || s.result.error == Initialization
        || (s.result.error == IOException && !Committed(s.reply, BufferSize)))
  }

  /** `handleBackend` given the outcome `s` of `sendAndSave`. */
  function HandleOutcome(s: Served, maxVersionsSet: bool): (r: Handled)
    ensures r.result == Ok(true) <==> s.result.Ok?
    ensures r.result == Ok(false) <==> Recoverable(s)
    ensures r.result.Err? ==> r.result == Err(s.result.error)
    ensures r.schedule <==> s.result == Ok(false) && maxVersionsSet
    ensures r.reply == if Recoverable(s) && s.result.error == IOException then FreshReply else s.reply
  {
    match s.result
    case Ok(locallyCached) => Handled(Ok(true), s.reply, !locallyCached && maxVersionsSet)
    case Err(e) =>
      if e == ResourceUnavailable || e == Initialization then Handled(Ok(false), s.reply, false)
      else if e == IOException && !Committed(s.reply, BufferSize) then Handled(Ok(false), FreshReply, false)
      else Handled(Err(e), s.reply, false)
  }

  /** The state the mirror loop of `findSendSave` leaves, and whether the pool
      file was scheduled. */
  datatype Outcome = Outcome(lastChecked: map<string, int>, disk: Disk, reply: Reply,
                             result: Result<(), Exception>, schedule: bool)

  /** The mirror URL for the target: `new URL(baseURL + requestedTarget)`. */
  function TargetUrl(base: Url, requestedTarget: string): Result<Url, MalformedUrl> {
    ParseUrl(Format(base) + requestedTarget)
  }

  /** The mirror URLs of a backend for the target, each parsed or malformed. */
  function Targets(urls: seq<Url>, requestedTarget: string): (r: seq<Result<Url, MalformedUrl>>)
    ensures |r| == |urls|
    ensures forall k :: 0 <= k < |urls| ==> r[k] == TargetUrl(urls[k], requestedTarget)
  {
    if urls == [] then [] else [TargetUrl(urls[0], requestedTarget)] + Targets(urls[1..], requestedTarget)
  }

  /** One `sendAndSave` for a mirror URL, from the state it starts in: the
      version checks seen so far, the disk and the response. */
  type Responder = (map<string, int>, Disk, Url, Reply) -> Served

  /** `sendAndSave` of the handler for one request and pool file. */
  function SendAndSaveOf(fetchers: map<string, Fetcher>, mimetype: string -> string, data: RequestedData,
                         pool: PoolFile, now: nat): Responder
  {
    (lastChecked, d, target, reply) => Respond(fetchers, mimetype, lastChecked, d, data, pool, target, reply, now)
  }

  /** `respond` answers as `sendAndSave` does, for every state a mirror may
      find. (The trigger keeps the equation from unfolding `sendAndSave`
      wherever `respond` is applied.) */
  ghost predicate Answers(respond: Responder, fetchers: map<string, Fetcher>, mimetype: string -> string,
                          data: RequestedData, pool: PoolFile, now: nat)
  {
    forall lastChecked, d, target, reply {:trigger Respond(fetchers, mimetype, lastChecked, d, data, pool, target, reply, now)} ::
      respond(lastChecked, d, target, reply) == Respond(fetchers, mimetype, lastChecked, d, data, pool, target, reply, now)
  }

  lemma SendAndSaveOfAnswers(fetchers: map<string, Fetcher>, mimetype: string -> string, data: RequestedData,
                             pool: PoolFile, now: nat)
    ensures Answers(SendAndSaveOf(fetchers, mimetype, data, pool, now), fetchers, mimetype, data, pool, now)
  {
  }

  /** Every answer of `respond` keeps to the pool file's two files, as
      `sendAndSave` does. */
  ghost predicate RespondsWell(respond: Responder, resource: string, tmp: string) {
    forall lastChecked, d, target, reply ::
      WellServed(d, reply, FileSystems.LastModified(d, resource), resource, tmp, respond(lastChecked, d, target, reply))
  }

  lemma SendAndSaveRespondsWell(fetchers: map<string, Fetcher>, mimetype: string -> string, data: RequestedData,
                                pool: PoolFile, now: nat)
    ensures RespondsWell(SendAndSaveOf(fetchers, mimetype, data, pool, now), pool.resource, pool.tmpResource)
  {
    forall lastChecked, d, target, reply
      ensures WellServed(d, reply, FileSystems.LastModified(d, pool.resource), pool.resource, pool.tmpResource,
                         SendAndSaveOf(fetchers, mimetype, data, pool, now)(lastChecked, d, target, reply))
    {
      RespondOutcome(fetchers, mimetype, lastChecked, d, data, pool, target, reply, now);
    }
  }

  /** The mirror loop of `findSendSave` over the mirror URLs `targets`: a URL
      that did not parse throws MalformedURLException, an IOException, out of
      the loop; after the last mirror fails the request is
      ResourceUnavailableException. An empty list of mirrors is left without a
      word. */
  function TryMirrors(respond: Responder, lastChecked: map<string, int>, d: Disk,
                      targets: seq<Result<Url, MalformedUrl>>, reply: Reply, maxVersionsSet: bool): (r: Outcome)
    decreases |targets|
  {
    if targets == [] then Outcome(lastChecked, d, reply, Ok(()), false)
    else
      match targets[0]
      case Err(_) => Outcome(lastChecked, d, reply, Err(IOException), false)
      case Ok(target) =>
        var s := respond(lastChecked, d, target, reply);
        var h := HandleOutcome(s, maxVersionsSet);
        if h.result.Err? then Outcome(s.lastChecked, s.disk, h.reply, Err(h.result.error), false)
        else if h.result.value then Outcome(s.lastChecked, s.disk, h.reply, Ok(()), h.schedule)
        else if |targets| == 1 then Outcome(s.lastChecked, s.disk, h.reply, Err(ResourceUnavailable), false)
        else TryMirrors(respond, s.lastChecked, s.disk, targets[1..], h.reply, maxVersionsSet)
  }

  /** The mirror loop changes only the pool file's two files, and schedules the
      pool file only after storing a new version of it. */
  lemma {:induction false} MirrorsConfined(respond: Responder, resource: string, tmp: string,
                                           lastChecked: map<string, int>, d: Disk,
                                           targets: seq<Result<Url, MalformedUrl>>, reply: Reply, maxVersionsSet: bool)
    requires RespondsWell(respond, resource, tmp)
    ensures var r := TryMirrors(respond, lastChecked, d, targets, reply, maxVersionsSet);
            Confined(d, r.disk, resource, tmp)
            && (r.schedule ==> r.result.Ok? && resource in r.disk.files && tmp !in r.disk.files)
    decreases |targets|
  {
    if targets != [] && targets[0].Ok? {
      var s := respond(lastChecked, d, targets[0].value, reply);
      assert WellServed(d, reply, FileSystems.LastModified(d, resource), resource, tmp, s);
      var h := HandleOutcome(s, maxVersionsSet);
      if h.result == Ok(false) && |targets| > 1 {
        MirrorsConfined(respond, resource, tmp, s.lastChecked, s.disk, targets[1..], h.reply, maxVersionsSet);
      }
    }
  }

  /** A mirror that serves the request ends the loop: the mirrors after it
      are never asked. */
  lemma {:induction false} ServedMirrorEndsLoop(respond: Responder, lastChecked: map<string, int>, d: Disk,
                                                targets: seq<Result<Url, MalformedUrl>>, reply: Reply,
                                                maxVersionsSet: bool, target: Url)
    requires targets != [] && targets[0] == Ok(target)
    requires respond(lastChecked, d, target, reply).result.Ok?
    ensures var s := respond(lastChecked, d, target, reply);
            var r := TryMirrors(respond, lastChecked, d, targets, reply, maxVersionsSet);
            r == TryMirrors(respond, lastChecked, d, targets[..1], reply, maxVersionsSet)
            && r == Outcome(s.lastChecked, s.disk, s.reply, Ok(()), s.result == Ok(false) && maxVersionsSet)
  {
    assert targets[..1][0] == targets[0];
  }

  /** A mirror that fails before anything is committed is skipped: the next
      one gets the request, with a reset response after an IOException. */
  lemma FailedMirrorSkipped(respond: Responder, lastChecked: map<string, int>, d: Disk,
                            targets: seq<Result<Url, MalformedUrl>>, reply: Reply,
                            maxVersionsSet: bool, target: Url)
    requires |targets| >= 2 && targets[0] == Ok(target)
    requires Recoverable(respond(lastChecked, d, target, reply))
    ensures var s := respond(lastChecked, d, target, reply);
            TryMirrors(respond, lastChecked, d, targets, reply, maxVersionsSet)
              == TryMirrors(respond, s.lastChecked, s.disk, targets[1..],
                            if s.result.error == IOException then FreshReply else s.reply, maxVersionsSet)
  {
  }

  /** An IOException after the response is committed ends the request: no
      other mirror is tried and the exception reaches the servlet. */
  lemma CommittedFailureRethrown(respond: Responder, lastChecked: map<string, int>, d: Disk,
                                 targets: seq<Result<Url, MalformedUrl>>, reply: Reply,
                                 maxVersionsSet: bool, target: Url)
    requires targets != [] && targets[0] == Ok(target)
    requires var s := respond(lastChecked, d, target, reply);
             s.result == Err(IOException) && Committed(s.reply, BufferSize)
    ensures var s := respond(lastChecked, d, target, reply);
            TryMirrors(respond, lastChecked, d, targets, reply, maxVersionsSet)
              == Outcome(s.lastChecked, s.disk, s.reply, Err(IOException), false)
  {
  }
  /** A download without a cached copy whose temporary file opened and that
      then fails with an IOException (a failed stamp, length check or store)
      ends the request: the response is committed by then, so no other mirror
      is tried. */
  lemma OpenedDownloadFailureRethrown(fetchers: map<string, Fetcher>, mimetype: string -> string,
                                      data: RequestedData, pool: PoolFile, now: nat, lastChecked: map<string, int>,
                                      d: Disk, targets: seq<Result<Url, MalformedUrl>>, reply: Reply,
                                      maxVersionsSet: bool, target: Url, fetcher: Fetcher, f: FetchedResource)
    requires targets != [] && targets[0] == Ok(target)
    requires FileSystems.LastModified(d, pool.resource) == 0
    requires GetInstance(fetchers, target) == Some(fetcher) && Fetch(fetcher, target, 0, data.userAgent) == Ok(f)
    requires f.contentType.Ok? && f.contentLength.Ok? && f.modified
    requires WriteStep(d, pool.tmpResource, Copied(f.body), now).ok
    requires Respond(fetchers, mimetype, lastChecked, d, data, pool, target, reply, now).result == Err(IOException)
    ensures var s := Respond(fetchers, mimetype, lastChecked, d, data, pool, target, reply, now);
            TryMirrors(SendAndSaveOf(fetchers, mimetype, data, pool, now), lastChecked, d, targets, reply, maxVersionsSet)
              == Outcome(s.lastChecked, s.disk, s.reply, Err(IOException), false)
  {
    OpenedTeeCommits(mimetype, lastChecked, d, data, pool, f, reply, now, 0, BufferSize);
    CommittedFailureRethrown(SendAndSaveOf(fetchers, mimetype, data, pool, now), lastChecked, d, targets, reply,
                             maxVersionsSet, target);
  }


  /** When every mirror reports the resource missing, the request fails with
      ResourceUnavailableException and nothing is scheduled. */
  lemma {:induction false} AllMirrorsMissing(respond: Responder, lastChecked: map<string, int>, d: Disk,
                                             targets: seq<Result<Url, MalformedUrl>>, reply: Reply,
                                             maxVersionsSet: bool)
    requires targets != []
    requires forall i :: 0 <= i < |targets| ==> targets[i].Ok?
    requires forall i, lc, disk, rep :: 0 <= i < |targets| ==>
               respond(lc, disk, targets[i].value, rep).result == Err(ResourceUnavailable)
    ensures var r := TryMirrors(respond, lastChecked, d, targets, reply, maxVersionsSet);
            r.result == Err(ResourceUnavailable) && !r.schedule
    decreases |targets|
  {
    var s := respond(lastChecked, d, targets[0].value, reply);
    assert s.result == Err(ResourceUnavailable);
    if |targets| > 1 {
      assert forall i :: 0 <= i < |targets[1..]| ==> targets[1..][i] == targets[i + 1];
      AllMirrorsMissing(respond, s.lastChecked, s.disk, targets[1..], s.reply, maxVersionsSet);
    }
  }

  // ------------------------------------------------ before the mirrors

  /** What the part of `findSendSave` before the mirrors leaves, on values:
      the pool file's path with the backend's mirror URLs, or the exception,
      and the disk after it. */
  datatype Resolution = Resolution(result: Result<(string, seq<Url>), Exception>, disk: Disk)

  /** The path `getPoolObject` gives a resource of a backend with `directory`. */
  function PoolPath(directory: Option<string>, name: string): string {
    if directory.Some? then Child(directory.value, name) else name
  }

  /** `getPoolObject(backend, target)` and then `backend.getUrls()`: a path
      without a parent is a NullPointerException, a parent directory that
      cannot be created an IOException, and a backend without URLs a
      NullPointerException again. */
  function ResolvePool(d: Disk, backend: BackendView, target: string): (r: Resolution)
  {
    var file := PoolPath(backend.directory, target);
    match Parent(file)
    case None => Resolution(Err(NullPointer), d)
    case Some(parent) =>
      var s := ForceMkdirStep(d, parent);
      if !s.ok then Resolution(Err(IOException), s.disk)
      else if backend.urls.None? then Resolution(Err(NullPointer), s.disk)
      else Resolution(Ok((file, backend.urls.value)), s.disk)
  }

  /** `getBackend`, `getPoolObject` and the backend's URLs for a request,
      given the backend `stored` under its server name; a null backend is a
      NullPointerException. */
  function ResolveRequest(d: Disk, cacheDir: string, stored: Option<BackendView>, data: RequestedData): (r: Resolution)
  {
    var looked := Lookup(d, cacheDir, stored, data);
    if looked.backend.None? then Resolution(Err(NullPointer), looked.disk)
    else ResolvePool(looked.disk, looked.backend.value, data.requestedTarget)
  }

  /** Resolving only creates directories; a resolved pool file lies in the
      backend's directory, which exists afterwards, and comes with exactly the
      backend's URLs; a failure is a NullPointerException or, when the pool
      file's directory cannot be created, an IOException. */
  lemma ResolveOutcome(d: Disk, cacheDir: string, stored: Option<BackendView>, data: RequestedData)
    ensures var r := ResolveRequest(d, cacheDir, stored, data);
            var looked := Lookup(d, cacheDir, stored, data);
            r.disk.files == d.files && r.disk.locked == d.locked && d.dirs <= r.disk.dirs
            && (r.result.Ok? ==>
                  looked.backend.Some? && looked.backend.value.urls == Some(r.result.value.1)
                  && r.result.value.0 == PoolPath(looked.backend.value.directory, data.requestedTarget)
                  && Parent(r.result.value.0).Some? && Parent(r.result.value.0).value in r.disk.dirs)
            && (r.result.Err? ==> r.result.error == NullPointer || r.result.error == IOException)
            && (r.result == Err(IOException) ==>
                  looked.backend.Some?
                  && var file := PoolPath(looked.backend.value.directory, data.requestedTarget);
                  Parent(file).Some? && !ForceMkdirStep(looked.disk, Parent(file).value).ok)
  {
    LookupOutcome(d, cacheDir, stored, data);
  }

  /** A request for a server name without a backend resolves to a pool file
      under `cacheDir/serverName` whose only mirror is the request's own host
      URL followed by its backend name. */
  lemma NewBackendResolution(d: Disk, cacheDir: string, data: RequestedData)
    requires ResolveRequest(d, cacheDir, None, data).result.Ok?
    ensures var r := ResolveRequest(d, cacheDir, None, data);
            var url := ParseUrl(data.hostUrl + "/" + data.requestedBackend);
            url.Ok? && r.result.value.1 == [url.value]
            && r.result.value.0 == Child(Child(cacheDir, data.serverName), data.requestedTarget)
  {
    LookupOutcome(d, cacheDir, None, data);
  }

  class RepoPackageFinder {
    const configuration: Configuration
    const packagePool: DiskPackagePool
    const ioHandler: IOHandler
    /** The lock table `IOHandler` serialises pool files with. */
    const table: ResourceLock

    constructor Init(configuration: Configuration, packagePool: DiskPackagePool, ioHandler: IOHandler, table: ResourceLock)
      ensures this.configuration == configuration && this.packagePool == packagePool
      ensures this.ioHandler == ioHandler && this.table == table
    {
      this.configuration := configuration;
      this.packagePool := packagePool;
      this.ioHandler := ioHandler;
      this.table := table;
    }

    /** `findSendSave(requestedData, res)`: the backend for the request, its
        pool file for the requested target, and then the mirrors in order.
        `pool` is that pool file, None when the part before the mirrors
        failed. */
    method FindSendSave(data: RequestedData, reply: Reply, now: nat)
      returns (r: Result<(), Exception>, out: Reply, ghost pool: Option<PoolFile>)
      requires packagePool.fs == configuration.fs
      requires table.Valid() && HoldsNone(table)
      modifies configuration, configuration.fs, packagePool, ioHandler, table, LockObjects(table.locks)
      ensures table.Valid() && table.locks == old(table.locks) && table.outstanding == old(table.outstanding)
      ensures HoldsNone(table)
      ensures var res := ResolveRequest(old(configuration.fs.disk), configuration.cacheDir,
                                        old(configuration.Stored(data.serverName)), data);
              (pool.None? <==> res.result.Err?)
              && (pool.None? ==>
                    r == Err(res.result.error) && out == reply && configuration.fs.disk == res.disk
                    && ioHandler.lastChecked == old(ioHandler.lastChecked)
                    && packagePool.filesToRemove == old(packagePool.filesToRemove))
              && (pool.Some? ==>
                    fresh(pool.value) && pool.value.fs == configuration.fs && pool.value.resource == res.result.value.0
                    && var o := TryMirrors(SendAndSaveOf(ioHandler.fetchers, ioHandler.mimetype, data, pool.value, now),
                                           old(ioHandler.lastChecked), res.disk,
                                           Targets(res.result.value.1, data.requestedTarget),
                                           reply, configuration.maxVersions.Some?);
                    ioHandler.lastChecked == o.lastChecked && configuration.fs.disk == o.disk && out == o.reply
                    && r == o.result
                    && packagePool.filesToRemove == old(packagePool.filesToRemove) + (if o.schedule then {pool.value} else {}))
    {
      pool := None;
      var resolved := Resolve(data);
      if resolved.Err? {
        return Err(resolved.error), reply, pool;
      }
      var poolObject := resolved.value.0;
      pool := Some(poolObject);
      var targets := Targets(resolved.value.1, data.requestedTarget);
      ghost var respond := SendAndSaveOf(ioHandler.fetchers, ioHandler.mimetype, data, poolObject, now);
      SendAndSaveOfAnswers(ioHandler.fetchers, ioHandler.mimetype, data, poolObject, now);
      r, out := TryAll(data, poolObject, targets, reply, now, respond);
    }

    /** The part of `findSendSave` before the mirrors: the backend for the
        request (null is a NullPointerException), its pool file for the target
        and the backend's URLs (null is a NullPointerException again). */
    method Resolve(data: RequestedData) returns (r: Result<(PoolFile, seq<Url>), Exception>)
      requires packagePool.fs == configuration.fs
      modifies configuration, configuration.fs
      ensures var res := ResolveRequest(old(configuration.fs.disk), configuration.cacheDir,
                                        old(configuration.Stored(data.serverName)), data);
              configuration.fs.disk == res.disk && (r.Ok? <==> res.result.Ok?)
              && (r.Err? ==> r.error == res.result.error)
              && (r.Ok? ==> fresh(r.value.0) && r.value.0.fs == configuration.fs
                            && r.value.0.resource == res.result.value.0 && r.value.1 == res.result.value.1
                            && var parsed := NewPackage(packagePool.pattern, data.requestedTarget);
                            r.value.0.repoPackage == if parsed.Ok? then Some(parsed.value) else None)
    {
      var backend := configuration.GetBackend(data);
      if backend.None? {
        return Err(NullPointer);
      }
      var poolObject := packagePool.GetPoolObject(backend.value, data.requestedTarget);
      if poolObject.Err? {
        return Err(poolObject.error);
      }
      if backend.value.urls.None? {
        return Err(NullPointer);
      }
      return Ok((poolObject.value, backend.value.urls.value));
    }

    /** The mirror loop of `findSendSave`, with `respond` standing for
        `sendAndSave`. */
    method TryAll(data: RequestedData, pool: PoolFile, targets: seq<Result<Url, MalformedUrl>>, reply: Reply, now: nat,
                  ghost respond: Responder)
      returns (r: Result<(), Exception>, out: Reply)
      requires Answers(respond, ioHandler.fetchers, ioHandler.mimetype, data, pool, now)
      requires table.Valid() && HoldsNone(table)
      modifies pool.fs, packagePool, ioHandler, table, LockObjects(table.locks)
      ensures table.Valid() && table.locks == old(table.locks) && table.outstanding == old(table.outstanding)
      ensures HoldsNone(table)
      ensures var o := TryMirrors(respond, old(ioHandler.lastChecked), old(pool.fs.disk), targets, reply,
                                  configuration.maxVersions.Some?);
              ioHandler.lastChecked == o.lastChecked && pool.fs.disk == o.disk && out == o.reply && r == o.result
              && packagePool.filesToRemove == old(packagePool.filesToRemove) + (if o.schedule then {pool} else {})
    {
      if targets == [] {
        return Ok(()), reply;
      }
      ghost var goal := TryMirrors(respond, ioHandler.lastChecked, pool.fs.disk, targets, reply,
                                   configuration.maxVersions.Some?);
      ghost var scheduled := old(packagePool.filesToRemove);
      var i, done := 0, false;
      r, out := Ok(()), reply;
      while !done
        invariant 0 <= i < |targets|
        invariant table.Valid() && table.locks == old(table.locks) && table.outstanding == old(table.outstanding)
        invariant HoldsNone(table)
        invariant !done ==> packagePool.filesToRemove == scheduled
                            && goal == TryMirrors(respond, ioHandler.lastChecked, pool.fs.disk, targets[i..], out,
                                                  configuration.maxVersions.Some?)
        invariant done ==> ioHandler.lastChecked == goal.lastChecked && pool.fs.disk == goal.disk
                           && out == goal.reply && r == goal.result
                           && packagePool.filesToRemove == scheduled + (if goal.schedule then {pool} else {})
        decreases if done then 0 else 1, |targets| - i
      {
        done, r, out := TryOne(data, pool, targets, i, out, now, respond);
        if !done {
          i := i + 1;
        }
      }
    }

    /** One pass of the mirror loop, for the mirror `targets[i]`; `done` when
        the loop ends with it. */
    method TryOne(data: RequestedData, pool: PoolFile, targets: seq<Result<Url, MalformedUrl>>, i: nat, reply: Reply,
                  now: nat, ghost respond: Responder)
      returns (done: bool, r: Result<(), Exception>, out: Reply)
      requires i < |targets|
      requires Answers(respond, ioHandler.fetchers, ioHandler.mimetype, data, pool, now)
      requires table.Valid() && HoldsNone(table)
      modifies pool.fs, packagePool, ioHandler, table, LockObjects(table.locks)
      ensures table.Valid() && table.locks == old(table.locks) && table.outstanding == old(table.outstanding)
      ensures HoldsNone(table)
      ensures var o := TryMirrors(respond, old(ioHandler.lastChecked), old(pool.fs.disk), targets[i..], reply,
                                  configuration.maxVersions.Some?);
              if done then
                ioHandler.lastChecked == o.lastChecked && pool.fs.disk == o.disk && out == o.reply && r == o.result
                && packagePool.filesToRemove == old(packagePool.filesToRemove) + (if o.schedule then {pool} else {})
              else
                i + 1 < |targets| && packagePool.filesToRemove == old(packagePool.filesToRemove)
                && o == TryMirrors(respond, ioHandler.lastChecked, pool.fs.disk, targets[i + 1..], out,
                                   configuration.maxVersions.Some?)
    {
      assert targets[i..][0] == targets[i];
      if targets[i].Err? {
        return true, Err(IOException), reply;
      }
      var handled;
      handled, out := HandleBackend(data, targets[i].value, pool, reply, now, respond);
      if handled.Err? {
        return true, Err(handled.error), out;
      }
      if handled.value {
        return true, Ok(()), out;
      }
      if i + 1 == |targets| {
        return true, Err(ResourceUnavailable), out;
      }
      assert targets[i..][1..] == targets[i + 1..];
      return false, Ok(()), out;
    }

    /** `handleBackend(requestedData, targetResource, poolObject, res)`, with
        `respond` standing for `sendAndSave`. */
    method HandleBackend(data: RequestedData, target: Url, pool: PoolFile, reply: Reply, now: nat,
                         ghost respond: Responder)
      returns (r: Result<bool, Exception>, out: Reply)
      requires Answers(respond, ioHandler.fetchers, ioHandler.mimetype, data, pool, now)
      requires table.Valid() && HoldsNone(table)
      modifies pool.fs, packagePool, ioHandler, table, LockObjects(table.locks)
      ensures table.Valid() && table.locks == old(table.locks) && table.outstanding == old(table.outstanding)
      ensures HoldsNone(table)
      ensures var s := respond(old(ioHandler.lastChecked), old(pool.fs.disk), target, reply);
              var h := HandleOutcome(s, configuration.maxVersions.Some?);
              ioHandler.lastChecked == s.lastChecked && pool.fs.disk == s.disk
              && r == h.result && out == h.reply
              && packagePool.filesToRemove == old(packagePool.filesToRemove) + (if h.schedule then {pool} else {})
    {
      var sent;
      sent, out := Send(data, target, pool, reply, now, respond);
      if sent.Ok? {
        if !sent.value && configuration.maxVersions.Some? {
          packagePool.RemoveOldPackages(pool);
        }
        return Ok(true), out;
      }
      var e := sent.error;
      if e == ResourceUnavailable || e == Initialization {
        return Ok(false), out;
      }
      if e == IOException && !Committed(out, BufferSize) {
        return Ok(false), FreshReply;
      }
      return Err(e), out;
    }

    /** The `sendAndSave` call of `handleBackend`, as what `respond` makes of it. */
    method Send(data: RequestedData, target: Url, pool: PoolFile, reply: Reply, now: nat, ghost respond: Responder)
      returns (r: Result<bool, Exception>, out: Reply)
      requires Answers(respond, ioHandler.fetchers, ioHandler.mimetype, data, pool, now)
      requires table.Valid() && HoldsNone(table)
      modifies pool.fs, ioHandler, table, LockObjects(table.locks)
      ensures table.Valid() && table.locks == old(table.locks) && table.outstanding == old(table.outstanding)
      ensures HoldsNone(table)
      ensures Served(ioHandler.lastChecked, pool.fs.disk, out, r)
                == respond(old(ioHandler.lastChecked), old(pool.fs.disk), target, reply)
    {
      r, out := ioHandler.SendAndSave(data, pool, target, reply, table, now);
    }
  }
}
