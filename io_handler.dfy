/** `IOHandler`: serves one request for a pool file. It sends the cached copy
    when that is fresh, otherwise asks the fetcher for the URL's protocol for a
    newer version, and streams a newer version both to the client and into the
    pool file's temporary file, which then replaces the cached copy. The
    servlet response is a value (`Reply`) the handler returns changed. */
module IOHandlers {
  import opened Common
  import opened FileSystems
  import opened Packages
  import opened PoolFiles
  import opened Requests
  import opened Urls
  import opened Fetchers
  import opened ResourceLocks

  /** What has been written to the `HttpServletResponse`: the status, the
      Content-Type, Content-Length and Last-Modified headers, the body, and
      whether its output stream has been closed. */
  datatype Reply = Reply(
    status: int,
    contentType: Option<string>,
    contentLength: Option<int>,
    lastModified: Option<int>,
    body: seq<byte>,
    closed: bool)

  /** A response nothing has been written to. */
  const FreshReply: Reply := Reply(200, None, None, None, [], false)

  /** The response is committed once its output stream has been closed, or
      once more than its buffer has been written. */
  predicate Committed(reply: Reply, bufferSize: nat) {
    reply.closed || |reply.body| > bufferSize
  }

  // ------------------------------------------------ the version check

  /** `cacheDuration`: one minute, in milliseconds. */
  const CacheDuration: int := 60_000

  /** The answer of `isNewVersionCheckRequired` and the check map after it. */
  datatype Checked = Checked(required: bool, lastChecked: map<string, int>)

  /** `isNewVersionCheckRequired(poolObject, name)` at time `now`: never for an
      immutable package; otherwise when the resource has not been checked
      before, which records `now`, or when its last check is at least
      `CacheDuration` old, which drops the entry. */
  function CheckRequired(lastChecked: map<string, int>, repoPackage: Option<GenericRepoPackage>,
                         name: string, now: int): (r: Checked)
    ensures repoPackage.Some? && repoPackage.value.immutable ==> r == Checked(false, lastChecked)
    ensures !r.required ==> r.lastChecked == lastChecked
    ensures forall k :: k != name ==> (k in r.lastChecked <==> k in lastChecked)
    ensures forall k :: k != name && k in lastChecked ==> r.lastChecked[k] == lastChecked[k]
  {
    if repoPackage.Some? && repoPackage.value.immutable then Checked(false, lastChecked)
    else if name !in lastChecked then Checked(true, lastChecked[name := now])
    else if CacheDuration > now - lastChecked[name] then Checked(false, lastChecked)
    else Checked(true, lastChecked - {name})
  }

  /** A mutable resource is checked once and then not again for a minute. */
  lemma CheckedOncePerMinute(lastChecked: map<string, int>, repoPackage: Option<GenericRepoPackage>,
                             name: string, now: int, later: int)
    requires !(repoPackage.Some? && repoPackage.value.immutable)
    requires name !in lastChecked && now <= later < now + CacheDuration
    ensures CheckRequired(lastChecked, repoPackage, name, now).required
    ensures !CheckRequired(CheckRequired(lastChecked, repoPackage, name, now).lastChecked, repoPackage, name, later).required
  {
  }

  /** An expired entry is dropped, not refreshed: the check after it is
      required again and only then records the time. */
  lemma ExpiredCheckNotRefreshed(lastChecked: map<string, int>, repoPackage: Option<GenericRepoPackage>,
                                 name: string, now: int)
    requires !(repoPackage.Some? && repoPackage.value.immutable)
    requires name in lastChecked && now - lastChecked[name] >= CacheDuration
    ensures var first := CheckRequired(lastChecked, repoPackage, name, now);
            first.required && name !in first.lastChecked
            && CheckRequired(first.lastChecked, repoPackage, name, now) == Checked(true, lastChecked[name := now])
  {
    var first := CheckRequired(lastChecked, repoPackage, name, now);
    assert first.lastChecked[name := now] == lastChecked[name := now];
  }

  // ------------------------------------------------ sending the cached copy

  /** The response after `sendLocalFile`, and what it threw. */
  datatype Sent = Sent(reply: Reply, result: Result<(), Exception>)

  /** The client's copy is current: it sent If-Modified-Since and the cached
      copy is not newer. */
  predicate ClientCurrent(d: Disk, resource: string, requestModifiedSince: int) {
    requestModifiedSince != -1 && FileSystems.LastModified(d, resource) <= requestModifiedSince
  }

  /** `sendLocalFile(poolObject, requestModifiedSince, res)`: 304 when the
      client's copy is current; otherwise the headers of the cached copy, then
      its bytes, where opening it throws FileNotFoundException when it is gone. */
  function SendLocal(d: Disk, resource: string, mimetype: string -> string,
                     requestModifiedSince: int, reply: Reply): (r: Sent)
  {
    if ClientCurrent(d, resource, requestModifiedSince) then Sent(reply.(status := 304), Ok(()))
    else
      var headed := reply.(contentType := Some(mimetype(FileSystems.Name(resource))),
                           contentLength := Some(ToInt32(Length(d, resource))),
                           lastModified := Some(FileSystems.LastModified(d, resource)));
      match Read(d, resource)
      case None => Sent(headed, Err(IOException))
      case Some(content) => Sent(headed.(body := reply.body + content), Ok(()))
  }

  /** What `sendLocalFile` promises: a 304 for a current client; otherwise the
      cached copy's type, timestamp and length, then its bytes, or an
      IOException when the copy cannot be opened. */
  lemma SendLocalOutcome(d: Disk, resource: string, mimetype: string -> string,
                         requestModifiedSince: int, reply: Reply)
    ensures var r := SendLocal(d, resource, mimetype, requestModifiedSince, reply);
            (ClientCurrent(d, resource, requestModifiedSince) ==> r == Sent(reply.(status := 304), Ok(())))
            && (!ClientCurrent(d, resource, requestModifiedSince) ==>
              r.reply.status == reply.status
              && r.reply.contentType == Some(mimetype(FileSystems.Name(resource)))
              && r.reply.lastModified == Some(FileSystems.LastModified(d, resource))
              && (r.result.Ok? <==> Read(d, resource).Some?)
              && (r.result.Ok? ==> r.reply.body == reply.body + d.files[resource].content
                                   && (|d.files[resource].content| < 0x8000_0000 ==>
                                         r.reply.contentLength == Some(|d.files[resource].content|)))
              && (r.result.Err? ==> r.result == Err(IOException) && r.reply.body == reply.body))
  {
  }

  // ------------------------------------------------ the fetched resource

  /** `setHeader(res, contentType, contentLength, lastModified)` with the values
      read from the fetched resource: each header only when it is known
      (non-null, non-zero). */
  function SetHeader(reply: Reply, contentType: Option<string>, contentLength: int, lastModified: int): (r: Reply)
    ensures r.status == reply.status && r.body == reply.body
    ensures r.contentType == if contentType.Some? then contentType else reply.contentType
    ensures r.contentLength == if contentLength != 0 then Some(ToInt32(contentLength)) else reply.contentLength
    ensures r.lastModified == if lastModified != 0 then Some(lastModified) else reply.lastModified
  {
    var typed := if contentType.Some? then reply.(contentType := contentType) else reply;
    var sized := if contentLength != 0 then typed.(contentLength := Some(ToInt32(contentLength))) else typed;
    if lastModified != 0 then sized.(lastModified := Some(lastModified)) else sized
  }

  /** `d` and `r` differ at most in the final and the temporary file. */
  predicate Confined(d: Disk, r: Disk, resource: string, tmp: string) {
    r.files - {resource, tmp} == d.files - {resource, tmp}
    && r.dirs == d.dirs && r.locked == d.locked
  }

  /** The disk and response after saving a fetched resource, and what was thrown. */
  datatype Saved = Saved(disk: Disk, reply: Reply, result: Result<(), Exception>)

  /** The bytes written to the temporary file before the copy can fail: the
      whole body, or nothing when the fetched stream is null. */
  function Copied(body: Option<seq<byte>>): seq<byte> {
    if body.Some? then body.value else []
  }

  /** The saving part of `sendAndSave`, with the `contentLength` read before:
      open the temporary file (the pool file's stream is opened before the
      client's), copy the body into both, which is a NullPointerException for a
      null stream, stamp the temporary file with the remote timestamp, compare
      the number of bytes with the announced length unless that is 0, and store.
      Once the temporary file is open, the tee over both streams exists, and
      the `finally` clause closes it, and with it the response's stream,
      whatever happens next. */
  function Save(d: Disk, resource: string, tmp: string, f: FetchedResource, contentLength: int,
                reply: Reply, now: nat): (r: Saved)
    requires resource != tmp
  {
    var written := WriteStep(d, tmp, Copied(f.body), now);
    if !written.ok then Saved(d, reply, Err(IOException))
    else
      var tee := reply.(closed := true);
      if f.body.None? then Saved(written.disk, tee, Err(NullPointer))
      else
        var sent := tee.(body := reply.body + f.body.value);
        if f.lastModified < 0 then Saved(written.disk, sent, Err(IllegalArgument))
        else
          var stamped := SetLastModifiedStep(written.disk, tmp, f.lastModified);
          if !stamped.ok then Saved(stamped.disk, sent, Err(IOException))
          else if contentLength != 0 && |f.body.value| != contentLength then Saved(stamped.disk, sent, Err(IOException))
          else
            var stored := StoreStep(stamped.disk, resource, tmp);
            Saved(stored.disk, sent, if stored.ok then Ok(()) else Err(IOException))
  }

  /** What saving promises: on success there was a body, the final file holds
      it with the remote timestamp and the temporary file is gone; a failure is
      an IOException, an IllegalArgumentException for a negative timestamp, or
      a NullPointerException for a null stream. The client receives the body
      exactly when there is one and the temporary file could be opened, and
      the response's stream is closed exactly when that file could be opened. */
  lemma SaveOutcome(d: Disk, resource: string, tmp: string, f: FetchedResource, contentLength: int,
                    reply: Reply, now: nat)
    requires resource != tmp
    ensures var r := Save(d, resource, tmp, f, contentLength, reply, now);
            var started := WriteStep(d, tmp, Copied(f.body), now).ok;
            (r.result.Ok? ==> f.body.Some? && resource in r.disk.files && tmp !in r.disk.files
                              && r.disk.files[resource].content == f.body.value
                              && r.disk.files[resource].lastModified == f.lastModified)
            && (r.result.Err? ==> r.result.error in {IOException, IllegalArgument, NullPointer})
            && (r.result == Err(NullPointer) <==> started && f.body.None?)
            && (started && f.body.Some? ==> r.reply == reply.(body := reply.body + f.body.value, closed := true))
            && (started && f.body.None? ==> r.reply == reply.(closed := true))
            && (!started ==> r.reply == reply)
  {
  }

  /** Saving changes only the two files of the pool file, and a failed save
      leaves any final file as it was. */
  lemma SaveConfined(d: Disk, resource: string, tmp: string, f: FetchedResource, contentLength: int,
                     reply: Reply, now: nat)
    requires resource != tmp
    ensures var r := Save(d, resource, tmp, f, contentLength, reply, now);
            Confined(d, r.disk, resource, tmp)
            && (r.result.Err? && resource in r.disk.files ==>
                  resource in d.files && r.disk.files[resource] == d.files[resource])
  {
    var written := WriteStep(d, tmp, Copied(f.body), now);
    if written.ok && f.body.Some? && f.lastModified >= 0 {
      var stamped := SetLastModifiedStep(written.disk, tmp, f.lastModified);
      assert stamped.disk.files - {resource, tmp} == d.files - {resource, tmp};
      if stamped.ok && !(contentLength != 0 && |f.body.value| != contentLength) {
        var stored := StoreStep(stamped.disk, resource, tmp);
        assert stored.disk.files - {resource, tmp} == stamped.disk.files - {resource, tmp};
      }
    }
  }

  /** A body whose length is unknown (-1, as HTTP reports a chunked entity) is
      never stored: only 0 counts as "no length announced". */
  lemma UnknownLengthRejected(d: Disk, resource: string, tmp: string, f: FetchedResource, reply: Reply, now: nat)
    requires resource != tmp
    ensures Save(d, resource, tmp, f, -1, reply, now).result.Err?
  {
  }

  /** A resource stored without a remote timestamp gets timestamp 0, which
      `sendAndSave` takes for "no local copy" on the next request. */
  lemma StoredWithoutTimestampLooksAbsent(d: Disk, resource: string, tmp: string, f: FetchedResource,
                                          contentLength: int, reply: Reply, now: nat)
    requires resource != tmp && f.lastModified == 0
    requires Save(d, resource, tmp, f, contentLength, reply, now).result.Ok?
    ensures FileSystems.LastModified(Save(d, resource, tmp, f, contentLength, reply, now).disk, resource) == 0
  {
  }

  /** The catch clause of `sendAndSave`: an IOException that escapes while
      there was no local copy removes both files of the pool file. */
  function AfterFailure(d: Disk, resource: string, tmp: string, pm: int, e: Exception): (r: Disk)
    ensures Confined(d, r, resource, tmp)
    ensures e == IOException && pm == 0 ==>
              (resource !in d.locked ==> resource !in r.files) && (tmp !in d.locked ==> tmp !in r.files)
    ensures resource in r.files ==> resource in d.files && r.files[resource] == d.files[resource]
    ensures e != IOException || pm != 0 ==> r == d
  {
    if e == IOException && pm == 0 then RemoveStep(d, resource, tmp) else d
  }

  // ------------------------------------------------ sendAndSave

  /** The state `sendAndSave` leaves: the version-check map, the disk, the
      response, and its return value (true: sent from the cache) or exception. */
  datatype Served = Served(lastChecked: map<string, int>, disk: Disk, reply: Reply, result: Result<bool, Exception>)

  /** The outcome of `sendAndSave` from the fetched resource on; `pm` is the
      cached copy's timestamp read at the start. The content type and then the
      length are read first, and either lookup may throw. */
  function Deliver(mimetype: string -> string, lastChecked: map<string, int>, d: Disk, data: RequestedData,
                   pool: PoolFile, f: FetchedResource, reply: Reply, now: nat, pm: int): (r: Served)
  {
    assert |pool.tmpResource| == |pool.resource| + 4;
    match f.contentType
    case Err(e) => Served(lastChecked, AfterFailure(d, pool.resource, pool.tmpResource, pm, e), reply, Err(e))
    case Ok(contentType) =>
      match f.contentLength
      case Err(e) => Served(lastChecked, AfterFailure(d, pool.resource, pool.tmpResource, pm, e), reply, Err(e))
      case Ok(contentLength) =>
        var headed := SetHeader(reply, contentType, contentLength, f.lastModified);
        if !f.modified then
          var sent := SendLocal(d, pool.resource, mimetype, data.requestModifiedSince, headed);
          if sent.result.Ok? then Served(lastChecked, d, sent.reply, Ok(true))
          else Served(lastChecked, AfterFailure(d, pool.resource, pool.tmpResource, pm, IOException), sent.reply, Err(IOException))
        else
          var saved := Save(d, pool.resource, pool.tmpResource, f, contentLength, headed, now);
          if saved.result.Ok? then Served(lastChecked, saved.disk, saved.reply, Ok(false))
          else
            var e := saved.result.error;
            Served(lastChecked, AfterFailure(saved.disk, pool.resource, pool.tmpResource, pm, e), saved.reply, Err(e))
  }

  /** The outcome of `sendAndSave` once the remote side is asked: no fetcher
      for the protocol is InitializationException; the fetch's exceptions pass
      through the catch clause. */
  function Remote(fetchers: map<string, Fetcher>, mimetype: string -> string, lastChecked: map<string, int>,
                  d: Disk, data: RequestedData, pool: PoolFile, target: Url, reply: Reply, now: nat, pm: int): (r: Served)
  {
    match GetInstance(fetchers, target)
    case None => Served(lastChecked, d, reply, Err(Initialization))
    case Some(fetcher) =>
      match Fetch(fetcher, target, pm, data.userAgent)
      case Err(e) => Served(lastChecked, AfterFailure(d, pool.resource, pool.tmpResource, pm, e), reply, Err(e))
      case Ok(f) => Deliver(mimetype, lastChecked, d, data, pool, f, reply, now, pm)
  }

  /** HttpClient gives a 304 no entity, so a cached copy that the server
      confirms current is never sent: reading the resource's length throws a
      NullPointerException, which the catch clause does not handle, and the
      response and the pool are left as they were. */
  lemma NotModifiedNeverServed(fetchers: map<string, Fetcher>, mimetype: string -> string,
                               lastChecked: map<string, int>, d: Disk, data: RequestedData, pool: PoolFile,
                               target: Url, reply: Reply, now: nat, pm: int)
    requires pm != 0 && target.protocol in fetchers && fetchers[target.protocol].HttpFetcher?
    requires var fetcher := fetchers[target.protocol];
             var response := fetcher.execute(HttpRequestFor(target, pm, data.userAgent, fetcher.version));
             response.Some? && response.value.status == 304 && response.value.entity.None?
    ensures Remote(fetchers, mimetype, lastChecked, d, data, pool, target, reply, now, pm)
              == Served(lastChecked, d, reply, Err(NullPointer))
  {
    var fetcher := fetchers[target.protocol];
    NotModifiedHasNoLength(fetcher.execute, target, pm, data.userAgent, fetcher.version);
  }

  /** `sendAndSave(requestedData, poolObject, targetResource, res)` at time
      `now`: a cached copy that needs no version check is sent as it is;
      otherwise the remote side decides. */
  function Respond(fetchers: map<string, Fetcher>, mimetype: string -> string, lastChecked: map<string, int>,
                   d: Disk, data: RequestedData, pool: PoolFile, target: Url, reply: Reply, now: nat): (r: Served)
  {
    var pm := FileSystems.LastModified(d, pool.resource);
    if pm != 0 then
      var checked := CheckRequired(lastChecked, pool.repoPackage, data.requestedResource, now);
      if !checked.required then
        var sent := SendLocal(d, pool.resource, mimetype, data.requestModifiedSince, reply);
        Served(checked.lastChecked, d, sent.reply, if sent.result.Ok? then Ok(true) else Err(IOException))
      else Remote(fetchers, mimetype, checked.lastChecked, d, data, pool, target, reply, now, pm)
    else Remote(fetchers, mimetype, lastChecked, d, data, pool, target, reply, now, pm)
  }

  /** What `sendAndSave` promises about its outcome `r`, given the disk `d`
      and response `reply` it started with and the cached copy's timestamp `pm`:
      only the pool file's two files change; a copy sent from the cache leaves
      the disk alone; a stored copy is what the client received on top of what
      the response already held; an IOException without a previous copy removes
      both files; and a failure never installs a new final file. */
  ghost predicate WellServed(d: Disk, reply: Reply, pm: int, resource: string, tmp: string, r: Served) {
    Confined(d, r.disk, resource, tmp)
    && (r.result == Ok(true) ==> r.disk == d)
    && (r.result == Ok(false) ==>
          resource in r.disk.files && tmp !in r.disk.files
          && r.reply.body == reply.body + r.disk.files[resource].content)
    && (r.result == Err(IOException) && pm == 0 ==>
          (resource !in d.locked ==> resource !in r.disk.files)
          && (tmp !in d.locked ==> tmp !in r.disk.files))
    && (r.result.Err? && resource in r.disk.files ==>
          resource in d.files && r.disk.files[resource] == d.files[resource])
  }

  lemma DeliverOutcome(mimetype: string -> string, lastChecked: map<string, int>, d: Disk, data: RequestedData,
                       pool: PoolFile, f: FetchedResource, reply: Reply, now: nat, pm: int)
    ensures var r := Deliver(mimetype, lastChecked, d, data, pool, f, reply, now, pm);
            WellServed(d, reply, pm, pool.resource, pool.tmpResource, r)
            && r.lastChecked == lastChecked
            && (r.result == Ok(false) ==> f.body.Some? && r.disk.files[pool.resource].content == f.body.value
                                          && r.reply.body == reply.body + f.body.value)
            && (f.contentType.Ok? && f.contentLength.Err? ==>
                  r.reply == reply && r.result == Err(f.contentLength.error))
  {
    assert |pool.tmpResource| == |pool.resource| + 4;
    if f.contentType.Ok? && f.contentLength.Ok? && f.modified {
      var headed := SetHeader(reply, f.contentType.value, f.contentLength.value, f.lastModified);
      SaveOutcome(d, pool.resource, pool.tmpResource, f, f.contentLength.value, headed, now);
      SaveConfined(d, pool.resource, pool.tmpResource, f, f.contentLength.value, headed, now);
    }
  }

  /** For a newer version, the response ends up with its stream closed, and so
      committed, exactly when the temporary file could be opened (or it was
      closed before): the `finally` clause closes the tee over both streams,
      whatever failed after it was opened. */
  lemma OpenedTeeCommits(mimetype: string -> string, lastChecked: map<string, int>, d: Disk, data: RequestedData,
                         pool: PoolFile, f: FetchedResource, reply: Reply, now: nat, pm: int, bufferSize: nat)
    requires f.contentType.Ok? && f.contentLength.Ok? && f.modified
    ensures var r := Deliver(mimetype, lastChecked, d, data, pool, f, reply, now, pm);
            r.reply.closed <==> reply.closed || WriteStep(d, pool.tmpResource, Copied(f.body), now).ok
    ensures WriteStep(d, pool.tmpResource, Copied(f.body), now).ok ==>
              Committed(Deliver(mimetype, lastChecked, d, data, pool, f, reply, now, pm).reply, bufferSize)
  {
    assert |pool.tmpResource| == |pool.resource| + 4;
    var headed := SetHeader(reply, f.contentType.value, f.contentLength.value, f.lastModified);
    SaveOutcome(d, pool.resource, pool.tmpResource, f, f.contentLength.value, headed, now);
  }

  lemma RemoteOutcome(fetchers: map<string, Fetcher>, mimetype: string -> string, lastChecked: map<string, int>,
                      d: Disk, data: RequestedData, pool: PoolFile, target: Url, reply: Reply, now: nat, pm: int)
    ensures var r := Remote(fetchers, mimetype, lastChecked, d, data, pool, target, reply, now, pm);
            WellServed(d, reply, pm, pool.resource, pool.tmpResource, r)
            && r.lastChecked == lastChecked
            && (GetInstance(fetchers, target).None? ==> r == Served(lastChecked, d, reply, Err(Initialization)))
  {
    var fetcher := GetInstance(fetchers, target);
    if fetcher.Some? {
      var fetched := Fetch(fetcher.value, target, pm, data.userAgent);
      if fetched.Ok? {
        DeliverOutcome(mimetype, lastChecked, d, data, pool, fetched.value, reply, now, pm);
      }
    }
  }

  /** `sendAndSave` keeps the promises of `WellServed`. */
  lemma RespondOutcome(fetchers: map<string, Fetcher>, mimetype: string -> string, lastChecked: map<string, int>,
                       d: Disk, data: RequestedData, pool: PoolFile, target: Url, reply: Reply, now: nat)
    ensures WellServed(d, reply, FileSystems.LastModified(d, pool.resource), pool.resource, pool.tmpResource,
                       Respond(fetchers, mimetype, lastChecked, d, data, pool, target, reply, now))
  {
    var pm := FileSystems.LastModified(d, pool.resource);
    var checked := CheckRequired(lastChecked, pool.repoPackage, data.requestedResource, now);
    if pm != 0 && checked.required {
      RemoteOutcome(fetchers, mimetype, checked.lastChecked, d, data, pool, target, reply, now, pm);
    } else if pm == 0 {
      RemoteOutcome(fetchers, mimetype, lastChecked, d, data, pool, target, reply, now, pm);
    }
  }

  // ------------------------------------------------ the handler

  /** The locks of the table's entries. */
  function LockObjects(locks: map<string, LockGroup>): set<ReadWriteLock> {
    set k | k in locks :: locks[k].lock
  }

  /** The calling thread holds none of these locks. */
  ghost predicate Idle(locks: set<ReadWriteLock>)
    reads locks
  {
    forall l :: l in locks ==> l.readHolds == 0 && l.writeHolds == 0
  }

  /** The calling thread holds none of the table's locks. */
  ghost predicate HoldsNone(table: ResourceLock)
    reads table, LockObjects(table.locks)
  {
    Idle(LockObjects(table.locks))
  }

  /** Releasing right after obtaining leaves the table as it was. */
  lemma ReleaseRestoresLocks(locks: map<string, LockGroup>, key: string, lock: ReadWriteLock)
    requires key in locks ==> locks[key].references >= 1
    ensures ReleasedLocks(ObtainedLocks(locks, key, lock), key) == locks
  {
    var r := ReleasedLocks(ObtainedLocks(locks, key, lock), key);
    assert forall k :: k in r <==> k in locks;
  }

  /** `obtainLocker(key)` on a table none of whose locks the caller holds. */
  method Acquire(table: ResourceLock, key: string) returns (lock: ReadWriteLock, ghost before: map<string, LockGroup>)
    requires table.Valid() && HoldsNone(table)
    modifies table
    ensures before == old(table.locks)
    ensures table.Valid() && table.locks == ObtainedLocks(before, key, lock)
    ensures table.outstanding == old(table.outstanding) + multiset{key}
    ensures key in before ==> before[key].references >= 1
    ensures lock.readHolds == 0 && lock.writeHolds == 0
    ensures lock in LockObjects(before) || fresh(lock)
    ensures Idle(LockObjects(before))
  {
    before := table.locks;
    if key in table.locks {
      CountsArePositive(table.Table(), table.outstanding, key);
    }
    lock := table.ObtainLocker(key);
    assert key in before ==> lock == before[key].lock;
  }

  /** `releaseLocker(key)` right after `Acquire`: the table is as it was. */
  method Release(table: ResourceLock, key: string, lock: ReadWriteLock,
                 ghost before: map<string, LockGroup>, ghost outstanding: multiset<string>)
    requires table.Valid() && table.locks == ObtainedLocks(before, key, lock)
    requires key in before ==> before[key].references >= 1
    requires table.outstanding == outstanding + multiset{key}
    modifies table
    ensures table.Valid() && table.locks == before && table.outstanding == outstanding
  {
    table.ReleaseLocker(key);
    ReleaseRestoresLocks(before, key, lock);
  }

  class IOHandler {
    /** `resourcesLastCheckedMap`. */
    var lastChecked: map<string, int>
    /** The fetcher pool's registry, by protocol. */
    const fetchers: map<string, Fetcher>
    /** `Util.getMimetype`: the MIME type registered for a file name. */
    const mimetype: string -> string

    constructor Init(fetchers: map<string, Fetcher>, mimetype: string -> string)
      ensures this.fetchers == fetchers && this.mimetype == mimetype && lastChecked == map[]
    {
      this.fetchers := fetchers;
      this.mimetype := mimetype;
      lastChecked := map[];
    }

    method IsNewVersionCheckRequired(repoPackage: Option<GenericRepoPackage>, name: string, now: int)
      returns (required: bool)
      modifies this
      ensures Checked(required, lastChecked) == CheckRequired(old(lastChecked), repoPackage, name, now)
    {
      if repoPackage.Some? && repoPackage.value.immutable {
        return false;
      }
      if name !in lastChecked {
        lastChecked := lastChecked[name := now];
        return true;
      }
      if CacheDuration > now - lastChecked[name] {
        return false;
      }
      lastChecked := lastChecked - {name};
      return true;
    }

    method SendLocalFile(pool: PoolFile, requestModifiedSince: int, reply: Reply)
      returns (r: Result<(), Exception>, sent: Reply)
      ensures Sent(sent, r) == SendLocal(pool.fs.disk, pool.resource, mimetype, requestModifiedSince, reply)
    {
      if requestModifiedSince != -1 && pool.LastModified() <= requestModifiedSince {
        return Ok(()), reply.(status := 304);
      }
      sent := reply.(contentType := Some(pool.ContentType(mimetype)),
                     contentLength := Some(ToInt32(pool.Size())),
                     lastModified := Some(pool.LastModified()));
      var content := pool.InputStream();
      if content.None? {
        return Err(IOException), sent;
      }
      r, sent := Ok(()), sent.(body := reply.body + content.value);
    }

    /** `sendAndSave`: the whole request under the resource's lock, which is
        obtained with a read lock, upgraded by releasing the read lock before
        taking the write lock to save, and released in the finally clause. */
    method SendAndSave(data: RequestedData, pool: PoolFile, target: Url, reply: Reply, table: ResourceLock, now: nat)
      returns (r: Result<bool, Exception>, out: Reply)
      requires table.Valid() && HoldsNone(table)
      modifies this, pool.fs, table, LockObjects(table.locks)
      ensures Served(lastChecked, pool.fs.disk, out, r)
                == Respond(fetchers, mimetype, old(lastChecked), old(pool.fs.disk), data, pool, target, reply, now)
      ensures table.Valid() && table.locks == old(table.locks) && table.outstanding == old(table.outstanding)
      ensures HoldsNone(table)
    {
      var key := data.requestedResource;
      ghost var outstanding := table.outstanding;
      var lock;
      ghost var before;
      lock, before := Acquire(table, key);
      r, out := Locked(data, pool, target, reply, lock, now, LockObjects(before));
      Release(table, key, lock, before, outstanding);
    }

    /** The body of `sendAndSave` between obtaining and releasing the locker:
        it takes the read lock, and releases whichever lock it holds at the end. */
    method Locked(data: RequestedData, pool: PoolFile, target: Url, reply: Reply, lock: ReadWriteLock, now: nat,
                  ghost others: set<ReadWriteLock>)
      returns (r: Result<bool, Exception>, out: Reply)
      requires lock.readHolds == 0 && lock.writeHolds == 0 && Idle(others)
      modifies this, pool.fs, lock
      ensures Served(lastChecked, pool.fs.disk, out, r)
                == Respond(fetchers, mimetype, old(lastChecked), old(pool.fs.disk), data, pool, target, reply, now)
      ensures lock.readHolds == 0 && lock.writeHolds == 0 && Idle(others)
    {
      lock.ReadLock();
      var writing;
      r, out, writing := Attempt(data, pool, target, reply, lock, now);
      if writing {
        lock.WriteUnlock();
      } else {
        lock.ReadUnlock();
      }
    }

    /** The try block of `sendAndSave` with the catch clause; `writing` tells
        which lock the finally clause releases. */
    method Attempt(data: RequestedData, pool: PoolFile, target: Url, reply: Reply, lock: ReadWriteLock, now: nat)
      returns (r: Result<bool, Exception>, out: Reply, writing: bool)
      requires lock.readHolds == 1 && lock.writeHolds == 0
      modifies this, pool.fs, lock
      ensures Served(lastChecked, pool.fs.disk, out, r)
                == Respond(fetchers, mimetype, old(lastChecked), old(pool.fs.disk), data, pool, target, reply, now)
      ensures if writing then lock.readHolds == 0 && lock.writeHolds == 1 else lock.readHolds == 1 && lock.writeHolds == 0
    {
      var pm := pool.LastModified();
      if pm != 0 {
        var required := IsNewVersionCheckRequired(pool.repoPackage, data.requestedResource, now);
        if !required {
          var e;
          e, out := SendLocalFile(pool, data.requestModifiedSince, reply);
          return if e.Ok? then Ok(true) else Err(IOException), out, false;
        }
      }
      r, out, writing := FetchAndSend(data, pool, target, reply, lock, now, pm);
    }

    /** From the fetcher lookup on. */
    method FetchAndSend(data: RequestedData, pool: PoolFile, target: Url, reply: Reply, lock: ReadWriteLock,
                        now: nat, pm: int)
      returns (r: Result<bool, Exception>, out: Reply, writing: bool)
      requires lock.readHolds == 1 && lock.writeHolds == 0
      modifies pool.fs, lock
      ensures Served(lastChecked, pool.fs.disk, out, r)
                == Remote(fetchers, mimetype, lastChecked, old(pool.fs.disk), data, pool, target, reply, now, pm)
      ensures if writing then lock.readHolds == 0 && lock.writeHolds == 1 else lock.readHolds == 1 && lock.writeHolds == 0
    {
      var fetcher := GetInstance(fetchers, target);
      if fetcher.None? {
        return Err(Initialization), reply, false;
      }
      var fetched := Fetch(fetcher.value, target, pm, data.userAgent);
      if fetched.Err? {
        Fail(pool, pm, fetched.error);
        return Err(fetched.error), reply, false;
      }
      r, out, writing := DeliverFetched(data, pool, fetched.value, reply, lock, now, pm);
    }

    /** From the fetched resource on. */
    method DeliverFetched(data: RequestedData, pool: PoolFile, f: FetchedResource, reply: Reply, lock: ReadWriteLock,
                          now: nat, pm: int)
      returns (r: Result<bool, Exception>, out: Reply, writing: bool)
      requires lock.readHolds == 1 && lock.writeHolds == 0
      modifies pool.fs, lock
      ensures Served(lastChecked, pool.fs.disk, out, r)
                == Deliver(mimetype, lastChecked, old(pool.fs.disk), data, pool, f, reply, now, pm)
      ensures if writing then lock.readHolds == 0 && lock.writeHolds == 1 else lock.readHolds == 1 && lock.writeHolds == 0
    {
      if f.contentType.Err? {
        Fail(pool, pm, f.contentType.error);
        return Err(f.contentType.error), reply, false;
      }
      if f.contentLength.Err? {
        Fail(pool, pm, f.contentLength.error);
        return Err(f.contentLength.error), reply, false;
      }
      var headed := SetHeader(reply, f.contentType.value, f.contentLength.value, f.lastModified);
      if !f.modified {
        var e;
        e, out := SendLocalFile(pool, data.requestModifiedSince, headed);
        if e.Err? {
          Fail(pool, pm, IOException);
          return Err(IOException), out, false;
        }
        return Ok(true), out, false;
      }
      lock.ReadUnlock();
      lock.WriteLock();
      writing := true;
      var e;
      e, out := SaveFetched(pool, f, f.contentLength.value, headed, now);
      if e.Err? {
        Fail(pool, pm, e.error);
        return Err(e.error), out, true;
      }
      r := Ok(false);
    }

    /** Copy, stamp, check and store. */
    method SaveFetched(pool: PoolFile, f: FetchedResource, contentLength: int, reply: Reply, now: nat)
      returns (r: Result<(), Exception>, out: Reply)
      modifies pool.fs
      ensures |pool.tmpResource| == |pool.resource| + 4
      ensures Saved(pool.fs.disk, out, r)
                == Save(old(pool.fs.disk), pool.resource, pool.tmpResource, f, contentLength, reply, now)
    {
      var written := pool.WriteTemp(Copied(f.body), now);
      if written.Err? {
        return written, reply;
      }
      var tee := reply.(closed := true);
      if f.body.None? {
        return Err(NullPointer), tee;
      }
      out := tee.(body := reply.body + f.body.value);
      if f.lastModified < 0 {
        return Err(IllegalArgument), out;
      }
      var stamped := pool.SetLastModified(f.lastModified);
      if stamped.Err? {
        return stamped, out;
      }
      if contentLength != 0 && |f.body.value| != contentLength {
        return Err(IOException), out;
      }
      var stored := pool.Store();
      r := if stored.Ok? then Ok(()) else Err(IOException);
    }

    /** The catch clause. */
    method Fail(pool: PoolFile, pm: int, e: Exception)
      modifies pool.fs
      ensures pool.fs.disk == AfterFailure(old(pool.fs.disk), pool.resource, pool.tmpResource, pm, e)
    {
      if e == IOException && pm == 0 {
        pool.Remove();
      }
    }
  }
}
