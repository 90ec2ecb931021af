/** `Configuration`: the settings read at start-up and the table of backends,
    created on first use, one per server name the proxy is addressed by. */
module Configurations {
  import opened Common
  import opened Urls
  import opened FileSystems
  import opened Requests
  import opened Backends

  /** What `getBackend` leaves, on values: the backend it returns (None for
      null) and the disk after it. */
  datatype Looked = Looked(backend: Option<BackendView>, disk: Disk)

  /** `getBackend` for a request on values, given the backend `stored` under
      its server name: that one; otherwise a new DEB backend caching under
      `cacheDir/serverName`, whose directory is created first, with the single
      mirror `hostUrl/requestedBackend`; null when either fails. */
  function Lookup(d: Disk, cacheDir: string, stored: Option<BackendView>, req: RequestedData): (r: Looked)
  {
    if stored.Some? then Looked(stored, d)
    else
      var dir := Child(cacheDir, req.serverName);
      var made := ForceMkdirStep(d, dir);
      var url := ParseUrl(req.hostUrl + "/" + req.requestedBackend);
      if made.ok && url.Ok? then Looked(Some(BackendView(DEB, Some(dir), Some([url.value]))), made.disk)
      else Looked(None, made.disk)
  }

  /** A backend is created only for a server name without one; it is a DEB
      backend with one mirror, built from the request's host URL and backend
      name, in a directory that exists afterwards. Looking up a stored backend
      changes nothing, and neither lookup touches a file. */
  lemma LookupOutcome(d: Disk, cacheDir: string, stored: Option<BackendView>, req: RequestedData)
    ensures var r := Lookup(d, cacheDir, stored, req);
            r.disk.files == d.files && r.disk.locked == d.locked && d.dirs <= r.disk.dirs
            && (stored.Some? ==> r == Looked(stored, d))
            && (stored.None? && r.backend.Some? ==>
                  var dir := Child(cacheDir, req.serverName);
                  dir in r.disk.dirs && r.backend.value.backendType == DEB && r.backend.value.directory == Some(dir)
                  && ParseUrl(req.hostUrl + "/" + req.requestedBackend).Ok?
                  && r.backend.value.urls == Some([ParseUrl(req.hostUrl + "/" + req.requestedBackend).value]))
            && (stored.None? && ParseUrl(req.hostUrl + "/" + req.requestedBackend).Err? ==> r.backend.None?)
  {
  }

  class Configuration {
    const fs: FileSystem
    const cacheDir: string
    const httpProxy: Option<string>
    /** `getMaxVersions()`: may be null, and callers check it. */
    const maxVersions: Option<int>
    /** The host-name remapping `getRemap` consults. */
    const remaps: map<string, string>
    var backendSystems: map<string, Backend>

    constructor Init(fs: FileSystem, cacheDir: string, httpProxy: Option<string>,
                     maxVersions: Option<int>, remaps: map<string, string>)
      ensures this.fs == fs && this.cacheDir == cacheDir && this.httpProxy == httpProxy
      ensures this.maxVersions == maxVersions && this.remaps == remaps
      ensures backendSystems == map[]
    {
      this.fs := fs;
      this.cacheDir := cacheDir;
      this.httpProxy := httpProxy;
      this.maxVersions := maxVersions;
      this.remaps := remaps;
      backendSystems := map[];
    }

    /** `getRemap(serverName)`: the host name to use instead, or null. */
    function Remap(serverName: string): (r: Option<string>)
      ensures r.Some? <==> serverName in remaps
      ensures r.Some? ==> r.value == remaps[serverName]
    {
      if serverName in remaps then Some(remaps[serverName]) else None
    }

    /** The backend stored under a server name, as a value. */
    ghost function Stored(serverName: string): (r: Option<BackendView>)
      reads this, if serverName in backendSystems then {backendSystems[serverName]} else {}
      ensures r.Some? <==> serverName in backendSystems
      ensures r.Some? ==> r.value == backendSystems[serverName].View()
    {
      if serverName in backendSystems then Some(backendSystems[serverName].View()) else None
    }

    /** `getBackend(requestedData)`: the backend stored for the server name;
        otherwise a new DEB backend caching under `cacheDir/serverName` with the
        single mirror `hostUrl/requestedBackend`, stored under the server name.
        Where the directory cannot be created or the URL does not parse, null
        and nothing stored. */
    method GetBackend(req: RequestedData) returns (r: Option<Backend>)
      modifies this, fs
      ensures var looked := Lookup(old(fs.disk), cacheDir, old(Stored(req.serverName)), req);
              fs.disk == looked.disk && (r.Some? <==> looked.backend.Some?)
              && (r.Some? ==> r.value.View() == looked.backend.value && Stored(req.serverName) == looked.backend)
      ensures req.serverName in old(backendSystems) ==>
                r == Some(old(backendSystems)[req.serverName])
                && backendSystems == old(backendSystems) && fs.disk == old(fs.disk)
      ensures req.serverName !in old(backendSystems) ==>
                var dir := Child(cacheDir, req.serverName);
                var made := ForceMkdirStep(old(fs.disk), dir);
                var url := ParseUrl(req.hostUrl + "/" + req.requestedBackend);
                fs.disk == made.disk
                && (r.Some? <==> made.ok && url.Ok?)
                && (r.None? ==> backendSystems == old(backendSystems))
                && (r.Some? ==> fresh(r.value) && r.value.backendType == DEB
                                && r.value.directory == Some(dir) && r.value.urls == Some([url.value])
                                && backendSystems == old(backendSystems)[req.serverName := r.value])
    {
      if req.serverName in backendSystems {
        return Some(backendSystems[req.serverName]);
      }
      r := CreateBackend(req, ParseUrl(req.hostUrl + "/" + req.requestedBackend));
    }

    /** The creating half of `getBackend`, given the outcome of parsing the mirror URL. */
    method CreateBackend(req: RequestedData, url: Result<Url, MalformedUrl>) returns (r: Option<Backend>)
      modifies this, fs
      ensures var dir := Child(cacheDir, req.serverName);
              var made := ForceMkdirStep(old(fs.disk), dir);
              fs.disk == made.disk
              && (r.Some? <==> made.ok && url.Ok?)
              && (r.None? ==> backendSystems == old(backendSystems))
              && (r.Some? ==> fresh(r.value) && r.value.backendType == DEB
                              && r.value.directory == Some(dir) && r.value.urls == Some([url.value])
                              && backendSystems == old(backendSystems)[req.serverName := r.value])
    {
      var backend := new Backend.Init(DEB);
      var dir := Child(cacheDir, req.serverName);
      var made := fs.ForceMkdir(dir);
      if !made {
        return None;
      }
      backend.SetDirectory(Some(dir));
      if url.Err? {
        return None;
      }
      assert Added([], url.value) == [url.value];
      backend.AddUrl(url.value);
      backendSystems := backendSystems[req.serverName := backend];
      return Some(backend);
    }
  }
}
