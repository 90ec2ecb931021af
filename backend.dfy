/** `Backend`: a repository the proxy serves, with its type, the directory
    that caches it and the mirror URLs tried in order. */
module Backends {
  import opened Common
  import opened Urls

  datatype BackendType = DEB | RPM

  /** `Set.add` on a `LinkedHashSet`: a new element goes last, a present one
      changes nothing. */
  function Added(urls: seq<Url>, url: Url): (r: seq<Url>)
    ensures url in urls ==> r == urls
    ensures url !in urls ==> r == urls + [url]
    ensures forall u :: u in r <==> u in urls || u == url
    ensures NoDuplicates(urls) ==> NoDuplicates(r)
  {
    if url in urls then urls
    else
      assert NoDuplicates(urls) ==> NoDuplicates(urls + [url]) by {
        if NoDuplicates(urls) { AppendNoDuplicates(urls, url); }
      }
      urls + [url]
  }

  /** Adding the same URL twice is adding it once. */
  lemma AddedIdempotent(urls: seq<Url>, url: Url)
    ensures Added(Added(urls, url), url) == Added(urls, url)
  {
  }

  /** A backend's state as a value: its type, directory and URLs. */
  datatype BackendView = BackendView(backendType: BackendType, directory: Option<string>, urls: Option<seq<Url>>)

  class Backend {
    const backendType: BackendType
    var directory: Option<string>
    /** The URL set, null until the first `addUrl` or `setUrls`; in iteration order. */
    var urls: Option<seq<Url>>

    constructor Init(backendType: BackendType)
      ensures this.backendType == backendType && directory.None? && urls.None?
    {
      this.backendType := backendType;
      directory := None;
      urls := None;
    }

    /** `new Backend(type)`: a null type throws IllegalArgumentException. */
    static method Create(backendType: Option<BackendType>) returns (r: Result<Backend, Exception>)
      ensures backendType.None? <==> r.Err?
      ensures r.Err? ==> r.error == IllegalArgument
      ensures r.Ok? ==> fresh(r.value) && r.value.backendType == backendType.value
                        && r.value.directory.None? && r.value.urls.None?
    {
      if backendType.None? {
        return Err(IllegalArgument);
      }
      var b := new Backend.Init(backendType.value);
      return Ok(b);
    }

    /** This backend as a value. */
    ghost function View(): (r: BackendView)
      reads this
      ensures r.backendType == backendType && r.directory == directory && r.urls == urls
    {
      BackendView(backendType, directory, urls)
    }

    ghost predicate Valid()
      reads this
    {
      urls.Some? ==> NoDuplicates(urls.value)
    }

    method SetDirectory(directory: Option<string>)
      modifies this
      ensures this.directory == directory && urls == old(urls)
    {
      this.directory := directory;
    }

    /** `setUrls(urls)`: the whole set is replaced. */
    method SetUrls(urls: Option<seq<Url>>)
      requires urls.Some? ==> NoDuplicates(urls.value)
      modifies this
      ensures Valid()
      ensures this.urls == urls && directory == old(directory)
    {
      this.urls := urls;
    }

    /** `addUrl(url)`: creates the set on first use, then adds. */
    method AddUrl(url: Url)
      requires Valid()
      modifies this
      ensures Valid()
      ensures urls == Some(Added(if old(urls).Some? then old(urls).value else [], url))
      ensures directory == old(directory)
    {
      var current := if urls.Some? then urls.value else [];
      urls := Some(Added(current, url));
    }
  }
}
