# japt-proxy in Dafny

Japt-Proxy is a caching proxy for APT (Debian) and RPM repositories. A client
asks the proxy for `/<backend>/<target>`. The proxy maps the host name the
request was addressed to onto a backend: a cache directory plus a list of
mirror URLs. It then serves the requested file from its on-disk package pool,
which works as follows:

- A cached copy of an immutable package is sent as it is. A cached copy of a
  mutable resource (an index, say) is re-checked upstream at most once a minute.
- Otherwise the mirrors are tried in order. Each one gets a conditional HTTP
  GET or an anonymous FTP listing.
- A newer version is streamed to the client and into a temporary file at the
  same time. The temporary file is then renamed over the cached copy.
- Every download is serialised per resource by a reference-counted table of
  read/write locks.
- When a maximum number of versions is configured, each freshly stored package
  is scheduled for a background sweep. The sweep deletes surplus versions of
  the same package and architecture.

The model has one module per component of the program (file in brackets).

**Shared pieces.**
- `Common` (common.dfy): options and results, the exceptions, Java's `int`
  cast, and the string helpers the code borrows from commons-lang.
- `FileSystems` (filesystem.dfy): the disk as a value, with one step function
  per `java.io.File` operation. A `FileSystem` class holds the disk, and its
  methods change it in place.
- `Urls` (urls.dfy): what `new URL(spec)` makes of a string, and
  `toExternalForm()`.

**Packages and versions.**
- `Packages` (packages.dfy): `GenericRepoPackage`, its `equals`/`hashCode`
  with 32-bit wrap-around, the file-name parser `RepoPackageBuilder`, and the
  `RepoPackageFilter`.
- `VersionCompare` (version_compare.dfy): the dpkg-style comparator.
  `StrCompare` is the source's loop, proved equal to a recursive definition.
  Antisymmetry and reflexivity are proved of that definition. So are the
  digit-run rules (leading zeros ignored, the longer run wins, the first
  differing digit decides), for runs that follow any common prefix ending in
  a non-digit, such as `1.10` > `1.9` and `1.02` = `1.2`.
- `VersionOrderingTest` and `VersionOrderingSteps` (version_test.dfy): the 21
  versions of the repository's comparator test. It proves that each version of
  the expected order compares below the next one, and that the shuffled list
  is a permutation of the expected one. The test's sort is not modelled.

**Configuration and storage.**
- `ResourceLocks` (resource_lock.dfy): the lock table.
- `PoolFiles` (pool_file.dfy): a cached file and its `.tmp` partner.
- `Backends` (backend.dfy) and `Configurations` (configuration.dfy): the
  backends, created on first use per server name.
- `DiskPackagePools` (disk_package_pool.dfy): the pool and its eviction sweep.
- `EvictionOrder` (eviction_order.dfy): a concrete sweep that deletes the
  newer of two versions.

**Fetching and serving.**
- `Fetchers` (fetchers.dfy): the HTTP and FTP fetchers, and the pool that
  picks a fetcher by protocol.
- `IOHandlers` (io_handler.dfy): the cache-or-fetch handler `sendAndSave`.
  The whole method is specified by the function `Respond`, and the promises
  it keeps are collected in `WellServed`.
- `Finders` (finder.dfy): the mirror loop.
- `JaptProxies` (japt_proxy.dfy): request parsing and dispatch.
- `HttpClients` (http_client.dfy): the HTTP client's pool, timeouts and
  upstream proxy.

**Classes versus values.** Objects the program updates in place are classes:
- the file system, the locks and the lock table;
- the pool file, the backend and the configuration;
- the package pool, the I/O handler, the finder, the proxy;
- the HTTP client builder and its configurer.

Their methods are proved against specification functions of the old state.
Pure computations are functions: parsing, comparison, the fetchers, and what
one request does to disk and response. The remote side is a parameter:
- the HTTP client is a function from request to response;
- an FTP server is a record of whether it answers, whether it accepts an
  anonymous login, and its listings.

The clock is a parameter too (`now`).

**Where the code and its documentation disagree, the model follows the code.**
- The sweep sorts a parsed copy of the directory listing but discards the
  sorted array. It then deletes the first `count - maxVersions` names in
  listing order, not the oldest versions. The model does the same, and
  `EvictionOrder.SweepMayEvictNewest` exhibits a listing where the newest
  version is deleted.
- A version check that has expired is removed from the map, not refreshed.
  The request after an expiry therefore checks again, and only that one
  records the time (`IOHandlers.ExpiredCheckNotRefreshed`).
- A pool file without a package (an index, say) is still scheduled by the
  finder. Its sweep ends in a NullPointerException. Nothing catches it in the
  timer task, so it also ends the timer's thread, and no later sweep runs
  (`DiskPackagePools.DiskPackagePool.Tick`).
- HttpClient gives a 304 response no entity, but the HTTP resource reads its
  length from the entity. So a cached copy that the server confirms current
  is never sent: the request fails with a NullPointerException, and the
  response and the pool stay as they were (`IOHandlers.NotModifiedNeverServed`).
- Once the temporary file of a download is open, the `finally` clause closes
  the tee, and with it the response's stream, before `handleBackend` asks
  whether the response is committed. So every IOException after that point is
  rethrown: a failed stamp, length check or store never falls back to the next
  mirror (`IOHandlers.OpenedTeeCommits`, `Finders.OpenedDownloadFailureRethrown`).
- The FTP resource's name is never assigned. Its content type is looked up
  for a null name, and its stream is what the server sends for a RETR
  without a name (`Fetchers.FtpSite.unnamedRetrieval`). A null stream makes
  the save a NullPointerException after the empty temporary file is opened.
- The backend is looked up by the request's server name, not by the backend
  segment of its path. The path's backend segment only becomes part of the
  mirror URL of a backend created on the fly.
- `RequestedData` is used with more members than its class declares: the two
  URLs, the scheme, the server name and the port. `Configuration.getRemap`
  is not in the configuration class; the model takes it to be a lookup in a
  map of host names.

## Model

| member | source | states |
|---|---|---|
| VersionCompare.Order | app/src/main/java/net/siegmar/japtproxy/packages/debian/DebianPackageVersionComparator.java:43-51 | past the end is 0, `~` alone is -1, digits 0, letters their code, anything else its code plus 256 (above every letter) |
| VersionCompare.StrCompare | app/src/main/java/net/siegmar/japtproxy/packages/AbstractRepoPackageVersionComparator.java:66-116 | the loop returns exactly the recursive comparison `CompareFrom` of the two strings, null read as empty |
| VersionCompare.CompareNonDigits | app/src/main/java/net/siegmar/japtproxy/packages/AbstractRepoPackageVersionComparator.java:76-84 | the non-digit loop stops at the first position where the orders differ, or where both strings reach a digit or their end |
| VersionCompare.CompareDigitRuns | app/src/main/java/net/siegmar/japtproxy/packages/AbstractRepoPackageVersionComparator.java:94-100 | the digit loop walks both digit runs together and remembers the first differing digit |
| VersionCompare.SkipNonDigitsFacts | app/src/main/java/net/siegmar/japtproxy/packages/AbstractRepoPackageVersionComparator.java:76-84 | the non-digit phase advances both positions equally, decides only on a non-zero difference and otherwise stops where neither string has a non-digit |
| VersionCompare.SkipZerosFacts | app/src/main/java/net/siegmar/japtproxy/packages/AbstractRepoPackageVersionComparator.java:86-92 | zero stripping skips exactly the zeros and stops at a non-zero or the end |
| VersionCompare.CompareDigitsFacts | app/src/main/java/net/siegmar/japtproxy/packages/AbstractRepoPackageVersionComparator.java:94-100 | the digit phase stops where either run ends and keeps the first difference it saw |
| VersionCompare.PassProgress | app/src/main/java/net/siegmar/japtproxy/packages/AbstractRepoPackageVersionComparator.java:73-113 | each pass of the outer loop consumes input, so the loop terminates |
| VersionCompare.PassUnfold | app/src/main/java/net/siegmar/japtproxy/packages/AbstractRepoPackageVersionComparator.java:73-113 | the comparison is the first decided pass, or the comparison of what follows it |
| VersionCompare.StrCompareAntisymmetric | app/src/main/java/net/siegmar/japtproxy/packages/AbstractRepoPackageVersionComparator.java:66-116 | swapping the strings negates the result |
| VersionCompare.CompareFromAntisymmetric | app/src/main/java/net/siegmar/japtproxy/packages/AbstractRepoPackageVersionComparator.java:73-113 | the comparison from any pair of positions is antisymmetric |
| VersionCompare.SkipNonDigitsSwap | app/src/main/java/net/siegmar/japtproxy/packages/AbstractRepoPackageVersionComparator.java:76-84 | the non-digit phase on swapped strings ends at the swapped positions with the negated difference |
| VersionCompare.CompareDigitsSwap | app/src/main/java/net/siegmar/japtproxy/packages/AbstractRepoPackageVersionComparator.java:94-100 | the digit phase on swapped strings ends at the swapped positions with the negated first difference |
| VersionCompare.PassSwap | app/src/main/java/net/siegmar/japtproxy/packages/AbstractRepoPackageVersionComparator.java:73-113 | one pass on swapped strings is the swapped pass |
| VersionCompare.NullIsEmpty | app/src/main/java/net/siegmar/japtproxy/packages/AbstractRepoPackageVersionComparator.java:67-68 | a null version compares exactly as the empty string |
| VersionCompare.SameTailCompareZero | app/src/main/java/net/siegmar/japtproxy/packages/AbstractRepoPackageVersionComparator.java:73-113 | two strings with equal remainders compare 0 from those positions |
| VersionCompare.StrCompareReflexive | app/src/main/java/net/siegmar/japtproxy/packages/AbstractRepoPackageVersionComparator.java:66-116 | every string compares 0 with itself |
| VersionCompare.CommonPrefixSkipped | app/src/main/java/net/siegmar/japtproxy/packages/AbstractRepoPackageVersionComparator.java:73-113 | two versions that share a prefix ending in a non-digit compare as they do from the end of that prefix |
| VersionCompare.LeadingZerosSkipped | app/src/main/java/net/siegmar/japtproxy/packages/AbstractRepoPackageVersionComparator.java:86-92 | zeros at the start of a digit run are skipped: comparing from before them is comparing from after them |
| VersionCompare.LongerRunDecides | app/src/main/java/net/siegmar/japtproxy/packages/AbstractRepoPackageVersionComparator.java:102-108 | at any position, the longer of two digit runs without leading zeros makes the comparison 1 |
| VersionCompare.FirstDiffDecides | app/src/main/java/net/siegmar/japtproxy/packages/AbstractRepoPackageVersionComparator.java:94-112 | at any position, of two equally long digit runs without leading zeros the first differing digit decides, by its difference |
| VersionCompare.LeadingZerosIgnored | app/src/main/java/net/siegmar/japtproxy/packages/AbstractRepoPackageVersionComparator.java:86-92 | after any common prefix ending a pass, leading zeros before a digit run (or the end) do not change the comparison |
| VersionCompare.LongerDigitRunWins | app/src/main/java/net/siegmar/japtproxy/packages/AbstractRepoPackageVersionComparator.java:102-108 | after any common prefix ending a pass, of two digit runs without leading zeros the longer one is greater, both ways round |
| VersionCompare.FirstDifferingDigitDecides | app/src/main/java/net/siegmar/japtproxy/packages/AbstractRepoPackageVersionComparator.java:94-112 | after any common prefix ending a pass, of two equally long digit runs the first differing digit decides, by its difference |
| VersionCompare.DigitRunExamples | app/src/main/java/net/siegmar/japtproxy/packages/AbstractRepoPackageVersionComparator.java:86-112 | `1.10` compares above `1.9`, and `1.02` equal to `1.2` |
| VersionCompare.TildeBeforeEnd | app/src/main/java/net/siegmar/japtproxy/packages/debian/DebianPackageVersionComparator.java:44-50 | a version starting with `~` sorts before the empty version |
| VersionCompare.Compare | app/src/main/java/net/siegmar/japtproxy/packages/AbstractRepoPackageVersionComparator.java:128-141 | a null basename or architecture is an error, different basenames or architectures are rejected; otherwise the version comparison, and the revision comparison when versions tie |
| VersionCompare.CompareAntisymmetric | app/src/main/java/net/siegmar/japtproxy/packages/AbstractRepoPackageVersionComparator.java:128-141 | comparing two comparable packages the other way round negates the result |
| VersionCompare.CompareReflexive | app/src/main/java/net/siegmar/japtproxy/packages/AbstractRepoPackageVersionComparator.java:128-141 | a package with basename and architecture compares 0 with itself |
| VersionOrderingTest.ShuffledIsPermutation | app/src/test/java/net/siegmar/japtproxy/packagepool/VersionComparatorTest.java:49-96 | the test's shuffled list is a rearrangement of its ordered list, by two mutually inverse index maps |
| VersionOrderingTest.OrderedIsStrictlyAscending | app/src/test/java/net/siegmar/japtproxy/packagepool/VersionComparatorTest.java:99-101 | every package of the expected order compares strictly below the next one |
| Packages.Equals | app/src/main/java/net/siegmar/japtproxy/packages/GenericRepoPackage.java:123-153 | `equals` holds exactly for a non-null package with the same five fields and immutability |
| Packages.HashCode | app/src/main/java/net/siegmar/japtproxy/packages/GenericRepoPackage.java:157-165 | the 32-bit folded hash is the exact polynomial over the field hashes, reduced to a Java int |
| Packages.HashChain | app/src/main/java/net/siegmar/japtproxy/packages/GenericRepoPackage.java:157-165 | folding `31 * h + t` with wrap-around after every step equals wrapping the exact polynomial once |
| Packages.EqualsConsistentWithHashCode | app/src/main/java/net/siegmar/japtproxy/packages/GenericRepoPackage.java:123-165 | equal packages have equal hash codes |
| Packages.NewPackage | app/src/main/java/net/siegmar/japtproxy/packages/RepoPackageBuilder.java:44-58 | a file name the pattern does not match is an invalid-name error for that name; a match gives the five groups as fields, immutable |
| Packages.NewPackages | app/src/main/java/net/siegmar/japtproxy/packages/RepoPackageBuilder.java:60-69 | all names parsed, element by element, or the error of the first name that does not parse |
| Packages.Accept | app/src/main/java/net/siegmar/japtproxy/packages/RepoPackageFilter.java:46-56 | accepts exactly a parsable name with the reference's basename and architecture; an unparsable name is rejected; a null reference basename or architecture throws NullPointerException |
| ResourceLocks.ResourceLock.ObtainLocker | app/src/main/java/net/siegmar/japtproxy/misc/ResourceLock.java:52-65 | an existing entry's lock is returned with its count raised by one; a new entry gets a fresh unheld lock with count 1 |
| ResourceLocks.ResourceLock.ReleaseLocker | app/src/main/java/net/siegmar/japtproxy/misc/ResourceLock.java:72-78 | the count drops by one and the entry is removed when it reaches 0; the counts keep matching the outstanding obtains |
| ResourceLocks.ObtainKeepsCounts | app/src/main/java/net/siegmar/japtproxy/misc/ResourceLock.java:52-65 | after an obtain each count still equals the number of outstanding obtains of its key |
| ResourceLocks.ReleaseKeepsCounts | app/src/main/java/net/siegmar/japtproxy/misc/ResourceLock.java:72-78 | after a release of an outstanding key the counts still equal the outstanding obtains |
| ResourceLocks.ReleaseUndoesObtain | app/src/main/java/net/siegmar/japtproxy/misc/ResourceLock.java:52-78 | releasing right after obtaining gives back the table it started from |
| ResourceLocks.CountsArePositive | app/src/main/java/net/siegmar/japtproxy/misc/ResourceLock.java:80-97 | every entry of a table that matches its obtains has count at least 1 |
| PoolFiles.PoolFile.Init | app/src/main/java/net/siegmar/japtproxy/poolobject/PoolFile.java:57-61 | the final file, its package, and the temporary file named by appending `.tmp` |
| PoolFiles.PoolFile.Create | app/src/main/java/net/siegmar/japtproxy/poolobject/PoolFile.java:57-65 | a fresh pool file for the resource and package once the parent directory exists; the disk is what `forceMkdir` of the parent leaves, its failure an IOException, and a resource without a parent a NullPointerException that changes nothing |
| PoolFiles.PoolFile.SetLastModified | app/src/main/java/net/siegmar/japtproxy/poolobject/PoolFile.java:79-83 | stamps the temporary file; a failed stamp is an IOException and changes nothing |
| PoolFiles.PoolFile.Store | app/src/main/java/net/siegmar/japtproxy/poolobject/PoolFile.java:123-133 | deletes an existing final file, then renames the temporary file over it; either failure is an IOException |
| PoolFiles.StoreSucceedsWhen | app/src/main/java/net/siegmar/japtproxy/poolobject/PoolFile.java:123-133 | storing succeeds exactly when any existing final file is a deletable file and the temporary file can be renamed into place |
| PoolFiles.PoolFile.Remove | app/src/main/java/net/siegmar/japtproxy/poolobject/PoolFile.java:139-142 | quietly deletes the final and the temporary file and nothing else |
| PoolFiles.RemoveIdempotent | app/src/main/java/net/siegmar/japtproxy/poolobject/PoolFile.java:139-142 | removing twice is removing once |
| PoolFiles.TempInvisible | app/src/main/java/net/siegmar/japtproxy/poolobject/PoolFile.java:71-117 | writing the temporary file leaves the final file's timestamp, size and content unchanged |
| Backends.Backend.AddUrl | app/src/main/java/net/siegmar/japtproxy/misc/Backend.java:91-97 | creates the URL set on first use and appends the URL unless it is already there, keeping the set free of duplicates |
| Backends.AddedIdempotent | app/src/main/java/net/siegmar/japtproxy/misc/Backend.java:91-97 | adding the same URL twice is adding it once |
| Backends.Backend.Create | app/src/main/java/net/siegmar/japtproxy/misc/Backend.java:49-54 | a null type is IllegalArgumentException; otherwise a backend with no directory and no URLs |
| Configurations.Configuration.GetBackend | app/src/main/java/net/siegmar/japtproxy/misc/Configuration.java:156-180 | the stored backend for the server name; otherwise a new DEB backend under `cacheDir/serverName` with the one mirror `hostUrl/backend`, stored only when both the directory and the URL succeed, null otherwise; on values, what `Lookup` gives |
| Configurations.LookupOutcome | app/src/main/java/net/siegmar/japtproxy/misc/Configuration.java:156-180 | a lookup never touches a file; a stored backend is returned as it is; a created one is DEB, caches in `cacheDir/serverName`, which then exists, and has only the mirror `hostUrl/backend`; a malformed mirror URL gives none |
| DiskPackagePools.DiskPackagePool.Start | app/src/main/java/net/siegmar/japtproxy/packagepool/DiskPackagePool.java:95-98 | schedules the periodic sweep and leaves the pending set as it is |
| DiskPackagePools.DiskPackagePool.GetPoolObject | app/src/main/java/net/siegmar/japtproxy/packagepool/DiskPackagePool.java:110-124 | the pool file under the backend directory, its package when the name parses and none otherwise, with the parent directory created (failure: IOException) |
| DiskPackagePools.FilterNames | app/src/main/java/net/siegmar/japtproxy/packagepool/DiskPackagePool.java:175-176 | the listing keeps exactly the accepted names, in listing order; a filter exception aborts the listing |
| DiskPackagePools.SweepDeletesListingPrefix | app/src/main/java/net/siegmar/japtproxy/packagepool/DiskPackagePool.java:161-205 | with at most `maxVersions` matches nothing changes; otherwise the first `count - maxVersions` listed matches are deleted (each unless it resists) and every other file stays |
| DiskPackagePools.SweepEvictsFirstListed | app/src/main/java/net/siegmar/japtproxy/packagepool/DiskPackagePool.java:176-204 | of two matching versions with a limit of one, the one listed first is deleted and the other kept |
| DiskPackagePools.SweepOne | app/src/main/java/net/siegmar/japtproxy/packagepool/DiskPackagePool.java:161-179 | a sweep never adds or changes files; a pool file without a package, or no limit configured, is a NullPointerException that changes nothing |
| DiskPackagePools.DiskPackagePool.SweepPoolFile | app/src/main/java/net/siegmar/japtproxy/packagepool/DiskPackagePool.java:161-205 | the per-file sweep does to the disk what `SweepOne` says |
| DiskPackagePools.DiskPackagePool.DeleteFirst | app/src/main/java/net/siegmar/japtproxy/packagepool/DiskPackagePool.java:198-204 | deletes the first `overhang` listed files, a failed delete skipped; an overhang beyond the listing deletes all and ends in an index error |
| DiskPackagePools.DiskPackagePool.RemoveOldPackages | app/src/main/java/net/siegmar/japtproxy/packagepool/DiskPackagePool.java:130-134 | adds the pool file to the pending set |
| DiskPackagePools.DiskPackagePool.Sweep | app/src/main/java/net/siegmar/japtproxy/packagepool/DiskPackagePool.java:146-159 | swaps the pending set for an empty one and sweeps each pending file once, in some order, stopping at the first exception |
| DiskPackagePools.SweepAllStops | app/src/main/java/net/siegmar/japtproxy/packagepool/DiskPackagePool.java:156-158 | an exception in one file's sweep ends the whole sweep |
| DiskPackagePools.DiskPackagePool.Destroy | app/src/main/java/net/siegmar/japtproxy/packagepool/DiskPackagePool.java:101-104 | cancels the schedule and drains the pending set once |
| DiskPackagePools.DiskPackagePool.Tick | app/src/main/java/net/siegmar/japtproxy/packagepool/DiskPackagePool.java:136-159 | an unscheduled timer does nothing; a scheduled run drains the pending set, sweeps each pending file once, and an exception from the sweep unschedules the timer for good |
| EvictionOrder.SweepMayEvictNewest | app/src/main/java/net/siegmar/japtproxy/packagepool/DiskPackagePool.java:186-204 | with the test's versions 3.0.1a-4 listed before 3.0.1a-3 and a limit of one, the sweep deletes the newer version and keeps the older |
| IOHandlers.CheckRequired | app/src/main/java/net/siegmar/japtproxy/misc/IOHandler.java:86-114 | never for an immutable package; a "no" leaves the map alone; only the resource's own entry can change |
| IOHandlers.CheckedOncePerMinute | app/src/main/java/net/siegmar/japtproxy/misc/IOHandler.java:86-114 | a first check is required and records the time; a check less than a minute later is not required |
| IOHandlers.ExpiredCheckNotRefreshed | app/src/main/java/net/siegmar/japtproxy/misc/IOHandler.java:106-112 | an expired entry is dropped, so the next check is required again and only then records the time |
| IOHandlers.IOHandler.IsNewVersionCheckRequired | app/src/main/java/net/siegmar/japtproxy/misc/IOHandler.java:86-114 | the answer and the new check map are those of `CheckRequired` |
| IOHandlers.SendLocalOutcome | app/src/main/java/net/siegmar/japtproxy/misc/IOHandler.java:127-157 | 304 for a client whose copy is current; otherwise the cached copy's type, timestamp and length, then its bytes, or an IOException with no body when it cannot be opened |
| IOHandlers.IOHandler.SendLocalFile | app/src/main/java/net/siegmar/japtproxy/misc/IOHandler.java:127-157 | the response and exception are those of `SendLocal` on the current disk |
| IOHandlers.SetHeader | app/src/main/java/net/siegmar/japtproxy/misc/IOHandler.java:303-319 | sets each of content type, length and timestamp only when known (non-null, non-zero), and touches nothing else |
| IOHandlers.SaveOutcome | app/src/main/java/net/siegmar/japtproxy/misc/IOHandler.java:252-286 | a successful save had a body and leaves it, with the remote timestamp, as the final file and no temporary file; failures are IOException, IllegalArgumentException, or NullPointerException exactly for a null stream once the temporary file is open; the client gets the body exactly when there is one and the temporary file opened, and the response's stream is closed exactly when that file opened |
| IOHandlers.SaveConfined | app/src/main/java/net/siegmar/japtproxy/misc/IOHandler.java:258-274 | saving touches only the final and the temporary file, and a failed save never replaces the final file |
| IOHandlers.UnknownLengthRejected | app/src/main/java/net/siegmar/japtproxy/misc/IOHandler.java:269-272 | a body whose length is read as -1 is never stored: only 0 means no length |
| IOHandlers.StoredWithoutTimestampLooksAbsent | app/src/main/java/net/siegmar/japtproxy/misc/IOHandler.java:187-194 | a body stored without a remote timestamp carries timestamp 0, which the next request takes for no cached copy |
| IOHandlers.AfterFailure | app/src/main/java/net/siegmar/japtproxy/misc/IOHandler.java:277-283 | an IOException with no previous copy removes both files; anything else leaves the disk as it was; it never installs a final file |
| IOHandlers.OpenedTeeCommits | app/src/main/java/net/siegmar/japtproxy/misc/IOHandler.java:258-286 | for a newer version, the response ends with its stream closed exactly when the temporary file opened (or it was closed before), so it is then committed whatever failed afterwards |
| IOHandlers.DeliverOutcome | app/src/main/java/net/siegmar/japtproxy/misc/IOHandler.java:217-283 | after the fetch, `sendAndSave` keeps the `WellServed` promises; a stored resource is the fetched body, also appended to the response; a length that cannot be read fails with its exception and an untouched response |
| IOHandlers.RemoteOutcome | app/src/main/java/net/siegmar/japtproxy/misc/IOHandler.java:207-283 | from the fetcher lookup on the promises hold, and no fetcher for the protocol is InitializationException with nothing changed |
| IOHandlers.RespondOutcome | app/src/main/java/net/siegmar/japtproxy/misc/IOHandler.java:171-301 | every `sendAndSave` keeps the `WellServed` promises: only the pool file's two files change, a cache hit leaves the disk alone, a stored copy is what the client got, and an IOException with no prior copy leaves neither file |
| IOHandlers.NotModifiedNeverServed | app/src/main/java/net/siegmar/japtproxy/misc/IOHandler.java:214-236 | a conditional HTTP request answered 304 without an entity ends in a NullPointerException with the disk and the response as they were, so the cached copy is not sent |
| IOHandlers.IOHandler.SendAndSave | app/src/main/java/net/siegmar/japtproxy/misc/IOHandler.java:171-301 | the check map, disk, response and result are those of `Respond`; the lock table and every lock are back as they were |
| IOHandlers.IOHandler.Locked | app/src/main/java/net/siegmar/japtproxy/misc/IOHandler.java:182-298 | takes the read lock and releases whichever lock is held at the end |
| IOHandlers.IOHandler.DeliverFetched | app/src/main/java/net/siegmar/japtproxy/misc/IOHandler.java:217-276 | the outcome is that of `Deliver`, with the write lock held, after releasing the read lock, exactly on the saving path |
| IOHandlers.IOHandler.SaveFetched | app/src/main/java/net/siegmar/japtproxy/misc/IOHandler.java:258-274 | copy, stamp, length check and store do what `Save` says |
| IOHandlers.ReleaseRestoresLocks | app/src/main/java/net/siegmar/japtproxy/misc/IOHandler.java:177-299 | obtaining and then releasing the locker gives back the lock table |
| Fetchers.HttpRequestFor | app/src/main/java/net/siegmar/japtproxy/fetcher/FetcherHttp.java:66-78 | the request is for the URL's external form, with If-Modified-Since exactly when the local timestamp is not 0 |
| Fetchers.UserAgentKeepsProxyAgent | app/src/main/java/net/siegmar/japtproxy/fetcher/FetcherHttp.java:68-72 | the trimmed User-Agent always contains the proxy's own `Japt-Proxy/` agent |
| Fetchers.HttpFetch | app/src/main/java/net/siegmar/japtproxy/fetcher/FetcherHttp.java:63-123 | 404 is ResourceUnavailableException with the connection released; another status than 200 or 304 an IOException; else modified unless a conditional request got 304, the entity's length and bytes, and without an entity a NullPointerException for the length and a null stream; the response stays open exactly on success |
| Fetchers.HttpUnmodifiedOnlyWhenConditional | app/src/main/java/net/siegmar/japtproxy/fetcher/FetcherHttp.java:99-102 | an unmodified answer comes only from a conditional request the server answered 304 |
| Fetchers.NotModifiedHasNoLength | app/src/main/java/net/siegmar/japtproxy/fetcher/FetchedResourceHttp.java:103-114 | a conditional request answered 304 without an entity is unmodified, its length a NullPointerException and its stream null |
| Fetchers.FtpFetch | app/src/main/java/net/siegmar/japtproxy/fetcher/FetcherFtp.java:61-109 | no connection or login is an IOException; no file ResourceUnavailableException; several an IOException; one file is modified unless the local copy is at least as new, with the file's timestamp and size, and as stream the server's answer to a RETR of the unset name; the client disconnects exactly on IOException |
| Fetchers.FtpEqualTimestampUnmodified | app/src/main/java/net/siegmar/japtproxy/fetcher/FetcherFtp.java:96-98 | a local copy with the remote file's own timestamp is not fetched again |
| Fetchers.GetInstance | app/src/main/java/net/siegmar/japtproxy/fetcher/FetcherPool.java:57-71 | the fetcher registered for the URL's protocol, null exactly when there is none |
| Finders.HandleOutcome | app/src/main/java/net/siegmar/japtproxy/packages/RepoPackageFinder.java:118-148 | served on success, scheduling only a new download with max-versions set; ResourceUnavailable, Initialization and an uncommitted IOException (the response reset) try the next mirror; a committed IOException, one after the response's stream was closed or more than its buffer was written, is rethrown |
| Finders.Targets | app/src/main/java/net/siegmar/japtproxy/packages/RepoPackageFinder.java:87-92 | one target URL per mirror, in order: the mirror's external form followed by the target |
| Finders.MirrorsConfined | app/src/main/java/net/siegmar/japtproxy/packages/RepoPackageFinder.java:87-103 | the mirror loop changes only the pool file's two files, and schedules the pool file only after storing it |
| Finders.ServedMirrorEndsLoop | app/src/main/java/net/siegmar/japtproxy/packages/RepoPackageFinder.java:94-96 | a served mirror ends the loop; the mirrors after it are never asked |
| Finders.FailedMirrorSkipped | app/src/main/java/net/siegmar/japtproxy/packages/RepoPackageFinder.java:98-102 | a recoverable failure hands the request to the next mirror, with a reset response after an IOException; an IOException is recoverable only while the response is uncommitted, so never once a download's temporary file was opened |
| Finders.CommittedFailureRethrown | app/src/main/java/net/siegmar/japtproxy/packages/RepoPackageFinder.java:135-141 | an IOException after the response was committed, as every one is once a download's temporary file opened (`IOHandlers.OpenedTeeCommits`), ends the request with that exception and tries no other mirror |
| Finders.OpenedDownloadFailureRethrown | app/src/main/java/net/siegmar/japtproxy/packages/RepoPackageFinder.java:135-141 | a download without a cached copy whose temporary file opened and that then fails with an IOException ends the mirror loop with that exception, nothing scheduled, and no other mirror asked |
| Finders.AllMirrorsMissing | app/src/main/java/net/siegmar/japtproxy/packages/RepoPackageFinder.java:98-100 | when every mirror reports the resource missing the request is ResourceUnavailableException and nothing is scheduled |
| Finders.SendAndSaveRespondsWell | app/src/main/java/net/siegmar/japtproxy/packages/RepoPackageFinder.java:124 | every answer the finder gets from `sendAndSave` keeps the `WellServed` promises |
| Finders.RepoPackageFinder.FindSendSave | app/src/main/java/net/siegmar/japtproxy/packages/RepoPackageFinder.java:73-106 | when `ResolveRequest` fails, its exception with the response, checks and pending set untouched; otherwise a fresh pool file at the resolved path, and the check map, disk, response, result and pending set of the mirror loop `TryMirrors` over the resolved URLs, from the disk resolution left |
| Finders.RepoPackageFinder.Resolve | app/src/main/java/net/siegmar/japtproxy/packages/RepoPackageFinder.java:79-87 | the outcome and disk of `ResolveRequest` for the backend stored before: a fresh pool file at its path with the package the target parses to, and exactly the backend's URLs; or its exception |
| Finders.ResolveOutcome | app/src/main/java/net/siegmar/japtproxy/packages/RepoPackageFinder.java:79-87 | resolving only creates directories; a resolved pool file lies in the backend's directory, which then exists, and comes with the backend's URLs; failures are NullPointerException, or IOException exactly when the pool file's directory cannot be created |
| Finders.NewBackendResolution | app/src/main/java/net/siegmar/japtproxy/packages/RepoPackageFinder.java:79-87 | for a server name without a backend the pool file is `cacheDir/serverName/target` and the only mirror is `hostUrl/backend` |
| Finders.RepoPackageFinder.TryAll | app/src/main/java/net/siegmar/japtproxy/packages/RepoPackageFinder.java:87-103 | the loop ends in the state `TryMirrors` describes; the lock table is back as it was |
| Finders.RepoPackageFinder.HandleBackend | app/src/main/java/net/siegmar/japtproxy/packages/RepoPackageFinder.java:118-148 | one mirror: the state of `sendAndSave` and the verdict of `HandleOutcome`, the pool file pending exactly when scheduled |
| JaptProxies.BuildRequestedData | app/src/main/java/net/siegmar/japtproxy/JaptProxy.java:57-105 | a path that is null, holds `/../`, names no backend or has nothing after it is InvalidRequest; otherwise the path is its first character, a `/`-free backend and a target starting with `/`, and the headers and URLs are carried over |
| JaptProxies.RequestPathRoundTrip | app/src/main/java/net/siegmar/japtproxy/JaptProxy.java:84-102 | `/backend/target` is split back into that backend and that target |
| JaptProxies.RejectedRequestPaths | app/src/main/java/net/siegmar/japtproxy/JaptProxy.java:73-94 | no path, a `/../`, an empty backend (`//…`) and a path ending right after the backend are all rejected |
| JaptProxies.GetUrlParts | app/src/main/java/net/siegmar/japtproxy/JaptProxy.java:111-147 | the full URL extends the server-only URL by context path, servlet path, path info and `?query`; the server part uses the remapped host and writes the port in decimal unless it is 80 or 443 |
| JaptProxies.JaptProxy.HandleRequest | app/src/main/java/net/siegmar/japtproxy/JaptProxy.java:167-188 | an invalid request is rejected untouched; otherwise `Dispatched`: the backend `Lookup` gives, UnknownBackend for none, IllegalState for a type without finder, and otherwise what that finder's `findSendSave` leaves (`Forwarded`) |
| JaptProxies.JaptProxy.Dispatch | app/src/main/java/net/siegmar/japtproxy/JaptProxy.java:173-187 | `Dispatched`: the backend is the one `Lookup` gives (the stored object for a known server name, otherwise created from the request), the errors for none and for a type without finder, and the finder's outcome from the disk the lookup left |
| JaptProxies.JaptProxy.Forward | app/src/main/java/net/siegmar/japtproxy/JaptProxy.java:185-186 | `findSendSave` of the finder for the backend type: resolution from the stored backend, then the mirror loop, as `Forwarded` states |
| HttpClients.BuildNTCredentials | app/src/main/java/net/siegmar/japtproxy/fetcher/HttpClientConfigurer.java:132-147 | domain before and user after the first backslash, the local host as workstation; no local host name is InitializationException |
| HttpClients.CredentialsRebuildUserInfo | app/src/main/java/net/siegmar/japtproxy/fetcher/HttpClientConfigurer.java:122-130 | the credentials give back the user info, split at its first `:`; only an NT user without a local host name fails |
| HttpClients.CredentialsSplitAtFirstColon | app/src/main/java/net/siegmar/japtproxy/fetcher/HttpClientConfigurer.java:122-130 | `user:password` with a `:`-free user gives back both parts, as NT credentials exactly when the user has a backslash |
| HttpClients.ProxySettings | app/src/main/java/net/siegmar/japtproxy/fetcher/HttpClientConfigurer.java:96-120 | a malformed proxy URL is InitializationException; otherwise the route to its host and port (default port when none) and credentials for that host exactly when it has user info |
| HttpClients.HttpClientConfigurer.ConfigureRoute | app/src/main/java/net/siegmar/japtproxy/fetcher/HttpClientConfigurer.java:105-119 | the builder gets the route and credentials of `ProxySettings`; a credential failure leaves the route already set; pool and timeouts untouched |
| HttpClients.HttpClientConfigurer.ConfigureProxy | app/src/main/java/net/siegmar/japtproxy/fetcher/HttpClientConfigurer.java:96-120 | as `ConfigureRoute` for the parsed proxy URL: a malformed URL changes nothing and is InitializationException; a credential failure leaves the route to the proxy host set |
| HttpClients.ClientProxy | app/src/main/java/net/siegmar/japtproxy/fetcher/HttpClientConfigurer.java:89-91 | no proxy is configured when the setting is null |
| HttpClients.HttpClientConfigurer.Build | app/src/main/java/net/siegmar/japtproxy/fetcher/HttpClientConfigurer.java:73-94 | a fresh builder with 20 connections in total and per route, the configured timeouts, and the proxy settings of `ClientProxy`, or their InitializationException |
| Urls.ParseUrl | app/src/main/java/net/siegmar/japtproxy/misc/Configuration.java:169 | `new URL(spec)`: a trimmed spec without `:` is MalformedURLException; a parsed URL's protocol is the lower-cased text before the first `:` and a built-in one, its port -1 or more, and its path free of `?` and `#` |
| Urls.FormatParseUrl | app/src/main/java/net/siegmar/japtproxy/packages/RepoPackageFinder.java:92 | a trimmed URL with a lower-case protocol parses and prints back to itself, so `baseURL + target` is the mirror's text followed by the target |
| Common.ToInt32 | app/src/main/java/net/siegmar/japtproxy/packagepool/DiskPackagePool.java:178-179 | the Java `int` congruent to the value modulo 2^32, and the value itself when it fits |

## Left out

- The servlet, JaptProxyServer and the XML reading of the configuration are not part of this model; the configuration is built from its settings.
- Concurrency: locks are hold counts of the calling thread and the table is a reference count; blocking, fairness and other threads are not modelled. The timer thread of the pool is modelled as explicit calls of `Tick`, one per run of the timer task (`Start` only records that it is scheduled); start delay and repeat interval are not modelled.
- The clock is the parameter `now`; a file's timestamp is a `nat` in milliseconds and RFC 822 dates (second precision) are not formatted or parsed.
- I/O failures in the middle of a stream, and exceptions thrown by `close()` in the finally clauses, are not modelled; the remote body arrives whole.
- IOHandlers.Committed: a response counts as committed once its output stream was closed (by the tee's close at the end of `sendAndSave`) or more than the 4096-byte response buffer was written; explicit flushes and other commit rules of the servlet container are not modelled.
- Java's `URL.equals` (which resolves host names) is replaced by structural equality; URL parsing covers the protocols http, https, ftp and file, and not relative specs or IPv6 hosts.
- The file system has no path normalisation, relative paths or directory timestamps; `forceMkdir` creates only the named directory, not missing ancestors; listings hold files only.
- The file-name pattern is an abstract function from name to five optional groups (regular expressions are not modelled).
- The comparator's sorting in the sweep is not modelled beyond its guard: its result is discarded by the code, and neither the parsing before it nor the comparator can throw there: every name the filter accepted parses, and has the reference's non-null basename and architecture, which is all the comparator's checks demand. An exception from either would end the sweep, so this, and not the discarded result alone, is why the sort never changes what is deleted.
- The order in which the pending set is swept (a `HashSet`) is an arbitrary ghost order.
- Packages.NewPackages: returns a sequence rather than a freshly allocated array.
- ResourceLocks.ResourceLock.ReleaseLocker: requires the key to be obtained and unreleased; releasing an unknown key throws a NullPointerException in the code, which no caller does.
- `Util.getMimetype`, the content type of an FTP resource (whose name is never set) and the local host name are parameters.
- HttpClient connection pooling, timeouts' effect and retry behaviour are outside the model: only the recorded settings are.
- Finders.RepoPackageFinder.FindSendSave: states the outcome through a ghost `Responder` that is proved equal to `Respond` for every state, instead of unfolding `sendAndSave` at each mirror.
- `Util.USER_AGENT`'s version, read from a resource file, is a parameter.
- `long` overflow is not modelled except where the code casts to `int` (`ToInt32`).
- VersionCompare.StrCompare, VersionCompare.Order, Packages.HashCode and Common.Trim: a Dafny `char` stands for one Java `char` (a UTF-16 code unit); a character outside the Basic Multilingual Plane, which Java sees as two surrogate units, is one `char` here, so the comparison, the string hashes and the trimming are stated for strings of BMP characters only.
- VersionOrderingTest.OrderedIsStrictlyAscending: proves that each neighbour pair of the expected order ascends; the comparator's transitivity, and with it that sorting the shuffled list gives the expected list, is not proved, and the test's `Collections.sort` is not modelled.
- Urls.ParseUrl: `new URL(spec)` also drops a leading `url:` prefix and `URL` normalises `/./` and `/../` segments of the path; the model does neither, and parses such a spec as it is written.
