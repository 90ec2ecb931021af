/** `DiskPackagePool`: hands out the pool file of a requested resource,
    collects the files whose older versions should be evicted, and sweeps them:
    for each collected file, the other versions of the same package in its
    directory beyond the configured maximum are deleted. */
module DiskPackagePools {
  import opened Common
  import opened FileSystems
  import opened Packages
  import opened PoolFiles
  import opened Backends

  /** `dir.list(filter)` with the filter `accept` around `ref`: the accepted
      names in listing order; the filter's NullPointerException aborts the listing. */
  function FilterNames(pattern: Pattern, ref: GenericRepoPackage, names: seq<string>): (r: Result<seq<string>, Exception>)
    ensures r.Ok? <==> forall i :: 0 <= i < |names| ==> Accept(pattern, ref, names[i]).Ok?
    ensures r.Err? ==> r.error == NullPointer
    ensures r.Ok? ==> forall n :: n in r.value <==> n in names && Accept(pattern, ref, n) == Ok(true)
    ensures r.Ok? ==> |r.value| <= |names|
    ensures r.Ok? && NoDuplicates(names) ==> NoDuplicates(r.value)
  {
    if names == [] then Ok([])
    else
      var first := Accept(pattern, ref, names[0]);
      var rest := FilterNames(pattern, ref, names[1..]);
      assert forall n :: n in names <==> n == names[0] || n in names[1..];
      if first.Err? then Err(first.error)
      else if rest.Err? then
        assert !Accept(pattern, ref, names[1..][FirstError(pattern, ref, names[1..])]).Ok?;
        Err(rest.error)
      else if first.value then
        assert NoDuplicates(names) ==> names[0] !in names[1..];
        Ok([names[0]] + rest.value)
      else Ok(rest.value)
  }

  /** The position of a name the filter throws on. */
  ghost function FirstError(pattern: Pattern, ref: GenericRepoPackage, names: seq<string>): (k: nat)
    requires exists i :: 0 <= i < |names| && !Accept(pattern, ref, names[i]).Ok?
    ensures k < |names| && !Accept(pattern, ref, names[k]).Ok?
  {
    var i :| 0 <= i < |names| && !Accept(pattern, ref, names[i]).Ok?;
    i
  }

  /** An accepted name at the front of the listing is kept at the front. */
  lemma FilterKeepsAccepted(pattern: Pattern, ref: GenericRepoPackage, n: string, rest: seq<string>)
    requires Accept(pattern, ref, n) == Ok(true) && FilterNames(pattern, ref, rest).Ok?
    ensures FilterNames(pattern, ref, [n] + rest) == Ok([n] + FilterNames(pattern, ref, rest).value)
  {
    assert ([n] + rest)[0] == n && ([n] + rest)[1..] == rest;
  }

  /** The paths of `names` in `dir`. */
  function Paths(dir: string, names: seq<string>): set<string> {
    set n | n in names :: Child(dir, n)
  }

  /** `new File(dir, name).delete()` for each name in order, whatever the
      earlier deletions reported. */
  function DeleteAll(d: Disk, dir: string, names: seq<string>): (r: Disk)
    ensures r.files.Keys <= d.files.Keys
    ensures forall q :: q in r.files ==> r.files[q] == d.files[q]
    ensures forall n :: n in names && Child(dir, n) !in d.locked ==> Child(dir, n) !in r.files
    ensures forall q :: q in d.files && q !in Paths(dir, names) ==> q in r.files
    ensures r.dirs == d.dirs && r.locked == d.locked
    ensures Valid(d) ==> Valid(r)
    decreases names
  {
    if names == [] then d
    else
      var rest := DeleteAll(DeleteStep(d, Child(dir, names[0])).disk, dir, names[1..]);
      assert forall n :: n in names <==> n == names[0] || n in names[1..];
      assert Paths(dir, names) == {Child(dir, names[0])} + Paths(dir, names[1..]);
      rest
  }

  /** The number of versions over the limit, `files.length - maxVersions` in `int`. */
  function Overhang(count: nat, maxVersions: int): int {
    ToInt32(count - maxVersions)
  }

  /** The disk after sweeping one collected file, and what the sweep threw. */
  datatype Swept = Swept(disk: Disk, result: Result<(), Exception>)

  /** `r` is `d` with some files deleted, and nothing else changed. */
  ghost predicate Shrinks(d: Disk, r: Disk) {
    r.files.Keys <= d.files.Keys
    && (forall q :: q in r.files ==> r.files[q] == d.files[q])
    && r.dirs == d.dirs && r.locked == d.locked
    && (Valid(d) ==> Valid(r))
  }

  /** Every name parses as a package, so `newPackages` does not throw. */
  predicate AllParse(pattern: Pattern, names: seq<string>) {
    forall i :: 0 <= i < |names| ==> NewPackage(pattern, names[i]).Ok?
  }

  /** The last part of the sweep, on the accepted names `files` of `dir`: when
      there are more than `maxVersions`, and all of them parse, the first
      `overhang` are deleted in listing order. The sorted array is computed
      and dropped, so only whether it can be built matters. A negative limit
      runs the deletion past the end of the listing. */
  function Evict(d: Disk, dir: string, files: seq<string>, pattern: Pattern, maxVersions: int): (r: Swept)
    ensures Shrinks(d, r.disk)
  {
    var overhang := Overhang(|files|, maxVersions);
    if overhang <= 0 || !AllParse(pattern, files) then Swept(d, Ok(()))
    else if overhang <= |files| then Swept(DeleteAll(d, dir, files[..overhang]), Ok(()))
    else Swept(DeleteAll(d, dir, files), Err(IndexOutOfBounds))
  }

  /** The sweep from the listing of `dir` on, for the package `ref`: a missing
      directory or limit, or a filter that throws, is a NullPointerException. */
  function SweepListed(d: Disk, dir: string, ref: GenericRepoPackage, pattern: Pattern, maxVersions: Option<int>): (r: Swept)
    ensures Shrinks(d, r.disk)
    ensures maxVersions.None? || dir !in d.dirs ==> r == Swept(d, Err(NullPointer))
  {
    var listing := List(d, dir);
    if listing.None? then Swept(d, Err(NullPointer))
    else
      var files := FilterNames(pattern, ref, listing.value);
      if files.Err? || maxVersions.None? then Swept(d, Err(NullPointer))
      else Evict(d, dir, files.value, pattern, maxVersions.value)
  }

  /** `removeOldPackagesInternal(poolFile)`: list the directory of the file with
      the filter for its package and evict the versions over the limit. A null
      package or parent throws NullPointerException. */
  function SweepOne(d: Disk, resource: string, repoPackage: Option<GenericRepoPackage>,
                    pattern: Pattern, maxVersions: Option<int>): (r: Swept)
    ensures Shrinks(d, r.disk)
    ensures repoPackage.None? || maxVersions.None? ==> r == Swept(d, Err(NullPointer))
  {
    if repoPackage.None? || Parent(resource).None? then Swept(d, Err(NullPointer))
    else SweepListed(d, Parent(resource).value, repoPackage.value, pattern, maxVersions)
  }

  /** What the sweep of a non-null package with an existing directory and a
      non-negative limit does: nothing below the limit, otherwise the first
      `overhang` accepted names in listing order are deleted and every other
      file survives. */
  lemma SweepDeletesListingPrefix(d: Disk, resource: string, p: GenericRepoPackage,
                                  pattern: Pattern, maxVersions: nat, dir: string, files: seq<string>)
    requires Parent(resource) == Some(dir) && dir in d.dirs
    requires FilterNames(pattern, p, List(d, dir).value) == Ok(files)
    requires IsInt32(maxVersions) && |files| < 0x8000_0000
    ensures var r := SweepOne(d, resource, Some(p), pattern, Some(maxVersions));
            r.result == Ok(())
            && (|files| <= maxVersions ==> r.disk == d)
            && (|files| > maxVersions ==>
                  (forall i :: 0 <= i < |files| - maxVersions && Child(dir, files[i]) !in d.locked
                     ==> Child(dir, files[i]) !in r.disk.files)
                  && (forall q :: q in d.files && q !in Paths(dir, files[..|files| - maxVersions]) ==> q in r.disk.files))
  {
    var overhang := Overhang(|files|, maxVersions);
    assert overhang == |files| - maxVersions;
    forall i | 0 <= i < |files|
      ensures NewPackage(pattern, files[i]).Ok?
    {
      assert files[i] in files;
    }
    if |files| > maxVersions {
      forall i | 0 <= i < overhang
        ensures files[i] in files[..overhang]
      {
      }
    }
  }

  /** For a non-null package whose directory lists and filters without
      throwing, the sweep is the eviction on the accepted names. */
  lemma SweepOneEvicts(d: Disk, resource: string, ref: GenericRepoPackage, pattern: Pattern,
                       maxVersions: int, dir: string, files: seq<string>)
    requires Parent(resource) == Some(dir) && dir in d.dirs
    requires FilterNames(pattern, ref, List(d, dir).value) == Ok(files)
    ensures SweepOne(d, resource, Some(ref), pattern, Some(maxVersions)) == Evict(d, dir, files, pattern, maxVersions)
  {
    assert SweepListed(d, dir, ref, pattern, Some(maxVersions)) == Evict(d, dir, files, pattern, maxVersions);
  }

  /** With a limit of one and two accepted names listed, the first listed is
      deleted and the second kept, whatever their versions. */
  lemma SweepEvictsFirstListed(d: Disk, resource: string, pattern: Pattern, ref: GenericRepoPackage,
                               dir: string, first: string, second: string)
    requires Parent(resource) == Some(dir) && List(d, dir) == Some([first, second])
    requires Accept(pattern, ref, first) == Ok(true) && Accept(pattern, ref, second) == Ok(true)
    requires first != [] && '/' !in first && second != [] && '/' !in second && first != second
    requires Child(dir, first) !in d.locked && Child(dir, second) in d.files
    ensures var r := SweepOne(d, resource, Some(ref), pattern, Some(1));
            r.result == Ok(()) && Child(dir, first) !in r.disk.files && Child(dir, second) in r.disk.files
  {
    var files := [first, second];
    FilterKeepsAccepted(pattern, ref, second, []);
    assert [second] + [] == [second];
    FilterKeepsAccepted(pattern, ref, first, [second]);
    assert [first] + [second] == files;
    SweepOneEvicts(d, resource, ref, pattern, 1, dir, files);
    EvictFirstOfTwo(d, dir, pattern, first, second);
    ChildParts(dir, first);
    ChildParts(dir, second);
  }

  lemma EvictFirstOfTwo(d: Disk, dir: string, pattern: Pattern, first: string, second: string)
    requires AllParse(pattern, [first, second])
    ensures Evict(d, dir, [first, second], pattern, 1) == Swept(DeleteStep(d, Child(dir, first)).disk, Ok(()))
  {
    assert Overhang(2, 1) == 1;
    assert [first, second][..1] == [first];
    var deleted := DeleteStep(d, Child(dir, first)).disk;
    assert DeleteAll(d, dir, [first]) == DeleteAll(deleted, dir, []);
  }

  /** Sweeping the collected files one after the other, stopping at the first
      exception, which escapes the timer task and drops the rest. */
  function SweepAll(d: Disk, order: seq<PoolFile>, pattern: Pattern, maxVersions: Option<int>): (r: Swept)
    ensures Shrinks(d, r.disk)
    ensures order == [] ==> r == Swept(d, Ok(()))
    decreases |order|
  {
    if order == [] then Swept(d, Ok(()))
    else
      var first := SweepOne(d, order[0].resource, order[0].repoPackage, pattern, maxVersions);
      if first.result.Err? then first
      else SweepAll(first.disk, order[1..], pattern, maxVersions)
  }

  class DiskPackagePool {
    const fs: FileSystem
    /** The pattern of the `RepoPackageBuilder`. */
    const pattern: Pattern
    /** `configuration.getMaxVersions()`. */
    const maxVersions: Option<int>
    /** The files whose old versions are to be removed at the next sweep. */
    var filesToRemove: set<PoolFile>
    /** Whether the sweep timer is running. */
    var scheduled: bool

    constructor Init(fs: FileSystem, pattern: Pattern, maxVersions: Option<int>)
      ensures this.fs == fs && this.pattern == pattern && this.maxVersions == maxVersions
      ensures filesToRemove == {} && !scheduled
    {
      this.fs := fs;
      this.pattern := pattern;
      this.maxVersions := maxVersions;
      filesToRemove := {};
      scheduled := false;
    }

    /** `init()`: starts the periodic sweep. */
    method Start()
      modifies this
      ensures scheduled && filesToRemove == old(filesToRemove)
    {
      scheduled := true;
    }

    /** `getPoolObject(backend, resourceName)`: the pool file at backend
        directory / resourceName (just resourceName when the backend has no
        directory), carrying the package parsed from the name, or null when the
        name does not parse. */
    method GetPoolObject(backend: Backend, resourceName: string) returns (r: Result<PoolFile, Exception>)
      modifies fs
      ensures var file := if backend.directory.Some? then Child(backend.directory.value, resourceName) else resourceName;
              var parsed := NewPackage(pattern, resourceName);
              (Parent(file).None? ==> r == Err(NullPointer) && fs.disk == old(fs.disk))
              && (Parent(file).Some? ==>
                    var s := ForceMkdirStep(old(fs.disk), Parent(file).value);
                    fs.disk == s.disk && (r.Ok? <==> s.ok) && (r.Err? ==> r.error == IOException))
              && (r.Ok? ==> fresh(r.value) && r.value.fs == fs && r.value.resource == file
                            && r.value.repoPackage == (if parsed.Ok? then Some(parsed.value) else None))
    {
      var file := if backend.directory.Some? then Child(backend.directory.value, resourceName) else resourceName;
      var parsed := NewPackage(pattern, resourceName);
      var repoPackage := if parsed.Ok? then Some(parsed.value) else None;
      r := PoolFile.Create(fs, file, repoPackage);
    }

    /** `removeOldPackages(poolFile)`: schedules the file; scheduling the same
        object again keeps one entry. */
    method RemoveOldPackages(poolFile: PoolFile)
      modifies this
      ensures filesToRemove == old(filesToRemove) + {poolFile} && scheduled == old(scheduled)
    {
      filesToRemove := filesToRemove + {poolFile};
    }

    /** One sweep of `PackageCleanTask`: the collected set is swapped for an
        empty one and swept in some order. */
    method Sweep() returns (r: Result<(), Exception>, ghost order: seq<PoolFile>)
      modifies this, fs
      ensures filesToRemove == {} && scheduled == old(scheduled)
      ensures NoDuplicates(order) && forall p :: p in order <==> p in old(filesToRemove)
      ensures Swept(fs.disk, r) == SweepAll(old(fs.disk), order, pattern, maxVersions)
    {
      if filesToRemove == {} {
        return Ok(()), [];
      }
      var pending := filesToRemove;
      filesToRemove := {};
      r, order := SweepEach(pending);
    }

    /** One run of the timer's `PackageCleanTask`. The timer runs the task
        only while it is scheduled, and an exception escaping the task ends
        the timer's thread, so that no later sweep runs. */
    method Tick() returns (r: Result<(), Exception>, ghost order: seq<PoolFile>)
      modifies this, fs
      ensures !old(scheduled) ==>
                r == Ok(()) && order == [] && !scheduled
                && filesToRemove == old(filesToRemove) && fs.disk == old(fs.disk)
      ensures old(scheduled) ==>
                (scheduled <==> r.Ok?) && filesToRemove == {}
                && NoDuplicates(order) && (forall p :: p in order <==> p in old(filesToRemove))
                && Swept(fs.disk, r) == SweepAll(old(fs.disk), order, pattern, maxVersions)
    {
      if !scheduled {
        return Ok(()), [];
      }
      r, order := Sweep();
      if r.Err? {
        scheduled := false;
      }
    }

    /** The loop of the sweep over the swapped-out set. */
    method SweepEach(pending: set<PoolFile>) returns (r: Result<(), Exception>, ghost order: seq<PoolFile>)
      modifies fs
      ensures NoDuplicates(order) && forall p :: p in order <==> p in pending
      ensures Swept(fs.disk, r) == SweepAll(old(fs.disk), order, pattern, maxVersions)
    {
      ghost var start := fs.disk;
      var left := pending;
      order := [];
      r := Ok(());
      while left != {}
        invariant NoDuplicates(order)
        invariant forall p :: p in order <==> p in pending && p !in left
        invariant left <= pending
        invariant SweepAll(start, order, pattern, maxVersions) == Swept(fs.disk, Ok(()))
        decreases |left|
      {
        var p :| p in left;
        ghost var before := fs.disk;
        var e := SweepPoolFile(p);
        SweepAllSnoc(start, order, p, pattern, maxVersions, before);
        AppendNoDuplicates(order, p);
        order := order + [p];
        left := left - {p};
        if e.Err? {
          ghost var rest := Unswept(left);
          SweepAllStops(start, order, rest, pattern, maxVersions);
          ConcatNoDuplicates(order, rest);
          return e, order + rest;
        }
      }
    }

    /** `removeOldPackagesInternal(poolFile)`. */
    method SweepPoolFile(p: PoolFile) returns (r: Result<(), Exception>)
      modifies fs
      ensures Swept(fs.disk, r) == SweepOne(old(fs.disk), p.resource, p.repoPackage, pattern, maxVersions)
    {
      if p.repoPackage.None? {
        return Err(NullPointer);
      }
      var dir := Parent(p.resource);
      if dir.None? {
        return Err(NullPointer);
      }
      var listing := List(fs.disk, dir.value);
      if listing.None? {
        return Err(NullPointer);
      }
      var files := FilterNames(pattern, p.repoPackage.value, listing.value);
      if files.Err? || maxVersions.None? {
        return Err(NullPointer);
      }
      r := EvictFiles(dir.value, files.value);
    }

    /** The deletion loop of `removeOldPackagesInternal`: a failed delete is
        logged and the loop goes on. */
    method EvictFiles(dir: string, files: seq<string>) returns (r: Result<(), Exception>)
      requires maxVersions.Some?
      modifies fs
      ensures Swept(fs.disk, r) == Evict(old(fs.disk), dir, files, pattern, maxVersions.value)
    {
      var overhang := Overhang(|files|, maxVersions.value);
      if overhang <= 0 {
        return Ok(());
      }
      var packages := NewPackages(pattern, files);
      if packages.Err? {
        return Ok(());
      }
      r := DeleteFirst(dir, files, overhang);
    }

    /** Deletes `files[0..overhang)` in `dir`; an overhang beyond the listing
        deletes it all and then fails on the index. */
    method DeleteFirst(dir: string, files: seq<string>, overhang: nat) returns (r: Result<(), Exception>)
      modifies fs
      ensures overhang <= |files| ==> Swept(fs.disk, r) == Swept(DeleteAll(old(fs.disk), dir, files[..overhang]), Ok(()))
      ensures overhang > |files| ==> Swept(fs.disk, r) == Swept(DeleteAll(old(fs.disk), dir, files), Err(IndexOutOfBounds))
    {
      ghost var start := fs.disk;
      var i := 0;
      while i < overhang
        invariant 0 <= i <= overhang && i <= |files|
        invariant fs.disk == DeleteAll(start, dir, files[..i])
      {
        if i == |files| {
          assert files[..i] == files;
          return Err(IndexOutOfBounds);
        }
        var _ := fs.Delete(Child(dir, files[i]));
        DeleteAllSnoc(start, dir, files[..i], files[i]);
        assert files[..i + 1] == files[..i] + [files[i]];
        i := i + 1;
      }
      return Ok(());
    }

    /** `destroy()`: the timer is cancelled, then one last sweep runs. */
    method Destroy() returns (r: Result<(), Exception>, ghost order: seq<PoolFile>)
      modifies this, fs
      ensures !scheduled && filesToRemove == {}
      ensures NoDuplicates(order) && forall p :: p in order <==> p in old(filesToRemove)
      ensures Swept(fs.disk, r) == SweepAll(old(fs.disk), order, pattern, maxVersions)
    {
      scheduled := false;
      r, order := Sweep();
    }
  }

  /** The files an escaping exception leaves unswept, in some order. */
  ghost method Unswept(pending: set<PoolFile>) returns (r: seq<PoolFile>)
    ensures NoDuplicates(r) && forall p :: p in r <==> p in pending
    decreases |pending|
  {
    r := [];
    if pending != {} {
      var p :| p in pending;
      var rest := Unswept(pending - {p});
      assert p !in rest;
      r := [p] + rest;
    }
  }

  lemma {:induction false} DeleteAllSnoc(d: Disk, dir: string, names: seq<string>, n: string)
    ensures DeleteAll(d, dir, names + [n]) == DeleteStep(DeleteAll(d, dir, names), Child(dir, n)).disk
    decreases |names|
  {
    if names != [] {
      assert (names + [n])[1..] == names[1..] + [n];
      DeleteAllSnoc(DeleteStep(d, Child(dir, names[0])).disk, dir, names[1..], n);
    } else {
      assert (names + [n])[1..] == [];
    }
  }

  lemma {:induction false} SweepAllSnoc(d: Disk, order: seq<PoolFile>, p: PoolFile, pattern: Pattern,
                                         maxVersions: Option<int>, before: Disk)
    requires SweepAll(d, order, pattern, maxVersions) == Swept(before, Ok(()))
    ensures SweepAll(d, order + [p], pattern, maxVersions)
              == SweepOne(before, p.resource, p.repoPackage, pattern, maxVersions)
    decreases |order|
  {
    if order != [] {
      assert (order + [p])[1..] == order[1..] + [p];
      var first := SweepOne(d, order[0].resource, order[0].repoPackage, pattern, maxVersions);
      SweepAllSnoc(first.disk, order[1..], p, pattern, maxVersions, before);
    } else {
      assert (order + [p])[1..] == [];
    }
  }

  /** Once a sweep has thrown, the files after it are not swept. */
  lemma {:induction false} SweepAllStops(d: Disk, order: seq<PoolFile>, rest: seq<PoolFile>, pattern: Pattern,
                                          maxVersions: Option<int>)
    requires SweepAll(d, order, pattern, maxVersions).result.Err?
    ensures SweepAll(d, order + rest, pattern, maxVersions) == SweepAll(d, order, pattern, maxVersions)
    decreases |order|
  {
    assert order != [];
    assert (order + rest)[0] == order[0];
    assert (order + rest)[1..] == order[1..] + rest;
    var first := SweepOne(d, order[0].resource, order[0].repoPackage, pattern, maxVersions);
    if first.result.Ok? {
      SweepAllStops(first.disk, order[1..], rest, pattern, maxVersions);
    } else {
      assert SweepAll(d, order, pattern, maxVersions) == first;
    }
  }
}
