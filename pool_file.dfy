/** `PoolFile`: a cached resource kept as a final file, which readers see,
    and a temporary file next to it, which a download writes and `store`
    moves into place. */
module PoolFiles {
  import opened Common
  import opened FileSystems
  import opened Packages

  /** `store` on a disk: delete an existing final file, then rename the
      temporary file onto it; false where either step fails. */
  function StoreStep(d: Disk, resource: string, tmp: string): (r: Step)
    requires resource != tmp
    ensures r.ok ==> tmp in d.files && r.disk.files == (d.files - {tmp})[resource := d.files[tmp]]
    ensures !r.ok ==> r.disk == d || (Exists(d, resource) && r.disk.files == d.files - {resource})
    ensures !r.ok && tmp in d.files ==> tmp in r.disk.files && r.disk.files[tmp] == d.files[tmp]
    ensures r.disk.dirs == d.dirs && r.disk.locked == d.locked
    ensures Valid(d) ==> Valid(r.disk)
  {
    if Exists(d, resource) then
      var deleted := DeleteStep(d, resource);
      if !deleted.ok then Step(d, false)
      else RenameStep(deleted.disk, tmp, resource)
    else RenameStep(d, tmp, resource)
  }

  /** `store` succeeds exactly when the temporary file can be moved onto the
      final one: the final file, if any, can be deleted and the rename is allowed. */
  lemma StoreSucceedsWhen(d: Disk, resource: string, tmp: string)
    requires resource != tmp
    ensures StoreStep(d, resource, tmp).ok <==>
              (Exists(d, resource) ==> resource in d.files && resource !in d.locked)
              && tmp in d.files && tmp !in d.locked && resource !in d.locked
              && resource !in d.dirs && ParentExists(d, resource)
  {
  }

  /** `remove`: quietly delete the final and then the temporary file. */
  function RemoveStep(d: Disk, resource: string, tmp: string): (r: Disk)
    ensures resource !in d.locked ==> resource !in r.files
    ensures tmp !in d.locked ==> tmp !in r.files
    ensures forall q :: q != resource && q != tmp ==> (q in r.files <==> q in d.files)
    ensures forall q :: q != resource && q != tmp && q in d.files ==> r.files[q] == d.files[q]
    ensures r.dirs == d.dirs && r.locked == d.locked
    ensures Valid(d) ==> Valid(r)
  {
    QuietDelete(QuietDelete(d, resource), tmp)
  }

  /** Removing twice is removing once. */
  lemma RemoveIdempotent(d: Disk, resource: string, tmp: string)
    requires Valid(d)
    ensures RemoveStep(RemoveStep(d, resource, tmp), resource, tmp) == RemoveStep(d, resource, tmp)
  {
    var once := RemoveStep(d, resource, tmp);
    assert resource in once.files ==> resource in once.locked;
    assert tmp in once.files ==> tmp in once.locked;
  }

  /** Writing the temporary file changes nothing a reader of the final file sees. */
  lemma TempInvisible(d: Disk, resource: string, content: seq<byte>, now: nat)
    ensures var w := WriteStep(d, resource + ".tmp", content, now).disk;
            FileSystems.LastModified(w, resource) == FileSystems.LastModified(d, resource)
            && Length(w, resource) == Length(d, resource)
            && Read(w, resource) == Read(d, resource)
  {
    assert |resource + ".tmp"| != |resource|;
  }

  class PoolFile {
    const fs: FileSystem
    /** The final file. */
    const resource: string
    /** The temporary file: the final file's path with `.tmp` appended. */
    const tmpResource: string := resource + ".tmp"
    const repoPackage: Option<GenericRepoPackage>

    constructor Init(fs: FileSystem, resource: string, repoPackage: Option<GenericRepoPackage>)
      ensures this.fs == fs && this.resource == resource && this.repoPackage == repoPackage
    {
      this.fs := fs;
      this.resource := resource;
      this.repoPackage := repoPackage;
    }

    /** `new PoolFile(resource, repoPackage)`: creates the parent directory of
        the final file, and throws IOException where that fails. */
    static method Create(fs: FileSystem, resource: string, repoPackage: Option<GenericRepoPackage>)
      returns (r: Result<PoolFile, Exception>)
      modifies fs
      ensures Parent(resource).None? ==> r == Err(NullPointer) && fs.disk == old(fs.disk)
      ensures Parent(resource).Some? ==>
                var s := ForceMkdirStep(old(fs.disk), Parent(resource).value);
                fs.disk == s.disk && (r.Ok? <==> s.ok) && (r.Err? ==> r.error == IOException)
      ensures r.Ok? ==> fresh(r.value) && r.value.fs == fs && r.value.resource == resource
                        && r.value.repoPackage == repoPackage
    {
      var dir := Parent(resource);
      if dir.None? {
        return Err(NullPointer);
      }
      var ok := fs.ForceMkdir(dir.value);
      if !ok {
        return Err(IOException);
      }
      var p := new PoolFile.Init(fs, resource, repoPackage);
      return Ok(p);
    }

    /** `getLastModified()`: the final file's timestamp, 0 when there is none. */
    function LastModified(): nat
      reads fs
    {
      FileSystems.LastModified(fs.disk, resource)
    }

    /** `getSize()`: the final file's length, 0 when there is none. */
    function Size(): nat
      reads fs
    {
      Length(fs.disk, resource)
    }

    /** `getName()`. */
    function Name(): string {
      FileSystems.Name(resource)
    }

    /** `getContentType()`: the MIME type registered for the final file's name. */
    function ContentType(mimetype: string -> string): string {
      mimetype(Name())
    }

    /** `getInputStream()`: the final file's bytes; None where opening throws. */
    function InputStream(): Option<seq<byte>>
      reads fs
    {
      Read(fs.disk, resource)
    }

    /** `getOutputStream()`, filled with `content` and closed at time `now`: the
        temporary file; IOException where it cannot be opened. */
    method WriteTemp(content: seq<byte>, now: nat) returns (r: Result<(), Exception>)
      modifies fs
      ensures var s := WriteStep(old(fs.disk), tmpResource, content, now);
              fs.disk == s.disk && (r.Ok? <==> s.ok) && (r.Err? ==> r.error == IOException)
    {
      var ok := fs.Write(tmpResource, content, now);
      r := if ok then Ok(()) else Err(IOException);
    }

    /** `setLastModified(t)`: stamps the temporary file, not the final one. */
    method SetLastModified(t: nat) returns (r: Result<(), Exception>)
      modifies fs
      ensures var s := SetLastModifiedStep(old(fs.disk), tmpResource, t);
              fs.disk == s.disk && (r.Ok? <==> s.ok) && (r.Err? ==> r.error == IOException)
    {
      var ok := fs.SetLastModified(tmpResource, t);
      r := if ok then Ok(()) else Err(IOException);
    }

    /** `store()`: the temporary file becomes the final one. */
    method Store() returns (r: Result<(), Exception>)
      modifies fs
      ensures var s := StoreStep(old(fs.disk), resource, tmpResource);
              fs.disk == s.disk && (r.Ok? <==> s.ok) && (r.Err? ==> r.error == IOException)
    {
      assert |tmpResource| != |resource|;
      if Exists(fs.disk, resource) {
        var deleted := fs.Delete(resource);
        if !deleted {
          return Err(IOException);
        }
      }
      var renamed := fs.Rename(tmpResource, resource);
      r := if renamed then Ok(()) else Err(IOException);
    }

    /** `remove()`: both files are deleted, and nothing is thrown. */
    method Remove()
      modifies fs
      ensures fs.disk == RemoveStep(old(fs.disk), resource, tmpResource)
    {
      fs.DeleteQuietly(resource);
      fs.DeleteQuietly(tmpResource);
    }
  }
}
