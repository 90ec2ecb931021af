/** The part of `java.io.File` and commons-io `FileUtils` the pool relies on,
    over an abstract disk: regular files with their bytes and timestamps, the
    order in which a directory lists them, the existing directories and the
    paths on which every operation is refused (missing permissions, a busy
    file). */
module FileSystems {
  import opened Common

  datatype FileEntry = FileEntry(content: seq<byte>, lastModified: nat)

  datatype Disk = Disk(
    files: map<string, FileEntry>,
    /** Every file exactly once, in the order `File.list` reports them. */
    order: seq<string>,
    dirs: set<string>,
    /** Paths on which `delete`, `renameTo`, `setLastModified`, opening and `mkdir` fail. */
    locked: set<string>)

  ghost predicate Valid(d: Disk) {
    NoDuplicates(d.order)
    && (forall p :: p in d.order <==> p in d.files)
    && d.files.Keys !! d.dirs
  }

  /** The outcome of a call that reports success as a boolean, and the disk after it. */
  datatype Step = Step(disk: Disk, ok: bool)

  // ---------------------------------------------------------------- paths

  /** `new File(dir, name).getPath()` for normalised `dir` and `name`, as the
      Unix file system resolves a child against its parent; an empty parent
      stands for the root. */
  function Child(dir: string, name: string): string {
    var parent := if dir == "" then "/" else dir;
    if name == "" then parent
    else if name[0] == '/' then (if parent == "/" then name else parent + name)
    else if parent == "/" then parent + name
    else parent + "/" + name
  }

  /** `File.getParent()`: the path up to the last separator, the root for a file
      directly under it, and null for a single relative name or the root itself. */
  function Parent(p: string): (r: Option<string>)
    ensures r.Some? ==> |r.value| < |p|
  {
    var i := LastIndexOf(p, '/');
    var prefix := if p != [] && p[0] == '/' then 1 else 0;
    if i < prefix then (if prefix > 0 && |p| > prefix then Some(p[..prefix]) else None)
    else Some(p[..i])
  }

  /** `File.getName()`: what follows the last separator. */
  function Name(p: string): (r: string)
    ensures '/' !in r
  {
    p[LastIndexOf(p, '/') + 1..]
  }

  /** A plain name resolved against a directory has that directory as its
      parent and that name as its name. */
  lemma ChildParts(dir: string, name: string)
    requires name != [] && '/' !in name
    ensures Parent(Child(dir, name)) == Some(if dir == "" then "/" else dir)
    ensures Name(Child(dir, name)) == name
  {
    var parent := if dir == "" then "/" else dir;
    var p := Child(dir, name);
    if parent == "/" {
      assert p == "/" + name;
      assert p[0] == '/' && forall k :: 1 <= k < |p| ==> p[k] == name[k - 1];
      assert LastIndexOf(p, '/') == 0;
      assert p[..1] == "/";
      assert p[1..] == name;
    } else {
      assert p == parent + "/" + name;
      assert p[|parent|] == '/' && forall k :: |parent| < k < |p| ==> p[k] == name[k - |parent| - 1];
      assert LastIndexOf(p, '/') == |parent|;
      assert p[..|parent|] == parent;
      assert p[|parent| + 1..] == name;
    }
  }

  // ---------------------------------------------------------------- queries

  /** `File.exists()`. */
  predicate Exists(d: Disk, p: string) {
    p in d.files || p in d.dirs
  }

  /** `File.lastModified()`: 0 when there is no such file. */
  function LastModified(d: Disk, p: string): nat {
    if p in d.files then d.files[p].lastModified else 0
  }

  /** `File.length()`: 0 when there is no such file. */
  function Length(d: Disk, p: string): nat {
    if p in d.files then |d.files[p].content| else 0
  }

  /** The bytes `new FileInputStream(p)` yields; None where opening it throws
      FileNotFoundException. */
  function Read(d: Disk, p: string): (r: Option<seq<byte>>)
    ensures r.Some? <==> p in d.files && p !in d.locked
    ensures r.Some? ==> |r.value| == Length(d, p)
  {
    if p in d.files && p !in d.locked then Some(d.files[p].content) else None
  }

  /** The names in `order` of the files whose parent is `dir`, in that order. */
  function NamesIn(order: seq<string>, dir: string): (r: seq<string>)
    ensures forall n :: n in r <==> exists p :: p in order && Parent(p) == Some(dir) && Name(p) == n
  {
    if order == [] then []
    else
      var rest := NamesIn(order[1..], dir);
      assert forall p :: p in order <==> p == order[0] || p in order[1..];
      if Parent(order[0]) == Some(dir) then [Name(order[0])] + rest else rest
  }

  /** `File.list()` of a directory: the names of the files in it, in listing
      order; null when it is not an existing directory. */
  function List(d: Disk, dir: string): (r: Option<seq<string>>)
    ensures r.Some? <==> dir in d.dirs
  {
    if dir in d.dirs then Some(NamesIn(d.order, dir)) else None
  }

  /** A file directly in a directory appears in its listing under its name. */
  lemma ListedChild(d: Disk, dir: string, name: string)
    requires Valid(d) && dir in d.dirs
    requires name != [] && '/' !in name && dir != ""
    requires Child(dir, name) in d.files
    ensures name in List(d, dir).value
  {
    ChildParts(dir, name);
    assert Child(dir, name) in d.order;
  }

  // ---------------------------------------------------------------- changes

  /** `order` without `p`, in the same order. */
  function Without(order: seq<string>, p: string): (r: seq<string>)
    ensures forall q :: q in r <==> q in order && q != p
    ensures NoDuplicates(order) ==> NoDuplicates(r)
    ensures |r| <= |order|
  {
    if order == [] then []
    else
      var rest := Without(order[1..], p);
      assert forall q :: q in order <==> q == order[0] || q in order[1..];
      if order[0] == p then rest
      else
        assert NoDuplicates(order) ==> order[0] !in order[1..];
        [order[0]] + rest
  }

  /** `File.delete()` of a file: true and gone, or false and nothing changed. */
  function DeleteStep(d: Disk, p: string): (r: Step)
    ensures r.ok <==> p in d.files && p !in d.locked
    ensures r.ok ==> r.disk.files == d.files - {p}
    ensures !r.ok ==> r.disk == d
    ensures r.disk.dirs == d.dirs && r.disk.locked == d.locked
    ensures Valid(d) ==> Valid(r.disk)
  {
    if p in d.files && p !in d.locked then
      Step(d.(files := d.files - {p}, order := Without(d.order, p)), true)
    else Step(d, false)
  }

  /** A parent directory that `new FileOutputStream(p)` and `renameTo(p)` can write into. */
  predicate ParentExists(d: Disk, p: string) {
    Parent(p).None? || Parent(p).value in d.dirs
  }

  /** `from.renameTo(to)`: the entry of `from` moves to `to`, replacing a file
      there, and `to` is listed last. */
  function RenameStep(d: Disk, from: string, to: string): (r: Step)
    ensures r.ok <==> from in d.files && from !in d.locked && to !in d.locked
                      && to !in d.dirs && ParentExists(d, to)
    ensures r.ok ==> r.disk.files == (d.files - {from})[to := d.files[from]]
    ensures !r.ok ==> r.disk == d
    ensures r.disk.dirs == d.dirs && r.disk.locked == d.locked
    ensures Valid(d) ==> Valid(r.disk)
  {
    if from in d.files && from !in d.locked && to !in d.locked && to !in d.dirs && ParentExists(d, to) then
      var kept := Without(Without(d.order, from), to);
      var order := kept + [to];
      assert NoDuplicates(d.order) ==> NoDuplicates(order) by {
        if NoDuplicates(d.order) { AppendNoDuplicates(kept, to); }
      }
      Step(d.(files := (d.files - {from})[to := d.files[from]], order := order), true)
    else Step(d, false)
  }

  /** `File.setLastModified(t)`. */
  function SetLastModifiedStep(d: Disk, p: string, t: nat): (r: Step)
    ensures r.ok <==> p in d.files && p !in d.locked
    ensures r.ok ==> r.disk.files == d.files[p := FileEntry(d.files[p].content, t)]
    ensures !r.ok ==> r.disk == d
    ensures r.disk.order == d.order && r.disk.dirs == d.dirs && r.disk.locked == d.locked
    ensures Valid(d) ==> Valid(r.disk)
  {
    if p in d.files && p !in d.locked then
      Step(d.(files := d.files[p := FileEntry(d.files[p].content, t)]), true)
    else Step(d, false)
  }

  /** Opening `new FileOutputStream(p)`, writing `content` and closing it at
      time `now`: the file is created or truncated; opening fails on a locked
      path, on a directory and in a missing directory. */
  function WriteStep(d: Disk, p: string, content: seq<byte>, now: nat): (r: Step)
    ensures r.ok <==> p !in d.locked && p !in d.dirs && ParentExists(d, p)
    ensures r.ok ==> r.disk.files == d.files[p := FileEntry(content, now)]
    ensures !r.ok ==> r.disk == d
    ensures r.disk.dirs == d.dirs && r.disk.locked == d.locked
    ensures Valid(d) ==> Valid(r.disk)
  {
    if p !in d.locked && p !in d.dirs && ParentExists(d, p) then
      var order := if p in d.files then d.order else d.order + [p];
      assert Valid(d) && p !in d.files ==> NoDuplicates(order) by {
        if Valid(d) && p !in d.files { AppendNoDuplicates(d.order, p); }
      }
      Step(d.(files := d.files[p := FileEntry(content, now)], order := order), true)
    else Step(d, false)
  }

  /** `FileUtils.forceMkdir(dir)`: succeeds when the directory exists or is
      created; fails (IOException) on a file of that name or a locked path. */
  function ForceMkdirStep(d: Disk, dir: string): (r: Step)
    ensures r.ok <==> dir in d.dirs || (dir !in d.files && dir !in d.locked)
    ensures r.ok ==> r.disk.dirs == d.dirs + {dir}
    ensures !r.ok ==> r.disk == d
    ensures r.disk.files == d.files && r.disk.order == d.order && r.disk.locked == d.locked
    ensures Valid(d) ==> Valid(r.disk)
  {
    if dir in d.dirs then Step(d, true)
    else if dir !in d.files && dir !in d.locked then Step(d.(dirs := d.dirs + {dir}), true)
    else Step(d, false)
  }

  /** `FileUtils.deleteQuietly(p)`: delete, ignoring the outcome. */
  function QuietDelete(d: Disk, p: string): (r: Disk)
    ensures p !in d.locked ==> p !in r.files
    ensures forall q :: q != p ==> (q in r.files <==> q in d.files)
    ensures forall q :: q != p && q in d.files ==> r.files[q] == d.files[q]
    ensures Valid(d) ==> Valid(r)
  {
    DeleteStep(d, p).disk
  }

  /** Deleting twice is deleting once. */
  lemma QuietDeleteIdempotent(d: Disk, p: string)
    ensures QuietDelete(QuietDelete(d, p), p) == QuietDelete(d, p)
  {
  }

  /** The disk as seen through `java.io.File`: one shared, mutable instance. */
  class FileSystem {
    var disk: Disk

    constructor(d: Disk)
      ensures disk == d
    {
      disk := d;
    }

    method Delete(p: string) returns (ok: bool)
      modifies this
      ensures Step(disk, ok) == DeleteStep(old(disk), p)
    {
      var r := DeleteStep(disk, p);
      disk, ok := r.disk, r.ok;
    }

    method Rename(from: string, to: string) returns (ok: bool)
      modifies this
      ensures Step(disk, ok) == RenameStep(old(disk), from, to)
    {
      var r := RenameStep(disk, from, to);
      disk, ok := r.disk, r.ok;
    }

    method SetLastModified(p: string, t: nat) returns (ok: bool)
      modifies this
      ensures Step(disk, ok) == SetLastModifiedStep(old(disk), p, t)
    {
      var r := SetLastModifiedStep(disk, p, t);
      disk, ok := r.disk, r.ok;
    }

    method Write(p: string, content: seq<byte>, now: nat) returns (ok: bool)
      modifies this
      ensures Step(disk, ok) == WriteStep(old(disk), p, content, now)
    {
      var r := WriteStep(disk, p, content, now);
      disk, ok := r.disk, r.ok;
    }

    method ForceMkdir(dir: string) returns (ok: bool)
      modifies this
      ensures Step(disk, ok) == ForceMkdirStep(old(disk), dir)
    {
      var r := ForceMkdirStep(disk, dir);
      disk, ok := r.disk, r.ok;
    }

    method DeleteQuietly(p: string)
      modifies this
      ensures disk == QuietDelete(old(disk), p)
    {
      disk := QuietDelete(disk, p);
    }
  }
}
