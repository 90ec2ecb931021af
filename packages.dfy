/** Repository packages: the value object parsed from a package file name
    (GenericRepoPackage), the builder that parses names with the configured
    regular expression (RepoPackageBuilder) and the file-name filter that
    selects the other versions of one package (RepoPackageFilter). */
module Packages {
  import opened Common

  /** A parsed package file name; every field but `immutable` may be null. */
  datatype GenericRepoPackage = GenericRepoPackage(
    basename: Option<string>,
    version: Option<string>,
    revision: Option<string>,
    arch: Option<string>,
    extension: Option<string>,
    immutable: bool)

  /** `a != null ? a.equals(b) : b == null`. */
  predicate FieldEquals(a: Option<string>, b: Option<string>) {
    if a.Some? then b.Some? && a.value == b.value else b.None?
  }

  /** `GenericRepoPackage.equals(o)`: `o` is a non-null package with the same fields. */
  function Equals(p: GenericRepoPackage, o: Option<GenericRepoPackage>): (r: bool)
    ensures r <==> o == Some(p)
  {
    if o.None? then false
    else
      var that := o.value;
      p.immutable == that.immutable
      && FieldEquals(p.arch, that.arch)
      && FieldEquals(p.basename, that.basename)
      && FieldEquals(p.extension, that.extension)
      && FieldEquals(p.revision, that.revision)
      && FieldEquals(p.version, that.version)
  }

  /** `s[0]*31^(n-1) + ... + s[n-1]` in unbounded integers. */
  function Polynomial(s: seq<int>): int {
    if s == [] then 0 else 31 * Polynomial(s[..|s| - 1]) + s[|s| - 1]
  }

  function CharCodes(s: string): (r: seq<int>)
    ensures |r| == |s| && forall i :: 0 <= i < |s| ==> r[i] == s[i] as int
  {
    if s == [] then [] else CharCodes(s[..|s| - 1]) + [s[|s| - 1] as int]
  }

  /** `String.hashCode()`, as java.lang.String documents it: the polynomial of the
      character codes, in 32-bit two's complement arithmetic. */
  function StringHash(s: string): int {
    ToInt32(Polynomial(CharCodes(s)))
  }

  /** `a != null ? a.hashCode() : 0`. */
  function FieldHash(a: Option<string>): (r: int)
    ensures IsInt32(r)
  {
    if a.Some? then StringHash(a.value) else 0
  }

  /** `result = 31 * result + h`, evaluated in `int`, one term at a time. */
  function HashChain(terms: seq<int>): (r: int)
    ensures IsInt32(r)
    ensures r == ToInt32(Polynomial(terms))
  {
    if terms == [] then 0
    else
      var front := terms[..|terms| - 1];
      var r := ToInt32(31 * HashChain(front) + terms[|terms| - 1]);
      ChainStep(Polynomial(front), HashChain(front), terms[|terms| - 1]);
      r
  }

  /** Wrapping the accumulator before the next step does not change the wrapped result. */
  lemma ChainStep(exact: int, wrapped: int, t: int)
    requires wrapped == ToInt32(exact)
    ensures ToInt32(31 * wrapped + t) == ToInt32(31 * exact + t)
  {
    var k := (wrapped - exact) / Int32Modulus;
    assert wrapped - exact == k * Int32Modulus;
    assert (31 * wrapped + t) - (31 * exact + t) == (31 * k) * Int32Modulus;
    Congruent(31 * wrapped + t, 31 * exact + t, 31 * k);
  }

  /** `ToInt32` only depends on its argument modulo 2^32. */
  lemma Congruent(x: int, y: int, k: int)
    requires x - y == k * Int32Modulus
    ensures ToInt32(x) == ToInt32(y)
  {
    var a := x + 0x8000_0000;
    var b := y + 0x8000_0000;
    assert a == b + k * Int32Modulus;
    ModShift(b, k);
  }

  lemma ModShift(b: int, k: int)
    ensures (b + k * Int32Modulus) % Int32Modulus == b % Int32Modulus
  {
  }

  /** The field hashes in the order `hashCode` combines them. */
  function HashTerms(p: GenericRepoPackage): seq<int> {
    [FieldHash(p.basename), FieldHash(p.version), FieldHash(p.revision),
     FieldHash(p.arch), FieldHash(p.extension), if p.immutable then 1 else 0]
  }

  /** `GenericRepoPackage.hashCode()`: the 31-polynomial of the field hashes, modulo 2^32. */
  function HashCode(p: GenericRepoPackage): (r: int)
    ensures IsInt32(r)
    ensures r == ToInt32(Polynomial(HashTerms(p)))
  {
    var t := HashTerms(p);
    HashChain(t)
  }

  /** Packages that `equals` each other have the same `hashCode`. */
  lemma EqualsConsistentWithHashCode(p: GenericRepoPackage, q: GenericRepoPackage)
    requires Equals(p, Some(q))
    ensures HashCode(p) == HashCode(q)
  {
  }

  /** The capture groups 1 to 5 of a successful match; an unmatched group is null. */
  datatype Groups = Groups(
    basename: Option<string>,
    version: Option<string>,
    revision: Option<string>,
    arch: Option<string>,
    extension: Option<string>)

  /** `pattern.matcher(filename).matches()` with its groups: None when the whole
      name does not match. The pattern itself is configuration. */
  type Pattern = string -> Option<Groups>

  /** The exception `newPackage` throws for a name the pattern rejects. */
  datatype InvalidRepoPackageName = InvalidRepoPackageName(filename: string)

  /** `RepoPackageBuilder.newPackage(filename)`. */
  function NewPackage(pattern: Pattern, filename: string): (r: Result<GenericRepoPackage, InvalidRepoPackageName>)
    ensures r.Err? <==> pattern(filename).None?
    ensures r.Err? ==> r.error.filename == filename
    ensures r.Ok? ==> var g := pattern(filename).value;
                      r.value.basename == g.basename && r.value.version == g.version
                      && r.value.revision == g.revision && r.value.arch == g.arch
                      && r.value.extension == g.extension
    ensures r.Ok? ==> r.value.immutable
  {
    match pattern(filename)
    case None => Err(InvalidRepoPackageName(filename))
    case Some(g) => Ok(GenericRepoPackage(g.basename, g.version, g.revision, g.arch, g.extension, true))
  }

  /** `RepoPackageBuilder.newPackages(filenames...)`: parse every name in order;
      the first name that does not parse aborts the whole call. */
  method NewPackages(pattern: Pattern, filenames: seq<string>)
    returns (r: Result<seq<GenericRepoPackage>, InvalidRepoPackageName>)
    ensures r.Ok? <==> forall i :: 0 <= i < |filenames| ==> NewPackage(pattern, filenames[i]).Ok?
    ensures r.Ok? ==> |r.value| == |filenames|
                      && forall i :: 0 <= i < |filenames| ==> r.value[i] == NewPackage(pattern, filenames[i]).value
    ensures r.Err? ==> exists k :: 0 <= k < |filenames|
                        && r.error.filename == filenames[k]
                        && NewPackage(pattern, filenames[k]).Err?
                        && forall i :: 0 <= i < k ==> NewPackage(pattern, filenames[i]).Ok?
  {
    var packages: seq<GenericRepoPackage> := [];
    var i := 0;
    while i < |filenames|
      invariant 0 <= i <= |filenames| && |packages| == i
      invariant forall j :: 0 <= j < i ==> NewPackage(pattern, filenames[j]).Ok?
      invariant forall j :: 0 <= j < i ==> packages[j] == NewPackage(pattern, filenames[j]).value
    {
      var p := NewPackage(pattern, filenames[i]);
      if p.Err? {
        return Err(p.error);
      }
      packages := packages + [p.value];
      i := i + 1;
    }
    return Ok(packages);
  }

  /** `a.equals(b)` for a receiver `a` that may be null: null throws
      NullPointerException, and a non-null receiver never equals a null argument. */
  function DerefEquals(a: Option<string>, b: Option<string>): Result<bool, Exception> {
    if a.None? then Err(NullPointer) else Ok(b == a)
  }

  /** `RepoPackageFilter.accept(dir, filename)` for the filter built around `ref`:
      a name that does not parse is rejected; otherwise the basename, then the
      architecture, of `ref` are compared with the parsed ones. */
  function Accept(pattern: Pattern, ref: GenericRepoPackage, filename: string): (r: Result<bool, Exception>)
    ensures r == Ok(true) <==> (NewPackage(pattern, filename).Ok?
                                && ref.basename.Some? && ref.arch.Some?
                                && NewPackage(pattern, filename).value.basename == ref.basename
                                && NewPackage(pattern, filename).value.arch == ref.arch)
    ensures r.Err? <==> (NewPackage(pattern, filename).Ok?
                         && (ref.basename.None?
                             || (NewPackage(pattern, filename).value.basename == ref.basename && ref.arch.None?)))
    ensures r.Err? ==> r.error == NullPointer
    ensures NewPackage(pattern, filename).Err? ==> r == Ok(false)
  {
    match NewPackage(pattern, filename)
    case Err(_) => Ok(false)
    case Ok(dp) =>
      match DerefEquals(ref.basename, dp.basename)
      case Err(e) => Err(e)
      case Ok(false) => Ok(false)
      case Ok(true) => DerefEquals(ref.arch, dp.arch)
  }
}
