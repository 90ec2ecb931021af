/** The sweep against the version order of the package tests: the versions
    it evicts are not the oldest. */
module EvictionOrder {
  import opened Common
  import opened FileSystems
  import opened Packages
  import opened VersionCompare
  import opened VersionOrderingTest
  import opened DiskPackagePools

  /** A directory that lists 3.0.1a-4 before 3.0.1a-3 loses the newer of the
      two to a sweep with a limit of one. */
  lemma SweepMayEvictNewest(d: Disk, resource: string, pattern: Pattern, dir: string, newer: string, older: string)
    requires Parent(resource) == Some(dir) && List(d, dir) == Some([newer, older])
    requires NewPackage(pattern, newer) == Ok(Ordered[20]) && NewPackage(pattern, older) == Ok(Ordered[19])
    requires newer != [] && '/' !in newer && older != [] && '/' !in older
    requires Child(dir, newer) !in d.locked && Child(dir, older) in d.files
    ensures Compare(Ordered[20], Ordered[19]).Ok? && Compare(Ordered[20], Ordered[19]).value > 0
    ensures var r := SweepOne(d, resource, Some(Ordered[20]), pattern, Some(1));
            r.result == Ok(()) && Child(dir, newer) !in r.disk.files && Child(dir, older) in r.disk.files
  {
    var p, q := Ordered[20], Ordered[19];
    Neighbours19();
    CompareAntisymmetric(q, p);
    assert Accept(pattern, p, newer) == Ok(true) && Accept(pattern, p, older) == Ok(true);
    assert newer != older;
    SweepEvictsFirstListed(d, resource, pattern, p, dir, newer, older);
  }
}
