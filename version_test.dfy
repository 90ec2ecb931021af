/** The ordering fixed by VersionComparatorTest: twenty-one `dummy_*_i386.deb`
    packages, listed in ascending order and in a shuffled order. Each package is
    given by the version and revision the Debian file-name pattern extracts (the
    upstream version before the last `-`, the revision after it, none without a
    `-`). */
module VersionOrderingTest {
  import opened Common
  import opened Packages
  import opened VersionCompare
  import opened VersionOrderingSteps

  function TestPackage(version: string, revision: Option<string>): GenericRepoPackage {
    GenericRepoPackage(Some("dummy"), Some(version), revision, Some("i386"), Some("deb"), true)
  }

  /** `orderedFiles`: the order the test expects after sorting. */
  const Ordered: seq<GenericRepoPackage> := [
        TestPackage("1.0.9", Some("2")),
    TestPackage("1.0.9", Some("2a")),
    TestPackage("1.0.9", Some("2b")),
    TestPackage("1.0.009", Some("3")),
    TestPackage("1.0.9", Some("5")),
    TestPackage("1.0.9", Some("5a")),
    TestPackage("1.0.9", Some("5c")),
    TestPackage("1.0.10", Some("1")),
    TestPackage("1.4pre.20050518", Some("0.3")),
    TestPackage("1.4pre.20050518", Some("0.4")),
    TestPackage("1.4pre.20050519", None),
    TestPackage("1.5.dfsg+1.5.0.6", Some("4")),
    TestPackage("1.5.dfsg+1.5.0.7", Some("1")),
    TestPackage("2.2.4~pre4", Some("1")),
    TestPackage("2.2.4", Some("1")),
    TestPackage("2.3.001", None),
    TestPackage("2.3.005", None),
    TestPackage("2.3.100", None),
    TestPackage("2.3.101", None),
    TestPackage("3.0.1a", Some("3")),
    TestPackage("3.0.1a", Some("4"))
  ]

  /** `files`: the input the test sorts. */
  const Shuffled: seq<GenericRepoPackage> := [
    TestPackage("3.0.1a", Some("4")),
    TestPackage("1.0.10", Some("1")),
    TestPackage("1.0.9", Some("2b")),
    TestPackage("1.4pre.20050518", Some("0.3")),
    TestPackage("3.0.1a", Some("3")),
    TestPackage("1.0.9", Some("2")),
    TestPackage("2.2.4~pre4", Some("1")),
    TestPackage("1.5.dfsg+1.5.0.6", Some("4")),
    TestPackage("2.3.100", None),
    TestPackage("1.0.009", Some("3")),
    TestPackage("2.3.001", None),
    TestPackage("1.0.9", Some("2a")),
    TestPackage("2.2.4", Some("1")),
    TestPackage("1.5.dfsg+1.5.0.7", Some("1")),
    TestPackage("1.4pre.20050518", Some("0.4")),
    TestPackage("1.0.9", Some("5")),
    TestPackage("2.3.101", None),
    TestPackage("2.3.005", None),
    TestPackage("1.0.9", Some("5c")),
    TestPackage("1.0.9", Some("5a")),
    TestPackage("1.4pre.20050519", None)
  ]

  /** `files[i]` is `orderedFiles[ShuffledIndex[i]]` ... */
  const ShuffledIndex: seq<nat> := [20, 7, 2, 8, 19, 0, 13, 11, 17, 3, 15, 1, 14, 12, 9, 4, 18, 16, 6, 5, 10]

  /** ... and `orderedFiles[k]` is `files[OrderedIndex[k]]`. */
  const OrderedIndex: seq<nat> := [5, 11, 2, 9, 15, 19, 18, 1, 3, 14, 20, 7, 13, 6, 12, 10, 17, 8, 16, 4, 0]

  /** The shuffled list is a rearrangement of the ordered one: the index maps are
      mutually inverse bijections of 0..20. */
  lemma ShuffledIsPermutation()
    ensures |Shuffled| == |Ordered| == |ShuffledIndex| == |OrderedIndex|
    ensures forall i :: 0 <= i < |Shuffled| ==> ShuffledIndex[i] < |Ordered| && Shuffled[i] == Ordered[ShuffledIndex[i]]
    ensures forall k :: 0 <= k < |Ordered| ==> OrderedIndex[k] < |Shuffled| && ShuffledIndex[OrderedIndex[k]] == k
  {
    forall i | 0 <= i < |Shuffled|
      ensures ShuffledIndex[i] < |Ordered| && Shuffled[i] == Ordered[ShuffledIndex[i]]
    {
      if i == 0 { }
      else if i == 1 { }
      else if i == 2 { }
      else if i == 3 { }
      else if i == 4 { }
      else if i == 5 { }
      else if i == 6 { }
      else if i == 7 { }
      else if i == 8 { }
      else if i == 9 { }
      else if i == 10 { }
      else if i == 11 { }
      else if i == 12 { }
      else if i == 13 { }
      else if i == 14 { }
      else if i == 15 { }
      else if i == 16 { }
      else if i == 17 { }
      else if i == 18 { }
      else if i == 19 { }
      else if i == 20 { }
    }
    forall i | 0 <= i < |Ordered|
      ensures OrderedIndex[i] < |Shuffled| && ShuffledIndex[OrderedIndex[i]] == i
    {
      if i == 0 { }
      else if i == 1 { }
      else if i == 2 { }
      else if i == 3 { }
      else if i == 4 { }
      else if i == 5 { }
      else if i == 6 { }
      else if i == 7 { }
      else if i == 8 { }
      else if i == 9 { }
      else if i == 10 { }
      else if i == 11 { }
      else if i == 12 { }
      else if i == 13 { }
      else if i == 14 { }
      else if i == 15 { }
      else if i == 16 { }
      else if i == 17 { }
      else if i == 18 { }
      else if i == 19 { }
      else if i == 20 { }
    }
  }


  /** The package at `i` in the expected order compares strictly smaller than the next one. */
  predicate NeighbourAscends(i: nat) {
    i + 1 < |Ordered| && Compare(Ordered[i], Ordered[i + 1]).Ok? && Compare(Ordered[i], Ordered[i + 1]).value < 0
  }

  /** Every neighbour in the expected order compares strictly smaller under `compare`. */
  lemma OrderedIsStrictlyAscending()
    ensures forall i :: 0 <= i < |Ordered| - 1 ==> Compare(Ordered[i], Ordered[i + 1]).Ok? && Compare(Ordered[i], Ordered[i + 1]).value < 0
  {
    forall i | 0 <= i < |Ordered| - 1
      ensures Compare(Ordered[i], Ordered[i + 1]).Ok? && Compare(Ordered[i], Ordered[i + 1]).value < 0
    {
      if i < 5 { NeighboursFrom0(i); }
      else if i < 10 { NeighboursFrom5(i); }
      else if i < 15 { NeighboursFrom10(i); }
      else { NeighboursFrom15(i); }
    }
  }

  /** The neighbours 0 to 4 of the expected order. */
  lemma NeighboursFrom0(i: nat)
    requires 0 <= i < 5
    ensures NeighbourAscends(i)
  {
    if i == 0 { Neighbours0(); }
    else if i == 1 { Neighbours1(); }
    else if i == 2 { Neighbours2(); }
    else if i == 3 { Neighbours3(); }
    else if i == 4 { Neighbours4(); }
  }

  /** The neighbours 5 to 9 of the expected order. */
  lemma NeighboursFrom5(i: nat)
    requires 5 <= i < 10
    ensures NeighbourAscends(i)
  {
    if i == 5 { Neighbours5(); }
    else if i == 6 { Neighbours6(); }
    else if i == 7 { Neighbours7(); }
    else if i == 8 { Neighbours8(); }
    else if i == 9 { Neighbours9(); }
  }

  /** The neighbours 10 to 14 of the expected order. */
  lemma NeighboursFrom10(i: nat)
    requires 10 <= i < 15
    ensures NeighbourAscends(i)
  {
    if i == 10 { Neighbours10(); }
    else if i == 11 { Neighbours11(); }
    else if i == 12 { Neighbours12(); }
    else if i == 13 { Neighbours13(); }
    else if i == 14 { Neighbours14(); }
  }

  /** The neighbours 15 to 19 of the expected order. */
  lemma NeighboursFrom15(i: nat)
    requires 15 <= i < 20
    ensures NeighbourAscends(i)
  {
    if i == 15 { Neighbours15(); }
    else if i == 16 { Neighbours16(); }
    else if i == 17 { Neighbours17(); }
    else if i == 18 { Neighbours18(); }
    else if i == 19 { Neighbours19(); }
  }

  lemma Neighbours0()
    ensures NeighbourAscends(0)
  {
    var p, q := Ordered[0], Ordered[1];
    Ascending0(p.version.value, q.version.value, p.revision.value, q.revision.value);
  }

  lemma Neighbours1()
    ensures NeighbourAscends(1)
  {
    var p, q := Ordered[1], Ordered[2];
    Ascending1(p.version.value, q.version.value, p.revision.value, q.revision.value);
  }

  lemma Neighbours2()
    ensures NeighbourAscends(2)
  {
    var p, q := Ordered[2], Ordered[3];
    Ascending2(p.version.value, q.version.value, p.revision.value, q.revision.value);
  }

  lemma Neighbours3()
    ensures NeighbourAscends(3)
  {
    var p, q := Ordered[3], Ordered[4];
    Ascending3(p.version.value, q.version.value, p.revision.value, q.revision.value);
  }

  lemma Neighbours4()
    ensures NeighbourAscends(4)
  {
    var p, q := Ordered[4], Ordered[5];
    Ascending4(p.version.value, q.version.value, p.revision.value, q.revision.value);
  }

  lemma Neighbours5()
    ensures NeighbourAscends(5)
  {
    var p, q := Ordered[5], Ordered[6];
    Ascending5(p.version.value, q.version.value, p.revision.value, q.revision.value);
  }

  lemma Neighbours6()
    ensures NeighbourAscends(6)
  {
    var p, q := Ordered[6], Ordered[7];
    Ascending6(p.version.value, q.version.value);
  }

  lemma Neighbours7()
    ensures NeighbourAscends(7)
  {
    var p, q := Ordered[7], Ordered[8];
    Ascending7(p.version.value, q.version.value);
  }

  lemma Neighbours8()
    ensures NeighbourAscends(8)
  {
    var p, q := Ordered[8], Ordered[9];
    Ascending8(p.version.value, q.version.value, p.revision.value, q.revision.value);
  }

  lemma Neighbours9()
    ensures NeighbourAscends(9)
  {
    var p, q := Ordered[9], Ordered[10];
    Ascending9(p.version.value, q.version.value);
  }

  lemma Neighbours10()
    ensures NeighbourAscends(10)
  {
    var p, q := Ordered[10], Ordered[11];
    Ascending10(p.version.value, q.version.value);
  }

  lemma Neighbours11()
    ensures NeighbourAscends(11)
  {
    var p, q := Ordered[11], Ordered[12];
    Ascending11(p.version.value, q.version.value);
  }

  lemma Neighbours12()
    ensures NeighbourAscends(12)
  {
    var p, q := Ordered[12], Ordered[13];
    Ascending12(p.version.value, q.version.value);
  }

  lemma Neighbours13()
    ensures NeighbourAscends(13)
  {
    var p, q := Ordered[13], Ordered[14];
    Ascending13(p.version.value, q.version.value);
  }

  lemma Neighbours14()
    ensures NeighbourAscends(14)
  {
    var p, q := Ordered[14], Ordered[15];
    Ascending14(p.version.value, q.version.value);
  }

  lemma Neighbours15()
    ensures NeighbourAscends(15)
  {
    var p, q := Ordered[15], Ordered[16];
    Ascending15(p.version.value, q.version.value);
  }

  lemma Neighbours16()
    ensures NeighbourAscends(16)
  {
    var p, q := Ordered[16], Ordered[17];
    Ascending16(p.version.value, q.version.value);
  }

  lemma Neighbours17()
    ensures NeighbourAscends(17)
  {
    var p, q := Ordered[17], Ordered[18];
    Ascending17(p.version.value, q.version.value);
  }

  lemma Neighbours18()
    ensures NeighbourAscends(18)
  {
    var p, q := Ordered[18], Ordered[19];
    Ascending18(p.version.value, q.version.value);
  }

  lemma Neighbours19()
    ensures NeighbourAscends(19)
  {
    var p, q := Ordered[19], Ordered[20];
    Ascending19(p.version.value, q.version.value, p.revision.value, q.revision.value);
  }
}

/** The passes of `strCompare` over each neighbouring pair of the expected
    order, step by step. */
module VersionOrderingSteps {
  import opened Common
  import opened VersionCompare

  /** One pass of `strCompare` that does not decide hands over to the next. */
  lemma Hop(c1: string, c2: string, p1: nat, p2: nat, q1: nat, q2: nat)
    requires p1 < |c1| || p2 < |c2|
    requires Pass(c1, c2, p1, p2) == Reached(q1, q2)
    ensures CompareFrom(c1, c2, p1, p2) == CompareFrom(c1, c2, q1, q2)
  {
    PassUnfold(c1, c2, p1, p2);
  }

  /** A pass of `strCompare` that decides gives the result. */
  lemma Finish(c1: string, c2: string, p1: nat, p2: nat, d: int)
    requires p1 < |c1| || p2 < |c2|
    requires Pass(c1, c2, p1, p2) == Decided(d)
    ensures CompareFrom(c1, c2, p1, p2) == d
  {
    PassUnfold(c1, c2, p1, p2);
  }

  // One lemma per neighbouring pair: the passes of `strCompare`, step by step.

  lemma Ascending0(v1: string, v2: string, r1: string, r2: string)
    requires v1 == "1.0.9"
    requires v2 == "1.0.9"
    requires r1 == "2"
    requires r2 == "2a"
    ensures CompareFrom(v1, v2, 0, 0) == 0
    ensures CompareFrom(r1, r2, 0, 0) == -97
  {
    StrCompareReflexive(Some(v1));
    assert Pass(r1, r2, 0, 0) == Reached(1, 1) by {
      assert SkipNonDigits(r1, r2, 0, 0) == Reached(0, 0);
      assert SkipZeros(r1, 0) == 0;
      assert SkipZeros(r2, 0) == 0;
      assert CompareDigits(r1, r2, 0, 0, 0) == CompareDigits(r1, r2, 1, 1, 0);
      assert CompareDigits(r1, r2, 1, 1, 0) == DigitsEnd(1, 1, 0);
    }
    assert Pass(r1, r2, 1, 1) == Decided(-97) by {
      assert SkipNonDigits(r1, r2, 1, 1) == Decided(-97);
    }
    Hop(r1, r2, 0, 0, 1, 1);
    Finish(r1, r2, 1, 1, -97);
  }

  lemma Ascending1(v1: string, v2: string, r1: string, r2: string)
    requires v1 == "1.0.9"
    requires v2 == "1.0.9"
    requires r1 == "2a"
    requires r2 == "2b"
    ensures CompareFrom(v1, v2, 0, 0) == 0
    ensures CompareFrom(r1, r2, 0, 0) == -1
  {
    StrCompareReflexive(Some(v1));
    assert Pass(r1, r2, 0, 0) == Reached(1, 1) by {
      assert SkipNonDigits(r1, r2, 0, 0) == Reached(0, 0);
      assert SkipZeros(r1, 0) == 0;
      assert SkipZeros(r2, 0) == 0;
      assert CompareDigits(r1, r2, 0, 0, 0) == CompareDigits(r1, r2, 1, 1, 0);
      assert CompareDigits(r1, r2, 1, 1, 0) == DigitsEnd(1, 1, 0);
    }
    assert Pass(r1, r2, 1, 1) == Decided(-1) by {
      assert SkipNonDigits(r1, r2, 1, 1) == Decided(-1);
    }
    Hop(r1, r2, 0, 0, 1, 1);
    Finish(r1, r2, 1, 1, -1);
  }

  lemma Ascending2(v1: string, v2: string, r1: string, r2: string)
    requires v1 == "1.0.9"
    requires v2 == "1.0.009"
    requires r1 == "2b"
    requires r2 == "3"
    ensures CompareFrom(v1, v2, 0, 0) == 0
    ensures CompareFrom(r1, r2, 0, 0) == -1
  {
    assert Pass(v1, v2, 0, 0) == Reached(1, 1) by {
      assert SkipNonDigits(v1, v2, 0, 0) == Reached(0, 0);
      assert SkipZeros(v1, 0) == 0;
      assert SkipZeros(v2, 0) == 0;
      assert CompareDigits(v1, v2, 0, 0, 0) == CompareDigits(v1, v2, 1, 1, 0);
      assert CompareDigits(v1, v2, 1, 1, 0) == DigitsEnd(1, 1, 0);
    }
    Ascending2Pass1(v1, v2);
    Ascending2Pass2(v1, v2);
    Hop(v1, v2, 0, 0, 1, 1);
    Hop(v1, v2, 1, 1, 3, 3);
    Hop(v1, v2, 3, 3, 5, 7);
    assert Pass(r1, r2, 0, 0) == Decided(-1) by {
      assert SkipNonDigits(r1, r2, 0, 0) == Reached(0, 0);
      assert SkipZeros(r1, 0) == 0;
      assert SkipZeros(r2, 0) == 0;
      assert CompareDigits(r1, r2, 0, 0, 0) == CompareDigits(r1, r2, 1, 1, -1);
      assert CompareDigits(r1, r2, 1, 1, -1) == DigitsEnd(1, 1, -1);
    }
    Finish(r1, r2, 0, 0, -1);
  }

  lemma Ascending2Pass1(v1: string, v2: string)
    requires v1 == "1.0.9"
    requires v2 == "1.0.009"
    ensures Pass(v1, v2, 1, 1) == Reached(3, 3)
  {
    assert SkipNonDigits(v1, v2, 1, 1) == SkipNonDigits(v1, v2, 2, 2);
    assert SkipNonDigits(v1, v2, 2, 2) == Reached(2, 2);
    assert SkipZeros(v1, 2) == SkipZeros(v1, 3);
    assert SkipZeros(v1, 3) == 3;
    assert SkipZeros(v2, 2) == SkipZeros(v2, 3);
    assert SkipZeros(v2, 3) == 3;
    assert CompareDigits(v1, v2, 3, 3, 0) == DigitsEnd(3, 3, 0);
  }

  lemma Ascending2Pass2(v1: string, v2: string)
    requires v1 == "1.0.9"
    requires v2 == "1.0.009"
    ensures Pass(v1, v2, 3, 3) == Reached(5, 7)
  {
    assert SkipNonDigits(v1, v2, 3, 3) == SkipNonDigits(v1, v2, 4, 4);
    assert SkipNonDigits(v1, v2, 4, 4) == Reached(4, 4);
    assert SkipZeros(v1, 4) == 4;
    assert SkipZeros(v2, 4) == SkipZeros(v2, 5);
    assert SkipZeros(v2, 5) == SkipZeros(v2, 6);
    assert SkipZeros(v2, 6) == 6;
    assert CompareDigits(v1, v2, 4, 6, 0) == CompareDigits(v1, v2, 5, 7, 0);
    assert CompareDigits(v1, v2, 5, 7, 0) == DigitsEnd(5, 7, 0);
  }

  lemma Ascending3(v1: string, v2: string, r1: string, r2: string)
    requires v1 == "1.0.009"
    requires v2 == "1.0.9"
    requires r1 == "3"
    requires r2 == "5"
    ensures CompareFrom(v1, v2, 0, 0) == 0
    ensures CompareFrom(r1, r2, 0, 0) == -2
  {
    assert Pass(v1, v2, 0, 0) == Reached(1, 1) by {
      assert SkipNonDigits(v1, v2, 0, 0) == Reached(0, 0);
      assert SkipZeros(v1, 0) == 0;
      assert SkipZeros(v2, 0) == 0;
      assert CompareDigits(v1, v2, 0, 0, 0) == CompareDigits(v1, v2, 1, 1, 0);
      assert CompareDigits(v1, v2, 1, 1, 0) == DigitsEnd(1, 1, 0);
    }
    Ascending3Pass1(v1, v2);
    Ascending3Pass2(v1, v2);
    Hop(v1, v2, 0, 0, 1, 1);
    Hop(v1, v2, 1, 1, 3, 3);
    Hop(v1, v2, 3, 3, 7, 5);
    assert Pass(r1, r2, 0, 0) == Decided(-2) by {
      assert SkipNonDigits(r1, r2, 0, 0) == Reached(0, 0);
      assert SkipZeros(r1, 0) == 0;
      assert SkipZeros(r2, 0) == 0;
      assert CompareDigits(r1, r2, 0, 0, 0) == CompareDigits(r1, r2, 1, 1, -2);
      assert CompareDigits(r1, r2, 1, 1, -2) == DigitsEnd(1, 1, -2);
    }
    Finish(r1, r2, 0, 0, -2);
  }

  lemma Ascending3Pass1(v1: string, v2: string)
    requires v1 == "1.0.009"
    requires v2 == "1.0.9"
    ensures Pass(v1, v2, 1, 1) == Reached(3, 3)
  {
    assert SkipNonDigits(v1, v2, 1, 1) == SkipNonDigits(v1, v2, 2, 2);
    assert SkipNonDigits(v1, v2, 2, 2) == Reached(2, 2);
    assert SkipZeros(v1, 2) == SkipZeros(v1, 3);
    assert SkipZeros(v1, 3) == 3;
    assert SkipZeros(v2, 2) == SkipZeros(v2, 3);
    assert SkipZeros(v2, 3) == 3;
    assert CompareDigits(v1, v2, 3, 3, 0) == DigitsEnd(3, 3, 0);
  }

  lemma Ascending3Pass2(v1: string, v2: string)
    requires v1 == "1.0.009"
    requires v2 == "1.0.9"
    ensures Pass(v1, v2, 3, 3) == Reached(7, 5)
  {
    assert SkipNonDigits(v1, v2, 3, 3) == SkipNonDigits(v1, v2, 4, 4);
    assert SkipNonDigits(v1, v2, 4, 4) == Reached(4, 4);
    assert SkipZeros(v1, 4) == SkipZeros(v1, 5);
    assert SkipZeros(v1, 5) == SkipZeros(v1, 6);
    assert SkipZeros(v1, 6) == 6;
    assert SkipZeros(v2, 4) == 4;
    assert CompareDigits(v1, v2, 6, 4, 0) == CompareDigits(v1, v2, 7, 5, 0);
    assert CompareDigits(v1, v2, 7, 5, 0) == DigitsEnd(7, 5, 0);
  }

  lemma Ascending4(v1: string, v2: string, r1: string, r2: string)
    requires v1 == "1.0.9"
    requires v2 == "1.0.9"
    requires r1 == "5"
    requires r2 == "5a"
    ensures CompareFrom(v1, v2, 0, 0) == 0
    ensures CompareFrom(r1, r2, 0, 0) == -97
  {
    StrCompareReflexive(Some(v1));
    assert Pass(r1, r2, 0, 0) == Reached(1, 1) by {
      assert SkipNonDigits(r1, r2, 0, 0) == Reached(0, 0);
      assert SkipZeros(r1, 0) == 0;
      assert SkipZeros(r2, 0) == 0;
      assert CompareDigits(r1, r2, 0, 0, 0) == CompareDigits(r1, r2, 1, 1, 0);
      assert CompareDigits(r1, r2, 1, 1, 0) == DigitsEnd(1, 1, 0);
    }
    assert Pass(r1, r2, 1, 1) == Decided(-97) by {
      assert SkipNonDigits(r1, r2, 1, 1) == Decided(-97);
    }
    Hop(r1, r2, 0, 0, 1, 1);
    Finish(r1, r2, 1, 1, -97);
  }

  lemma Ascending5(v1: string, v2: string, r1: string, r2: string)
    requires v1 == "1.0.9"
    requires v2 == "1.0.9"
    requires r1 == "5a"
    requires r2 == "5c"
    ensures CompareFrom(v1, v2, 0, 0) == 0
    ensures CompareFrom(r1, r2, 0, 0) == -2
  {
    StrCompareReflexive(Some(v1));
    assert Pass(r1, r2, 0, 0) == Reached(1, 1) by {
      assert SkipNonDigits(r1, r2, 0, 0) == Reached(0, 0);
      assert SkipZeros(r1, 0) == 0;
      assert SkipZeros(r2, 0) == 0;
      assert CompareDigits(r1, r2, 0, 0, 0) == CompareDigits(r1, r2, 1, 1, 0);
      assert CompareDigits(r1, r2, 1, 1, 0) == DigitsEnd(1, 1, 0);
    }
    assert Pass(r1, r2, 1, 1) == Decided(-2) by {
      assert SkipNonDigits(r1, r2, 1, 1) == Decided(-2);
    }
    Hop(r1, r2, 0, 0, 1, 1);
    Finish(r1, r2, 1, 1, -2);
  }

  lemma Ascending6(v1: string, v2: string)
    requires v1 == "1.0.9"
    requires v2 == "1.0.10"
    ensures CompareFrom(v1, v2, 0, 0) == -1
  {
    assert Pass(v1, v2, 0, 0) == Reached(1, 1) by {
      assert SkipNonDigits(v1, v2, 0, 0) == Reached(0, 0);
      assert SkipZeros(v1, 0) == 0;
      assert SkipZeros(v2, 0) == 0;
      assert CompareDigits(v1, v2, 0, 0, 0) == CompareDigits(v1, v2, 1, 1, 0);
      assert CompareDigits(v1, v2, 1, 1, 0) == DigitsEnd(1, 1, 0);
    }
    Ascending6Pass1(v1, v2);
    assert Pass(v1, v2, 3, 3) == Decided(-1) by {
      assert SkipNonDigits(v1, v2, 3, 3) == SkipNonDigits(v1, v2, 4, 4);
      assert SkipNonDigits(v1, v2, 4, 4) == Reached(4, 4);
      assert SkipZeros(v1, 4) == 4;
      assert SkipZeros(v2, 4) == 4;
      assert CompareDigits(v1, v2, 4, 4, 0) == CompareDigits(v1, v2, 5, 5, 8);
      assert CompareDigits(v1, v2, 5, 5, 8) == DigitsEnd(5, 5, 8);
    }
    Hop(v1, v2, 0, 0, 1, 1);
    Hop(v1, v2, 1, 1, 3, 3);
    Finish(v1, v2, 3, 3, -1);
  }

  lemma Ascending6Pass1(v1: string, v2: string)
    requires v1 == "1.0.9"
    requires v2 == "1.0.10"
    ensures Pass(v1, v2, 1, 1) == Reached(3, 3)
  {
    assert SkipNonDigits(v1, v2, 1, 1) == SkipNonDigits(v1, v2, 2, 2);
    assert SkipNonDigits(v1, v2, 2, 2) == Reached(2, 2);
    assert SkipZeros(v1, 2) == SkipZeros(v1, 3);
    assert SkipZeros(v1, 3) == 3;
    assert SkipZeros(v2, 2) == SkipZeros(v2, 3);
    assert SkipZeros(v2, 3) == 3;
    assert CompareDigits(v1, v2, 3, 3, 0) == DigitsEnd(3, 3, 0);
  }

  lemma Ascending7(v1: string, v2: string)
    requires v1 == "1.0.10"
    requires v2 == "1.4pre.20050518"
    ensures CompareFrom(v1, v2, 0, 0) == -1
  {
    assert Pass(v1, v2, 0, 0) == Reached(1, 1) by {
      assert SkipNonDigits(v1, v2, 0, 0) == Reached(0, 0);
      assert SkipZeros(v1, 0) == 0;
      assert SkipZeros(v2, 0) == 0;
      assert CompareDigits(v1, v2, 0, 0, 0) == CompareDigits(v1, v2, 1, 1, 0);
      assert CompareDigits(v1, v2, 1, 1, 0) == DigitsEnd(1, 1, 0);
    }
    assert Pass(v1, v2, 1, 1) == Decided(-1) by {
      assert SkipNonDigits(v1, v2, 1, 1) == SkipNonDigits(v1, v2, 2, 2);
      assert SkipNonDigits(v1, v2, 2, 2) == Reached(2, 2);
      assert SkipZeros(v1, 2) == SkipZeros(v1, 3);
      assert SkipZeros(v1, 3) == 3;
      assert SkipZeros(v2, 2) == 2;
      assert CompareDigits(v1, v2, 3, 2, 0) == DigitsEnd(3, 2, 0);
    }
    Hop(v1, v2, 0, 0, 1, 1);
    Finish(v1, v2, 1, 1, -1);
  }

  lemma Ascending8(v1: string, v2: string, r1: string, r2: string)
    requires v1 == "1.4pre.20050518"
    requires v2 == "1.4pre.20050518"
    requires r1 == "0.3"
    requires r2 == "0.4"
    ensures CompareFrom(v1, v2, 0, 0) == 0
    ensures CompareFrom(r1, r2, 0, 0) == -1
  {
    StrCompareReflexive(Some(v1));
    assert Pass(r1, r2, 0, 0) == Reached(1, 1) by {
      assert SkipNonDigits(r1, r2, 0, 0) == Reached(0, 0);
      assert SkipZeros(r1, 0) == SkipZeros(r1, 1);
      assert SkipZeros(r1, 1) == 1;
      assert SkipZeros(r2, 0) == SkipZeros(r2, 1);
      assert SkipZeros(r2, 1) == 1;
      assert CompareDigits(r1, r2, 1, 1, 0) == DigitsEnd(1, 1, 0);
    }
    assert Pass(r1, r2, 1, 1) == Decided(-1) by {
      assert SkipNonDigits(r1, r2, 1, 1) == SkipNonDigits(r1, r2, 2, 2);
      assert SkipNonDigits(r1, r2, 2, 2) == Reached(2, 2);
      assert SkipZeros(r1, 2) == 2;
      assert SkipZeros(r2, 2) == 2;
      assert CompareDigits(r1, r2, 2, 2, 0) == CompareDigits(r1, r2, 3, 3, -1);
      assert CompareDigits(r1, r2, 3, 3, -1) == DigitsEnd(3, 3, -1);
    }
    Hop(r1, r2, 0, 0, 1, 1);
    Finish(r1, r2, 1, 1, -1);
  }

  lemma Ascending9(v1: string, v2: string)
    requires v1 == "1.4pre.20050518"
    requires v2 == "1.4pre.20050519"
    ensures CompareFrom(v1, v2, 0, 0) == -1
  {
    assert Pass(v1, v2, 0, 0) == Reached(1, 1) by {
      assert SkipNonDigits(v1, v2, 0, 0) == Reached(0, 0);
      assert SkipZeros(v1, 0) == 0;
      assert SkipZeros(v2, 0) == 0;
      assert CompareDigits(v1, v2, 0, 0, 0) == CompareDigits(v1, v2, 1, 1, 0);
      assert CompareDigits(v1, v2, 1, 1, 0) == DigitsEnd(1, 1, 0);
    }
    assert Pass(v1, v2, 1, 1) == Reached(3, 3) by {
      assert SkipNonDigits(v1, v2, 1, 1) == SkipNonDigits(v1, v2, 2, 2);
      assert SkipNonDigits(v1, v2, 2, 2) == Reached(2, 2);
      assert SkipZeros(v1, 2) == 2;
      assert SkipZeros(v2, 2) == 2;
      assert CompareDigits(v1, v2, 2, 2, 0) == CompareDigits(v1, v2, 3, 3, 0);
      assert CompareDigits(v1, v2, 3, 3, 0) == DigitsEnd(3, 3, 0);
    }
    Ascending9Pass2(v1, v2);
    Hop(v1, v2, 0, 0, 1, 1);
    Hop(v1, v2, 1, 1, 3, 3);
    Finish(v1, v2, 3, 3, -1);
  }

  lemma Ascending9Pass2(v1: string, v2: string)
    requires v1 == "1.4pre.20050518"
    requires v2 == "1.4pre.20050519"
    ensures Pass(v1, v2, 3, 3) == Decided(-1)
  {
    assert SkipNonDigits(v1, v2, 3, 3) == SkipNonDigits(v1, v2, 4, 4);
    assert SkipNonDigits(v1, v2, 4, 4) == SkipNonDigits(v1, v2, 5, 5);
    assert SkipNonDigits(v1, v2, 5, 5) == SkipNonDigits(v1, v2, 6, 6);
    assert SkipNonDigits(v1, v2, 6, 6) == SkipNonDigits(v1, v2, 7, 7);
    assert SkipNonDigits(v1, v2, 7, 7) == Reached(7, 7);
    assert SkipZeros(v1, 7) == 7;
    assert SkipZeros(v2, 7) == 7;
    assert CompareDigits(v1, v2, 7, 7, 0) == CompareDigits(v1, v2, 8, 8, 0);
    assert CompareDigits(v1, v2, 8, 8, 0) == CompareDigits(v1, v2, 9, 9, 0);
    assert CompareDigits(v1, v2, 9, 9, 0) == CompareDigits(v1, v2, 10, 10, 0);
    assert CompareDigits(v1, v2, 10, 10, 0) == CompareDigits(v1, v2, 11, 11, 0);
    assert CompareDigits(v1, v2, 11, 11, 0) == CompareDigits(v1, v2, 12, 12, 0);
    assert CompareDigits(v1, v2, 12, 12, 0) == CompareDigits(v1, v2, 13, 13, 0);
    assert CompareDigits(v1, v2, 13, 13, 0) == CompareDigits(v1, v2, 14, 14, 0);
    assert CompareDigits(v1, v2, 14, 14, 0) == CompareDigits(v1, v2, 15, 15, -1);
    assert CompareDigits(v1, v2, 15, 15, -1) == DigitsEnd(15, 15, -1);
  }

  lemma Ascending10(v1: string, v2: string)
    requires v1 == "1.4pre.20050519"
    requires v2 == "1.5.dfsg+1.5.0.6"
    ensures CompareFrom(v1, v2, 0, 0) == -1
  {
    assert Pass(v1, v2, 0, 0) == Reached(1, 1) by {
      assert SkipNonDigits(v1, v2, 0, 0) == Reached(0, 0);
      assert SkipZeros(v1, 0) == 0;
      assert SkipZeros(v2, 0) == 0;
      assert CompareDigits(v1, v2, 0, 0, 0) == CompareDigits(v1, v2, 1, 1, 0);
      assert CompareDigits(v1, v2, 1, 1, 0) == DigitsEnd(1, 1, 0);
    }
    assert Pass(v1, v2, 1, 1) == Decided(-1) by {
      assert SkipNonDigits(v1, v2, 1, 1) == SkipNonDigits(v1, v2, 2, 2);
      assert SkipNonDigits(v1, v2, 2, 2) == Reached(2, 2);
      assert SkipZeros(v1, 2) == 2;
      assert SkipZeros(v2, 2) == 2;
      assert CompareDigits(v1, v2, 2, 2, 0) == CompareDigits(v1, v2, 3, 3, -1);
      assert CompareDigits(v1, v2, 3, 3, -1) == DigitsEnd(3, 3, -1);
    }
    Hop(v1, v2, 0, 0, 1, 1);
    Finish(v1, v2, 1, 1, -1);
  }

  lemma Ascending11(v1: string, v2: string)
    requires v1 == "1.5.dfsg+1.5.0.6"
    requires v2 == "1.5.dfsg+1.5.0.7"
    ensures CompareFrom(v1, v2, 0, 0) == -1
  {
    Ascending11Pass0(v1, v2);
    Ascending11Pass1(v1, v2);
    Ascending11Pass2(v1, v2);
    Ascending11Pass3(v1, v2);
    Ascending11Pass4(v1, v2);
    Ascending11Pass5(v1, v2);
    Hop(v1, v2, 0, 0, 1, 1);
    Hop(v1, v2, 1, 1, 3, 3);
    Hop(v1, v2, 3, 3, 10, 10);
    Hop(v1, v2, 10, 10, 12, 12);
    Hop(v1, v2, 12, 12, 14, 14);
    Finish(v1, v2, 14, 14, -1);
  }

  lemma Ascending11Pass0(v1: string, v2: string)
    requires v1 == "1.5.dfsg+1.5.0.6"
    requires v2 == "1.5.dfsg+1.5.0.7"
    ensures Pass(v1, v2, 0, 0) == Reached(1, 1)
  {
    assert SkipNonDigits(v1, v2, 0, 0) == Reached(0, 0);
    assert SkipZeros(v1, 0) == 0;
    assert SkipZeros(v2, 0) == 0;
    assert CompareDigits(v1, v2, 0, 0, 0) == CompareDigits(v1, v2, 1, 1, 0);
    assert CompareDigits(v1, v2, 1, 1, 0) == DigitsEnd(1, 1, 0);
  }

  lemma Ascending11Pass1(v1: string, v2: string)
    requires v1 == "1.5.dfsg+1.5.0.6"
    requires v2 == "1.5.dfsg+1.5.0.7"
    ensures Pass(v1, v2, 1, 1) == Reached(3, 3)
  {
    assert SkipNonDigits(v1, v2, 1, 1) == SkipNonDigits(v1, v2, 2, 2);
    assert SkipNonDigits(v1, v2, 2, 2) == Reached(2, 2);
    assert SkipZeros(v1, 2) == 2;
    assert SkipZeros(v2, 2) == 2;
    assert CompareDigits(v1, v2, 2, 2, 0) == CompareDigits(v1, v2, 3, 3, 0);
    assert CompareDigits(v1, v2, 3, 3, 0) == DigitsEnd(3, 3, 0);
  }

  lemma Ascending11Pass2(v1: string, v2: string)
    requires v1 == "1.5.dfsg+1.5.0.6"
    requires v2 == "1.5.dfsg+1.5.0.7"
    ensures Pass(v1, v2, 3, 3) == Reached(10, 10)
  {
    assert SkipNonDigits(v1, v2, 3, 3) == SkipNonDigits(v1, v2, 4, 4);
    assert SkipNonDigits(v1, v2, 4, 4) == SkipNonDigits(v1, v2, 5, 5);
    assert SkipNonDigits(v1, v2, 5, 5) == SkipNonDigits(v1, v2, 6, 6);
    assert SkipNonDigits(v1, v2, 6, 6) == SkipNonDigits(v1, v2, 7, 7);
    assert SkipNonDigits(v1, v2, 7, 7) == SkipNonDigits(v1, v2, 8, 8);
    assert SkipNonDigits(v1, v2, 8, 8) == SkipNonDigits(v1, v2, 9, 9);
    assert SkipNonDigits(v1, v2, 9, 9) == Reached(9, 9);
    assert SkipZeros(v1, 9) == 9;
    assert SkipZeros(v2, 9) == 9;
    assert CompareDigits(v1, v2, 9, 9, 0) == CompareDigits(v1, v2, 10, 10, 0);
    assert CompareDigits(v1, v2, 10, 10, 0) == DigitsEnd(10, 10, 0);
  }

  lemma Ascending11Pass3(v1: string, v2: string)
    requires v1 == "1.5.dfsg+1.5.0.6"
    requires v2 == "1.5.dfsg+1.5.0.7"
    ensures Pass(v1, v2, 10, 10) == Reached(12, 12)
  {
    assert SkipNonDigits(v1, v2, 10, 10) == SkipNonDigits(v1, v2, 11, 11);
    assert SkipNonDigits(v1, v2, 11, 11) == Reached(11, 11);
    assert SkipZeros(v1, 11) == 11;
    assert SkipZeros(v2, 11) == 11;
    assert CompareDigits(v1, v2, 11, 11, 0) == CompareDigits(v1, v2, 12, 12, 0);
    assert CompareDigits(v1, v2, 12, 12, 0) == DigitsEnd(12, 12, 0);
  }

  lemma Ascending11Pass4(v1: string, v2: string)
    requires v1 == "1.5.dfsg+1.5.0.6"
    requires v2 == "1.5.dfsg+1.5.0.7"
    ensures Pass(v1, v2, 12, 12) == Reached(14, 14)
  {
    assert SkipNonDigits(v1, v2, 12, 12) == SkipNonDigits(v1, v2, 13, 13);
    assert SkipNonDigits(v1, v2, 13, 13) == Reached(13, 13);
    assert SkipZeros(v1, 13) == SkipZeros(v1, 14);
    assert SkipZeros(v1, 14) == 14;
    assert SkipZeros(v2, 13) == SkipZeros(v2, 14);
    assert SkipZeros(v2, 14) == 14;
    assert CompareDigits(v1, v2, 14, 14, 0) == DigitsEnd(14, 14, 0);
  }

  lemma Ascending11Pass5(v1: string, v2: string)
    requires v1 == "1.5.dfsg+1.5.0.6"
    requires v2 == "1.5.dfsg+1.5.0.7"
    ensures Pass(v1, v2, 14, 14) == Decided(-1)
  {
    assert SkipNonDigits(v1, v2, 14, 14) == SkipNonDigits(v1, v2, 15, 15);
    assert SkipNonDigits(v1, v2, 15, 15) == Reached(15, 15);
    assert SkipZeros(v1, 15) == 15;
    assert SkipZeros(v2, 15) == 15;
    assert CompareDigits(v1, v2, 15, 15, 0) == CompareDigits(v1, v2, 16, 16, -1);
    assert CompareDigits(v1, v2, 16, 16, -1) == DigitsEnd(16, 16, -1);
  }

  lemma Ascending12(v1: string, v2: string)
    requires v1 == "1.5.dfsg+1.5.0.7"
    requires v2 == "2.2.4~pre4"
    ensures CompareFrom(v1, v2, 0, 0) == -1
  {
    assert Pass(v1, v2, 0, 0) == Decided(-1) by {
      assert SkipNonDigits(v1, v2, 0, 0) == Reached(0, 0);
      assert SkipZeros(v1, 0) == 0;
      assert SkipZeros(v2, 0) == 0;
      assert CompareDigits(v1, v2, 0, 0, 0) == CompareDigits(v1, v2, 1, 1, -1);
      assert CompareDigits(v1, v2, 1, 1, -1) == DigitsEnd(1, 1, -1);
    }
    Finish(v1, v2, 0, 0, -1);
  }

  lemma Ascending13(v1: string, v2: string)
    requires v1 == "2.2.4~pre4"
    requires v2 == "2.2.4"
    ensures CompareFrom(v1, v2, 0, 0) == -1
  {
    assert Pass(v1, v2, 0, 0) == Reached(1, 1) by {
      assert SkipNonDigits(v1, v2, 0, 0) == Reached(0, 0);
      assert SkipZeros(v1, 0) == 0;
      assert SkipZeros(v2, 0) == 0;
      assert CompareDigits(v1, v2, 0, 0, 0) == CompareDigits(v1, v2, 1, 1, 0);
      assert CompareDigits(v1, v2, 1, 1, 0) == DigitsEnd(1, 1, 0);
    }
    assert Pass(v1, v2, 1, 1) == Reached(3, 3) by {
      assert SkipNonDigits(v1, v2, 1, 1) == SkipNonDigits(v1, v2, 2, 2);
      assert SkipNonDigits(v1, v2, 2, 2) == Reached(2, 2);
      assert SkipZeros(v1, 2) == 2;
      assert SkipZeros(v2, 2) == 2;
      assert CompareDigits(v1, v2, 2, 2, 0) == CompareDigits(v1, v2, 3, 3, 0);
      assert CompareDigits(v1, v2, 3, 3, 0) == DigitsEnd(3, 3, 0);
    }
    assert Pass(v1, v2, 3, 3) == Reached(5, 5) by {
      assert SkipNonDigits(v1, v2, 3, 3) == SkipNonDigits(v1, v2, 4, 4);
      assert SkipNonDigits(v1, v2, 4, 4) == Reached(4, 4);
      assert SkipZeros(v1, 4) == 4;
      assert SkipZeros(v2, 4) == 4;
      assert CompareDigits(v1, v2, 4, 4, 0) == CompareDigits(v1, v2, 5, 5, 0);
      assert CompareDigits(v1, v2, 5, 5, 0) == DigitsEnd(5, 5, 0);
    }
    assert Pass(v1, v2, 5, 5) == Decided(-1) by {
      assert SkipNonDigits(v1, v2, 5, 5) == Decided(-1);
    }
    Hop(v1, v2, 0, 0, 1, 1);
    Hop(v1, v2, 1, 1, 3, 3);
    Hop(v1, v2, 3, 3, 5, 5);
    Finish(v1, v2, 5, 5, -1);
  }

  lemma Ascending14(v1: string, v2: string)
    requires v1 == "2.2.4"
    requires v2 == "2.3.001"
    ensures CompareFrom(v1, v2, 0, 0) == -1
  {
    assert Pass(v1, v2, 0, 0) == Reached(1, 1) by {
      assert SkipNonDigits(v1, v2, 0, 0) == Reached(0, 0);
      assert SkipZeros(v1, 0) == 0;
      assert SkipZeros(v2, 0) == 0;
      assert CompareDigits(v1, v2, 0, 0, 0) == CompareDigits(v1, v2, 1, 1, 0);
      assert CompareDigits(v1, v2, 1, 1, 0) == DigitsEnd(1, 1, 0);
    }
    assert Pass(v1, v2, 1, 1) == Decided(-1) by {
      assert SkipNonDigits(v1, v2, 1, 1) == SkipNonDigits(v1, v2, 2, 2);
      assert SkipNonDigits(v1, v2, 2, 2) == Reached(2, 2);
      assert SkipZeros(v1, 2) == 2;
      assert SkipZeros(v2, 2) == 2;
      assert CompareDigits(v1, v2, 2, 2, 0) == CompareDigits(v1, v2, 3, 3, -1);
      assert CompareDigits(v1, v2, 3, 3, -1) == DigitsEnd(3, 3, -1);
    }
    Hop(v1, v2, 0, 0, 1, 1);
    Finish(v1, v2, 1, 1, -1);
  }

  lemma Ascending15(v1: string, v2: string)
    requires v1 == "2.3.001"
    requires v2 == "2.3.005"
    ensures CompareFrom(v1, v2, 0, 0) == -4
  {
    assert Pass(v1, v2, 0, 0) == Reached(1, 1) by {
      assert SkipNonDigits(v1, v2, 0, 0) == Reached(0, 0);
      assert SkipZeros(v1, 0) == 0;
      assert SkipZeros(v2, 0) == 0;
      assert CompareDigits(v1, v2, 0, 0, 0) == CompareDigits(v1, v2, 1, 1, 0);
      assert CompareDigits(v1, v2, 1, 1, 0) == DigitsEnd(1, 1, 0);
    }
    assert Pass(v1, v2, 1, 1) == Reached(3, 3) by {
      assert SkipNonDigits(v1, v2, 1, 1) == SkipNonDigits(v1, v2, 2, 2);
      assert SkipNonDigits(v1, v2, 2, 2) == Reached(2, 2);
      assert SkipZeros(v1, 2) == 2;
      assert SkipZeros(v2, 2) == 2;
      assert CompareDigits(v1, v2, 2, 2, 0) == CompareDigits(v1, v2, 3, 3, 0);
      assert CompareDigits(v1, v2, 3, 3, 0) == DigitsEnd(3, 3, 0);
    }
    Ascending15Pass2(v1, v2);
    Hop(v1, v2, 0, 0, 1, 1);
    Hop(v1, v2, 1, 1, 3, 3);
    Finish(v1, v2, 3, 3, -4);
  }

  lemma Ascending15Pass2(v1: string, v2: string)
    requires v1 == "2.3.001"
    requires v2 == "2.3.005"
    ensures Pass(v1, v2, 3, 3) == Decided(-4)
  {
    assert SkipNonDigits(v1, v2, 3, 3) == SkipNonDigits(v1, v2, 4, 4);
    assert SkipNonDigits(v1, v2, 4, 4) == Reached(4, 4);
    assert SkipZeros(v1, 4) == SkipZeros(v1, 5);
    assert SkipZeros(v1, 5) == SkipZeros(v1, 6);
    assert SkipZeros(v1, 6) == 6;
    assert SkipZeros(v2, 4) == SkipZeros(v2, 5);
    assert SkipZeros(v2, 5) == SkipZeros(v2, 6);
    assert SkipZeros(v2, 6) == 6;
    assert CompareDigits(v1, v2, 6, 6, 0) == CompareDigits(v1, v2, 7, 7, -4);
    assert CompareDigits(v1, v2, 7, 7, -4) == DigitsEnd(7, 7, -4);
  }

  lemma Ascending16(v1: string, v2: string)
    requires v1 == "2.3.005"
    requires v2 == "2.3.100"
    ensures CompareFrom(v1, v2, 0, 0) == -1
  {
    assert Pass(v1, v2, 0, 0) == Reached(1, 1) by {
      assert SkipNonDigits(v1, v2, 0, 0) == Reached(0, 0);
      assert SkipZeros(v1, 0) == 0;
      assert SkipZeros(v2, 0) == 0;
      assert CompareDigits(v1, v2, 0, 0, 0) == CompareDigits(v1, v2, 1, 1, 0);
      assert CompareDigits(v1, v2, 1, 1, 0) == DigitsEnd(1, 1, 0);
    }
    assert Pass(v1, v2, 1, 1) == Reached(3, 3) by {
      assert SkipNonDigits(v1, v2, 1, 1) == SkipNonDigits(v1, v2, 2, 2);
      assert SkipNonDigits(v1, v2, 2, 2) == Reached(2, 2);
      assert SkipZeros(v1, 2) == 2;
      assert SkipZeros(v2, 2) == 2;
      assert CompareDigits(v1, v2, 2, 2, 0) == CompareDigits(v1, v2, 3, 3, 0);
      assert CompareDigits(v1, v2, 3, 3, 0) == DigitsEnd(3, 3, 0);
    }
    Ascending16Pass2(v1, v2);
    Hop(v1, v2, 0, 0, 1, 1);
    Hop(v1, v2, 1, 1, 3, 3);
    Finish(v1, v2, 3, 3, -1);
  }

  lemma Ascending16Pass2(v1: string, v2: string)
    requires v1 == "2.3.005"
    requires v2 == "2.3.100"
    ensures Pass(v1, v2, 3, 3) == Decided(-1)
  {
    assert SkipNonDigits(v1, v2, 3, 3) == SkipNonDigits(v1, v2, 4, 4);
    assert SkipNonDigits(v1, v2, 4, 4) == Reached(4, 4);
    assert SkipZeros(v1, 4) == SkipZeros(v1, 5);
    assert SkipZeros(v1, 5) == SkipZeros(v1, 6);
    assert SkipZeros(v1, 6) == 6;
    assert SkipZeros(v2, 4) == 4;
    assert CompareDigits(v1, v2, 6, 4, 0) == CompareDigits(v1, v2, 7, 5, 4);
    assert CompareDigits(v1, v2, 7, 5, 4) == DigitsEnd(7, 5, 4);
  }

  lemma Ascending17(v1: string, v2: string)
    requires v1 == "2.3.100"
    requires v2 == "2.3.101"
    ensures CompareFrom(v1, v2, 0, 0) == -1
  {
    assert Pass(v1, v2, 0, 0) == Reached(1, 1) by {
      assert SkipNonDigits(v1, v2, 0, 0) == Reached(0, 0);
      assert SkipZeros(v1, 0) == 0;
      assert SkipZeros(v2, 0) == 0;
      assert CompareDigits(v1, v2, 0, 0, 0) == CompareDigits(v1, v2, 1, 1, 0);
      assert CompareDigits(v1, v2, 1, 1, 0) == DigitsEnd(1, 1, 0);
    }
    assert Pass(v1, v2, 1, 1) == Reached(3, 3) by {
      assert SkipNonDigits(v1, v2, 1, 1) == SkipNonDigits(v1, v2, 2, 2);
      assert SkipNonDigits(v1, v2, 2, 2) == Reached(2, 2);
      assert SkipZeros(v1, 2) == 2;
      assert SkipZeros(v2, 2) == 2;
      assert CompareDigits(v1, v2, 2, 2, 0) == CompareDigits(v1, v2, 3, 3, 0);
      assert CompareDigits(v1, v2, 3, 3, 0) == DigitsEnd(3, 3, 0);
    }
    Ascending17Pass2(v1, v2);
    Hop(v1, v2, 0, 0, 1, 1);
    Hop(v1, v2, 1, 1, 3, 3);
    Finish(v1, v2, 3, 3, -1);
  }

  lemma Ascending17Pass2(v1: string, v2: string)
    requires v1 == "2.3.100"
    requires v2 == "2.3.101"
    ensures Pass(v1, v2, 3, 3) == Decided(-1)
  {
    assert SkipNonDigits(v1, v2, 3, 3) == SkipNonDigits(v1, v2, 4, 4);
    assert SkipNonDigits(v1, v2, 4, 4) == Reached(4, 4);
    assert SkipZeros(v1, 4) == 4;
    assert SkipZeros(v2, 4) == 4;
    assert CompareDigits(v1, v2, 4, 4, 0) == CompareDigits(v1, v2, 5, 5, 0);
    assert CompareDigits(v1, v2, 5, 5, 0) == CompareDigits(v1, v2, 6, 6, 0);
    assert CompareDigits(v1, v2, 6, 6, 0) == CompareDigits(v1, v2, 7, 7, -1);
    assert CompareDigits(v1, v2, 7, 7, -1) == DigitsEnd(7, 7, -1);
  }

  lemma Ascending18(v1: string, v2: string)
    requires v1 == "2.3.101"
    requires v2 == "3.0.1a"
    ensures CompareFrom(v1, v2, 0, 0) == -1
  {
    assert Pass(v1, v2, 0, 0) == Decided(-1) by {
      assert SkipNonDigits(v1, v2, 0, 0) == Reached(0, 0);
      assert SkipZeros(v1, 0) == 0;
      assert SkipZeros(v2, 0) == 0;
      assert CompareDigits(v1, v2, 0, 0, 0) == CompareDigits(v1, v2, 1, 1, -1);
      assert CompareDigits(v1, v2, 1, 1, -1) == DigitsEnd(1, 1, -1);
    }
    Finish(v1, v2, 0, 0, -1);
  }

  lemma Ascending19(v1: string, v2: string, r1: string, r2: string)
    requires v1 == "3.0.1a"
    requires v2 == "3.0.1a"
    requires r1 == "3"
    requires r2 == "4"
    ensures CompareFrom(v1, v2, 0, 0) == 0
    ensures CompareFrom(r1, r2, 0, 0) == -1
  {
    StrCompareReflexive(Some(v1));
    assert Pass(r1, r2, 0, 0) == Decided(-1) by {
      assert SkipNonDigits(r1, r2, 0, 0) == Reached(0, 0);
      assert SkipZeros(r1, 0) == 0;
      assert SkipZeros(r2, 0) == 0;
      assert CompareDigits(r1, r2, 0, 0, 0) == CompareDigits(r1, r2, 1, 1, -1);
      assert CompareDigits(r1, r2, 1, 1, -1) == DigitsEnd(1, 1, -1);
    }
    Finish(r1, r2, 0, 0, -1);
  }

}
