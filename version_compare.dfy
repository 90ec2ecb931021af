/** The dpkg version ordering (section 5.6.12 "Version" of the Debian Policy
    Manual, as ported from libdpkg's vercmp.c): `strCompare` of
    AbstractRepoPackageVersionComparator, `order` of
    DebianPackageVersionComparator, and the package comparison built on them.

    `CompareFrom` is the specification: one recursive step per pass of the
    outer loop of `strCompare`, each pass made of the four phases below. The
    method `StrCompare` is the loop itself, proved equal to it. */
module VersionCompare {
  import opened Common
  import opened Packages

  const NonAsciiOffset: int := 256

  predicate IsAsciiDigit(c: char) { '0' <= c <= '9' }

  predicate IsAsciiAlpha(c: char) { 'A' <= c <= 'Z' || 'a' <= c <= 'z' }

  /** `order(ca, pos)`: the rank of the character at `pos`; a position past the end ranks 0. */
  function Order(ca: string, pos: nat): (r: int)
    ensures pos >= |ca| ==> r == 0
    ensures r == -1 <==> pos < |ca| && ca[pos] == '~'
    ensures r >= -1
    ensures pos < |ca| && IsAsciiDigit(ca[pos]) ==> r == 0
    ensures pos < |ca| && IsAsciiAlpha(ca[pos]) ==> r == ca[pos] as int
    ensures pos < |ca| && ca[pos] != '~' && !IsAsciiDigit(ca[pos]) && !IsAsciiAlpha(ca[pos]) ==>
              r == ca[pos] as int + NonAsciiOffset && r > 'z' as int
  {
    if pos >= |ca| then 0
    else
      var c := ca[pos];
      if c == '~' then -1
      else if IsAsciiDigit(c) then 0
      else if IsAsciiAlpha(c) then c as int
      else c as int + NonAsciiOffset
  }

  predicate AtDigit(c: string, p: nat) { p < |c| && IsAsciiDigit(c[p]) }

  predicate AtNonDigit(c: string, p: nat) { p < |c| && !IsAsciiDigit(c[p]) }

  /** What is left of `c` from position `p` on: 0 once `p` runs past the end. */
  function Rest(c: string, p: nat): nat { if p < |c| then |c| - p else 0 }

  function Remaining(c1: string, c2: string, p1: nat, p2: nat): nat { Rest(c1, p1) + Rest(c2, p2) }

  /** Outcome of the non-digit phase: a decided comparison, or the positions reached. */
  datatype Phase = Decided(diff: int) | Reached(p1: nat, p2: nat)

  /** Phase 1: walk both strings in lockstep while either side is at a non-digit,
      stopping at the first non-zero difference of ranks. */
  function SkipNonDigits(c1: string, c2: string, p1: nat, p2: nat): Phase
    decreases Remaining(c1, c2, p1, p2)
  {
    if AtNonDigit(c1, p1) || AtNonDigit(c2, p2) then
      var diff := Order(c1, p1) - Order(c2, p2);
      if diff != 0 then Decided(diff) else SkipNonDigits(c1, c2, p1 + 1, p2 + 1)
    else
      Reached(p1, p2)
  }

  /** Phase 1 decides only on a real difference, and otherwise stops where neither
      side is at a non-digit, having advanced both sides equally. */
  lemma {:induction false} SkipNonDigitsFacts(c1: string, c2: string, p1: nat, p2: nat)
    ensures var r := SkipNonDigits(c1, c2, p1, p2);
            (r.Decided? ==> r.diff != 0)
            && (r.Reached? ==> p1 <= r.p1 && p2 <= r.p2 && r.p1 - p1 == r.p2 - p2)
            && (r.Reached? ==> !AtNonDigit(c1, r.p1) && !AtNonDigit(c2, r.p2))
            && (r.Reached? ==> Remaining(c1, c2, r.p1, r.p2) <= Remaining(c1, c2, p1, p2))
            && (r.Reached? && r.p1 != p1 ==> Remaining(c1, c2, r.p1, r.p2) < Remaining(c1, c2, p1, p2))
    decreases Remaining(c1, c2, p1, p2)
  {
    if AtNonDigit(c1, p1) || AtNonDigit(c2, p2) {
      if Order(c1, p1) - Order(c2, p2) == 0 {
        SkipNonDigitsFacts(c1, c2, p1 + 1, p2 + 1);
      }
    }
  }

  /** Phase 2: skip the zeros at `p`. */
  function SkipZeros(c: string, p: nat): nat
    decreases Rest(c, p)
  {
    if p < |c| && c[p] == '0' then SkipZeros(c, p + 1) else p
  }

  /** Phase 2 skips exactly the run of zeros at `p`. */
  lemma {:induction false} SkipZerosFacts(c: string, p: nat)
    ensures var q := SkipZeros(c, p);
            p <= q && Rest(c, q) <= Rest(c, p) && (q == p || Rest(c, q) < Rest(c, p))
            && (forall i :: p <= i < q ==> i < |c| && c[i] == '0')
            && (q < |c| ==> c[q] != '0')
    decreases Rest(c, p)
  {
    if p < |c| && c[p] == '0' {
      SkipZerosFacts(c, p + 1);
    }
  }

  /** Result of the digit phase: the positions reached and the first digit difference. */
  datatype DigitsEnd = DigitsEnd(p1: nat, p2: nat, firstDiff: int)

  /** Phase 3: walk both digit runs in lockstep, recording the first difference. */
  function CompareDigits(c1: string, c2: string, p1: nat, p2: nat, firstDiff: int): DigitsEnd
    decreases Rest(c1, p1)
  {
    if AtDigit(c1, p1) && AtDigit(c2, p2) then
      CompareDigits(c1, c2, p1 + 1, p2 + 1,
                    if firstDiff == 0 then c1[p1] as int - c2[p2] as int else firstDiff)
    else
      DigitsEnd(p1, p2, firstDiff)
  }

  /** Phase 3 advances both sides equally until one of them leaves its digit run,
      and keeps a difference it already has. */
  lemma {:induction false} CompareDigitsFacts(c1: string, c2: string, p1: nat, p2: nat, firstDiff: int)
    ensures var r := CompareDigits(c1, c2, p1, p2, firstDiff);
            p1 <= r.p1 && p2 <= r.p2 && r.p1 - p1 == r.p2 - p2
            && !(AtDigit(c1, r.p1) && AtDigit(c2, r.p2))
            && (AtDigit(c1, p1) && AtDigit(c2, p2) ==> r.p1 > p1)
            && (!(AtDigit(c1, p1) && AtDigit(c2, p2)) ==> r == DigitsEnd(p1, p2, firstDiff))
            && Remaining(c1, c2, r.p1, r.p2) <= Remaining(c1, c2, p1, p2)
            && (r.p1 > p1 ==> Remaining(c1, c2, r.p1, r.p2) < Remaining(c1, c2, p1, p2))
            && (firstDiff != 0 ==> r.firstDiff == firstDiff)
    decreases Rest(c1, p1)
  {
    if AtDigit(c1, p1) && AtDigit(c2, p2) {
      CompareDigitsFacts(c1, c2, p1 + 1, p2 + 1,
                         if firstDiff == 0 then c1[p1] as int - c2[p2] as int else firstDiff);
    }
  }

  /** One pass of the outer loop. Either it decides, or it reports where the next pass starts. */
  function Pass(c1: string, c2: string, p1: nat, p2: nat): Phase
  {
    match SkipNonDigits(c1, c2, p1, p2)
    case Decided(d) => Decided(d)
    case Reached(q1, q2) =>
      var e := CompareDigits(c1, c2, SkipZeros(c1, q1), SkipZeros(c2, q2), 0);
      if AtDigit(c1, e.p1) then Decided(1)
      else if AtDigit(c2, e.p2) then Decided(-1)
      else if e.firstDiff != 0 then Decided(e.firstDiff)
      else Reached(e.p1, e.p2)
  }

  /** A pass that does not decide always consumes input: this is why `strCompare`
      terminates even though phase 1 may push one index past the end of its string. */
  lemma {:induction false} PassProgress(c1: string, c2: string, p1: nat, p2: nat)
    requires p1 < |c1| || p2 < |c2|
    ensures Pass(c1, c2, p1, p2).Reached? ==>
              Remaining(c1, c2, Pass(c1, c2, p1, p2).p1, Pass(c1, c2, p1, p2).p2) < Remaining(c1, c2, p1, p2)
  {
    SkipNonDigitsFacts(c1, c2, p1, p2);
    match SkipNonDigits(c1, c2, p1, p2)
    case Decided(_) =>
    case Reached(q1, q2) =>
      var z1, z2 := SkipZeros(c1, q1), SkipZeros(c2, q2);
      SkipZerosFacts(c1, q1);
      SkipZerosFacts(c2, q2);
      var e := CompareDigits(c1, c2, z1, z2, 0);
      CompareDigitsFacts(c1, c2, z1, z2, 0);
      if q1 == p1 && z1 == q1 && z2 == q2 && e.p1 == z1 {
        // Nothing moved, so neither side is at a non-digit or a zero, and the digit
        // phase did not start: the side that still has input is at a lone digit.
        assert !(AtDigit(c1, z1) && AtDigit(c2, z2));
        assert AtDigit(c1, e.p1) || AtDigit(c2, e.p2);
      }
  }

  /** The specification of `strCompare` from positions `p1`, `p2`. */
  function CompareFrom(c1: string, c2: string, p1: nat, p2: nat): int
    decreases Remaining(c1, c2, p1, p2)
  {
    if !(p1 < |c1| || p2 < |c2|) then 0
    else
      PassProgress(c1, c2, p1, p2);
      match Pass(c1, c2, p1, p2)
      case Decided(d) => d
      case Reached(e1, e2) => CompareFrom(c1, c2, e1, e2)
  }

  /** One step of `CompareFrom`: a deciding pass gives the result, any other pass
      hands over to the next one. */
  lemma PassUnfold(c1: string, c2: string, p1: nat, p2: nat)
    requires p1 < |c1| || p2 < |c2|
    ensures Pass(c1, c2, p1, p2).Decided? ==> CompareFrom(c1, c2, p1, p2) == Pass(c1, c2, p1, p2).diff
    ensures Pass(c1, c2, p1, p2).Reached? ==>
              CompareFrom(c1, c2, p1, p2) == CompareFrom(c1, c2, Pass(c1, c2, p1, p2).p1, Pass(c1, c2, p1, p2).p2)
  {
  }

  /** `s == null ? new char[0] : s.toCharArray()`. */
  function Chars(s: Option<string>): string {
    if s.None? then [] else s.value
  }

  /** The value `strCompare(s1, s2)` returns. */
  function CompareStrings(s1: Option<string>, s2: Option<string>): int {
    CompareFrom(Chars(s1), Chars(s2), 0, 0)
  }

  /** `strCompare` as written: a while loop around the non-digit loop, two
      zero-stripping loops and the digit loop. */
  method StrCompare(s1: Option<string>, s2: Option<string>) returns (r: int)
    ensures r == CompareFrom(Chars(s1), Chars(s2), 0, 0)
  {
    var c1 := if s1.None? then [] else s1.value;
    var c2 := if s2.None? then [] else s2.value;
    var p1: nat, p2: nat := 0, 0;
    while p1 < |c1| || p2 < |c2|
      invariant CompareFrom(c1, c2, p1, p2) == CompareFrom(c1, c2, 0, 0)
      decreases Remaining(c1, c2, p1, p2)
    {
      ghost var start1, start2 := p1, p2;
      var diff;
      diff, p1, p2 := CompareNonDigits(c1, c2, p1, p2);
      if diff != 0 {
        PassUnfold(c1, c2, start1, start2);
        return diff;
      }
      ghost var reached1, reached2 := p1, p2;
      // strip zeros
      while p1 < |c1| && c1[p1] == '0'
        invariant SkipZeros(c1, p1) == SkipZeros(c1, reached1)
        decreases |c1| - p1
      {
        p1 := p1 + 1;
      }
      while p2 < |c2| && c2[p2] == '0'
        invariant SkipZeros(c2, p2) == SkipZeros(c2, reached2)
        decreases |c2| - p2
      {
        p2 := p2 + 1;
      }
      var firstDiff;
      p1, p2, firstDiff := CompareDigitRuns(c1, c2, p1, p2);
      PassUnfold(c1, c2, start1, start2);
      PassProgress(c1, c2, start1, start2);
      if AtDigit(c1, p1) {
        return 1;
      }
      if AtDigit(c2, p2) {
        return -1;
      }
      if firstDiff != 0 {
        return firstDiff;
      }
    }
    return 0;
  }

  /** The first inner loop of `strCompare`: compare the leading non-digits,
      returning the first difference of their order, or 0 and where the
      digits begin. */
  method CompareNonDigits(c1: string, c2: string, p1: nat, p2: nat) returns (diff: int, q1: nat, q2: nat)
    ensures SkipNonDigits(c1, c2, p1, p2) == if diff != 0 then Decided(diff) else Reached(q1, q2)
  {
    q1, q2 := p1, p2;
    while AtNonDigit(c1, q1) || AtNonDigit(c2, q2)
      invariant SkipNonDigits(c1, c2, q1, q2) == SkipNonDigits(c1, c2, p1, p2)
      decreases Remaining(c1, c2, q1, q2)
    {
      diff := Order(c1, q1) - Order(c2, q2);
      if diff != 0 {
        return;
      }
      q1, q2 := q1 + 1, q2 + 1;
    }
    diff := 0;
  }

  /** The digit loop of `strCompare`: walk both digit runs in lockstep and
      remember the first difference. */
  method CompareDigitRuns(c1: string, c2: string, p1: nat, p2: nat) returns (q1: nat, q2: nat, firstDiff: int)
    ensures CompareDigits(c1, c2, p1, p2, 0) == DigitsEnd(q1, q2, firstDiff)
  {
    q1, q2, firstDiff := p1, p2, 0;
    while AtDigit(c1, q1) && AtDigit(c2, q2)
      invariant CompareDigits(c1, c2, q1, q2, firstDiff) == CompareDigits(c1, c2, p1, p2, 0)
      decreases |c1| - q1
    {
      ghost var next := if firstDiff == 0 then c1[q1] as int - c2[q2] as int else firstDiff;
      assert CompareDigits(c1, c2, q1, q2, firstDiff) == CompareDigits(c1, c2, q1 + 1, q2 + 1, next);
      if firstDiff == 0 {
        firstDiff := c1[q1] as int - c2[q2] as int;
      }
      q1, q2 := q1 + 1, q2 + 1;
    }
  }

  // ---------------------------------------------------------------------------
  // Antisymmetry: swapping the arguments negates the result.

  function Swapped(r: Phase): Phase {
    match r
    case Decided(d) => Decided(-d)
    case Reached(a, b) => Reached(b, a)
  }

  lemma {:induction false} SkipNonDigitsSwap(c1: string, c2: string, p1: nat, p2: nat)
    ensures SkipNonDigits(c2, c1, p2, p1) == Swapped(SkipNonDigits(c1, c2, p1, p2))
    decreases Remaining(c1, c2, p1, p2)
  {
    if AtNonDigit(c1, p1) || AtNonDigit(c2, p2) {
      if Order(c1, p1) - Order(c2, p2) == 0 {
        SkipNonDigitsSwap(c1, c2, p1 + 1, p2 + 1);
      }
    }
  }

  lemma {:induction false} CompareDigitsSwap(c1: string, c2: string, p1: nat, p2: nat, firstDiff: int)
    ensures var r := CompareDigits(c1, c2, p1, p2, firstDiff);
            CompareDigits(c2, c1, p2, p1, -firstDiff) == DigitsEnd(r.p2, r.p1, -r.firstDiff)
    decreases Rest(c1, p1)
  {
    if AtDigit(c1, p1) && AtDigit(c2, p2) {
      CompareDigitsSwap(c1, c2, p1 + 1, p2 + 1,
                        if firstDiff == 0 then c1[p1] as int - c2[p2] as int else firstDiff);
    }
  }

  lemma PassSwap(c1: string, c2: string, p1: nat, p2: nat)
    ensures Pass(c2, c1, p2, p1) == Swapped(Pass(c1, c2, p1, p2))
  {
    SkipNonDigitsSwap(c1, c2, p1, p2);
    match SkipNonDigits(c1, c2, p1, p2)
    case Decided(_) =>
    case Reached(q1, q2) =>
      var z1, z2 := SkipZeros(c1, q1), SkipZeros(c2, q2);
      CompareDigitsSwap(c1, c2, z1, z2, 0);
      CompareDigitsFacts(c1, c2, z1, z2, 0);
  }

  /** `strCompare(s2, s1) == -strCompare(s1, s2)`, from any pair of positions. */
  lemma {:induction false} CompareFromAntisymmetric(c1: string, c2: string, p1: nat, p2: nat)
    ensures CompareFrom(c2, c1, p2, p1) == -CompareFrom(c1, c2, p1, p2)
    decreases Remaining(c1, c2, p1, p2)
  {
    if p1 < |c1| || p2 < |c2| {
      PassSwap(c1, c2, p1, p2);
      PassProgress(c1, c2, p1, p2);
      PassUnfold(c1, c2, p1, p2);
      PassUnfold(c2, c1, p2, p1);
      match Pass(c1, c2, p1, p2)
      case Decided(_) =>
      case Reached(e1, e2) => CompareFromAntisymmetric(c1, c2, e1, e2);
    }
  }

  /** Swapping the two version strings negates the comparison (null included). */
  lemma StrCompareAntisymmetric(s1: Option<string>, s2: Option<string>)
    ensures CompareStrings(s2, s1) == -CompareStrings(s1, s2)
  {
    CompareFromAntisymmetric(Chars(s1), Chars(s2), 0, 0);
  }

  /** A null version compares exactly like the empty one, on either side. */
  lemma NullIsEmpty(s: Option<string>)
    ensures CompareStrings(None, s) == CompareStrings(Some(""), s)
    ensures CompareStrings(s, None) == CompareStrings(s, Some(""))
  {
  }

  // ---------------------------------------------------------------------------
  // Equal tails compare equal; hence reflexivity and the skipping of leading zeros.

  /** From here on both strings hold the same characters. */
  predicate SameTail(c1: string, c2: string, p1: nat, p2: nat) {
    p1 <= |c1| && p2 <= |c2| && c1[p1..] == c2[p2..]
  }

  lemma SameTailAt(c1: string, c2: string, p1: nat, p2: nat)
    requires SameTail(c1, c2, p1, p2)
    ensures |c1| - p1 == |c2| - p2
    ensures p1 < |c1| ==> c1[p1] == c2[p2] && SameTail(c1, c2, p1 + 1, p2 + 1)
  {
    if p1 < |c1| {
      assert c1[p1] == c1[p1..][0] == c2[p2..][0] == c2[p2];
      assert c1[p1 + 1..] == c1[p1..][1..];
      assert c2[p2 + 1..] == c2[p2..][1..];
    }
  }

  lemma {:induction false} SameTailSkipNonDigits(c1: string, c2: string, p1: nat, p2: nat)
    requires SameTail(c1, c2, p1, p2)
    ensures SkipNonDigits(c1, c2, p1, p2).Reached?
    ensures SameTail(c1, c2, SkipNonDigits(c1, c2, p1, p2).p1, SkipNonDigits(c1, c2, p1, p2).p2)
    decreases |c1| - p1
  {
    SameTailAt(c1, c2, p1, p2);
    if AtNonDigit(c1, p1) || AtNonDigit(c2, p2) {
      SameTailSkipNonDigits(c1, c2, p1 + 1, p2 + 1);
    }
  }

  lemma {:induction false} SameTailSkipZeros(c1: string, c2: string, p1: nat, p2: nat)
    requires SameTail(c1, c2, p1, p2)
    ensures SameTail(c1, c2, SkipZeros(c1, p1), SkipZeros(c2, p2))
    decreases |c1| - p1
  {
    SameTailAt(c1, c2, p1, p2);
    if p1 < |c1| && c1[p1] == '0' {
      SameTailSkipZeros(c1, c2, p1 + 1, p2 + 1);
    }
  }

  lemma {:induction false} SameTailCompareDigits(c1: string, c2: string, p1: nat, p2: nat)
    requires SameTail(c1, c2, p1, p2)
    ensures CompareDigits(c1, c2, p1, p2, 0).firstDiff == 0
    ensures SameTail(c1, c2, CompareDigits(c1, c2, p1, p2, 0).p1, CompareDigits(c1, c2, p1, p2, 0).p2)
    decreases |c1| - p1
  {
    SameTailAt(c1, c2, p1, p2);
    if AtDigit(c1, p1) && AtDigit(c2, p2) {
      SameTailCompareDigits(c1, c2, p1 + 1, p2 + 1);
    }
  }

  /** Two strings that agree from the current positions on compare equal. */
  lemma {:induction false} SameTailCompareZero(c1: string, c2: string, p1: nat, p2: nat)
    requires SameTail(c1, c2, p1, p2)
    ensures CompareFrom(c1, c2, p1, p2) == 0
    decreases Remaining(c1, c2, p1, p2)
  {
    SameTailAt(c1, c2, p1, p2);
    if p1 < |c1| || p2 < |c2| {
      SameTailSkipNonDigits(c1, c2, p1, p2);
      var q := SkipNonDigits(c1, c2, p1, p2);
      SameTailSkipZeros(c1, c2, q.p1, q.p2);
      var z1, z2 := SkipZeros(c1, q.p1), SkipZeros(c2, q.p2);
      SameTailCompareDigits(c1, c2, z1, z2);
      var e := CompareDigits(c1, c2, z1, z2, 0);
      CompareDigitsFacts(c1, c2, z1, z2, 0);
      SameTailAt(c1, c2, e.p1, e.p2);
      assert Pass(c1, c2, p1, p2) == Reached(e.p1, e.p2);
      PassProgress(c1, c2, p1, p2);
      PassUnfold(c1, c2, p1, p2);
      SameTailCompareZero(c1, c2, e.p1, e.p2);
    }
  }

  /** Every version compares equal to itself. */
  lemma StrCompareReflexive(s: Option<string>)
    ensures CompareStrings(s, s) == 0
  {
    SameTailCompareZero(Chars(s), Chars(s), 0, 0);
  }

  predicate AllZeros(z: string) { forall i :: 0 <= i < |z| ==> z[i] == '0' }

  predicate AllDigits(d: string) { forall i :: 0 <= i < |d| ==> IsAsciiDigit(d[i]) }

  /** A version part after which a pass ends: empty, or ending in a non-digit. */
  predicate EndsPass(pre: string) { pre == [] || !IsAsciiDigit(pre[|pre| - 1]) }

  /** A version part that no digit run continues into: empty, or starting with a non-digit. */
  predicate StartsNonDigit(t: string) { t == [] || !IsAsciiDigit(t[0]) }

  // ---------------------------------------------------------------------------
  // A common prefix that ends a pass is walked without deciding.

  lemma {:induction false} PrefixSkipNonDigits(c1: string, c2: string, n: nat, p: nat)
    requires p <= n <= |c1| && n <= |c2| && c1[..n] == c2[..n]
    requires !AtNonDigit(c1, n) && !AtNonDigit(c2, n)
    ensures var r := SkipNonDigits(c1, c2, p, p);
            r.Reached? && r.p1 == r.p2 && p <= r.p1 <= n && (r.p1 < n ==> IsAsciiDigit(c1[r.p1]))
    decreases n - p
  {
    if p < n {
      assert c1[p] == c1[..n][p] == c2[..n][p] == c2[p];
      if !IsAsciiDigit(c1[p]) {
        PrefixSkipNonDigits(c1, c2, n, p + 1);
      }
    }
  }

  lemma {:induction false} PrefixSkipZeros(c1: string, c2: string, n: nat, q: nat)
    requires q < n <= |c1| && n <= |c2| && c1[..n] == c2[..n]
    requires !IsAsciiDigit(c1[n - 1])
    ensures SkipZeros(c1, q) == SkipZeros(c2, q) < n
    decreases n - q
  {
    assert c1[q] == c1[..n][q] == c2[..n][q] == c2[q];
    if c1[q] == '0' {
      PrefixSkipZeros(c1, c2, n, q + 1);
    }
  }

  lemma {:induction false} PrefixCompareDigits(c1: string, c2: string, n: nat, z: nat)
    requires z < n <= |c1| && n <= |c2| && c1[..n] == c2[..n]
    requires !IsAsciiDigit(c1[n - 1])
    ensures var e := CompareDigits(c1, c2, z, z, 0);
            e.p1 == e.p2 && z <= e.p1 < n && e.firstDiff == 0 && !IsAsciiDigit(c1[e.p1])
    decreases n - z
  {
    assert c1[z] == c1[..n][z] == c2[..n][z] == c2[z];
    if IsAsciiDigit(c1[z]) {
      PrefixCompareDigits(c1, c2, n, z + 1);
    }
  }

  /** Two versions that agree on their first `n` characters, the last of them
      a non-digit, with neither continuing in a non-digit: every pass over the
      common part ends undecided, and the comparison is the one from `n` on. */
  lemma {:induction false} CommonPrefixSkipped(c1: string, c2: string, n: nat, p: nat)
    requires p <= n <= |c1| && n <= |c2| && c1[..n] == c2[..n]
    requires p < n ==> !IsAsciiDigit(c1[n - 1])
    requires !AtNonDigit(c1, n) && !AtNonDigit(c2, n)
    ensures CompareFrom(c1, c2, p, p) == CompareFrom(c1, c2, n, n)
    decreases n - p
  {
    if p < n {
      PrefixSkipNonDigits(c1, c2, n, p);
      var q := SkipNonDigits(c1, c2, p, p).p1;
      PassProgress(c1, c2, p, p);
      PassUnfold(c1, c2, p, p);
      if q == n {
        assert SkipNonDigits(c1, c2, n, n) == Reached(n, n);
        assert Pass(c1, c2, p, p) == Pass(c1, c2, n, n);
        if n == |c1| && n == |c2| {
          assert CompareDigits(c1, c2, n, n, 0) == DigitsEnd(n, n, 0);
          assert Pass(c1, c2, n, n) == Reached(n, n);
        } else {
          PassUnfold(c1, c2, n, n);
        }
      } else {
        PrefixSkipZeros(c1, c2, n, q);
        var z := SkipZeros(c1, q);
        SkipZerosFacts(c1, q);
        PrefixCompareDigits(c1, c2, n, z);
        CompareDigitsFacts(c1, c2, z, z, 0);
        var e := CompareDigits(c1, c2, z, z, 0).p1;
        assert c1[e] == c1[..n][e] == c2[..n][e] == c2[e];
        assert Pass(c1, c2, p, p) == Reached(e, e);
        CommonPrefixSkipped(c1, c2, n, e);
      }
    }
  }

  // ---------------------------------------------------------------------------
  // Digit runs, from any pair of positions where both versions are at a digit
  // run (or at their end): leading zeros do not count, the longer run wins, and
  // runs of one length are ordered by their first differing digit.

  /** `c` holds exactly `n` digits at `p`: they are followed by a non-digit or the end. */
  predicate DigitRun(c: string, p: nat, n: nat) {
    p + n <= |c| && (forall i :: p <= i < p + n ==> IsAsciiDigit(c[i])) && !AtDigit(c, p + n)
  }

  lemma {:induction false} SkipZerosAlong(c: string, p: nat, m: nat)
    requires p + m <= |c| && forall i :: p <= i < p + m ==> c[i] == '0'
    ensures SkipZeros(c, p) == SkipZeros(c, p + m)
    decreases m
  {
    if m > 0 {
      SkipZerosAlong(c, p + 1, m - 1);
    }
  }

  /** Zeros at the start of a digit run are skipped: comparing from before
      them is comparing from after them. */
  lemma {:induction false} LeadingZerosSkipped(c1: string, c2: string, p1: nat, p2: nat, m: nat)
    requires p1 + m <= |c1| && forall i :: p1 <= i < p1 + m ==> c1[i] == '0'
    requires !AtNonDigit(c1, p1 + m) && !AtNonDigit(c2, p2)
    ensures CompareFrom(c1, c2, p1, p2) == CompareFrom(c1, c2, p1 + m, p2)
  {
    if m > 0 {
      assert SkipNonDigits(c1, c2, p1, p2) == Reached(p1, p2);
      assert SkipNonDigits(c1, c2, p1 + m, p2) == Reached(p1 + m, p2);
      SkipZerosAlong(c1, p1, m);
      assert Pass(c1, c2, p1, p2) == Pass(c1, c2, p1 + m, p2);
      PassProgress(c1, c2, p1, p2);
      PassUnfold(c1, c2, p1, p2);
      if p1 + m < |c1| || p2 < |c2| {
        PassUnfold(c1, c2, p1 + m, p2);
      } else {
        assert SkipZeros(c1, p1 + m) == p1 + m && SkipZeros(c2, p2) == p2;
        assert CompareDigits(c1, c2, p1 + m, p2, 0) == DigitsEnd(p1 + m, p2, 0);
      }
    }
  }

  lemma {:induction false} CompareDigitsAlong(c1: string, c2: string, p1: nat, p2: nat, m: nat, firstDiff: int)
    requires p1 + m <= |c1| && p2 + m <= |c2|
    requires forall i :: p1 <= i < p1 + m ==> IsAsciiDigit(c1[i])
    requires forall i :: p2 <= i < p2 + m ==> IsAsciiDigit(c2[i])
    requires !(AtDigit(c1, p1 + m) && AtDigit(c2, p2 + m))
    ensures CompareDigits(c1, c2, p1, p2, firstDiff).p1 == p1 + m
    ensures CompareDigits(c1, c2, p1, p2, firstDiff).p2 == p2 + m
    decreases m
  {
    if m > 0 {
      CompareDigitsAlong(c1, c2, p1 + 1, p2 + 1, m - 1,
                         if firstDiff == 0 then c1[p1] as int - c2[p2] as int else firstDiff);
    }
  }

  /** The characters at `p1 + i` and `p2 + i` agree. */
  predicate Agree(c1: string, c2: string, p1: nat, p2: nat, i: nat) {
    p1 + i < |c1| && p2 + i < |c2| && c1[p1 + i] == c2[p2 + i]
  }

  lemma {:induction false} CompareDigitsFirstDiff(c1: string, c2: string, p1: nat, p2: nat, k: nat)
    requires p1 + k < |c1| && p2 + k < |c2|
    requires forall i :: p1 <= i <= p1 + k ==> IsAsciiDigit(c1[i])
    requires forall i :: p2 <= i <= p2 + k ==> IsAsciiDigit(c2[i])
    requires forall i :: 0 <= i < k ==> Agree(c1, c2, p1, p2, i)
    requires c1[p1 + k] != c2[p2 + k]
    ensures CompareDigits(c1, c2, p1, p2, 0).firstDiff == c1[p1 + k] as int - c2[p2 + k] as int
    decreases k
  {
    if k == 0 {
      CompareDigitsFacts(c1, c2, p1 + 1, p2 + 1, c1[p1] as int - c2[p2] as int);
    } else {
      assert Agree(c1, c2, p1, p2, 0);
      var q1, q2 := p1 + 1, p2 + 1;
      forall i | 0 <= i < k - 1
        ensures Agree(c1, c2, q1, q2, i)
      {
        assert Agree(c1, c2, p1, p2, i + 1);
      }
      assert c1[(p1 + 1) + (k - 1)] == c1[p1 + k];
      CompareDigitsFirstDiff(c1, c2, p1 + 1, p2 + 1, k - 1);
    }
  }

  /** The longer of two digit runs without leading zeros is the greater: a
      version that has a digit run where the other has a shorter one (or
      ends) is the newer one. */
  lemma {:induction false} LongerRunDecides(c1: string, c2: string, p1: nat, p2: nat, n1: nat, n2: nat)
    requires DigitRun(c1, p1, n1) && DigitRun(c2, p2, n2) && n1 > n2
    requires c1[p1] != '0' && (n2 > 0 ==> c2[p2] != '0')
    requires !AtNonDigit(c2, p2)
    ensures CompareFrom(c1, c2, p1, p2) == 1
  {
    assert IsAsciiDigit(c1[p1]);
    assert SkipNonDigits(c1, c2, p1, p2) == Reached(p1, p2);
    assert SkipZeros(c1, p1) == p1 && SkipZeros(c2, p2) == p2;
    assert forall i :: p1 <= i < p1 + n2 ==> IsAsciiDigit(c1[i]);
    assert AtDigit(c1, p1 + n2);
    CompareDigitsAlong(c1, c2, p1, p2, n2, 0);
    assert Pass(c1, c2, p1, p2) == Decided(1);
    PassUnfold(c1, c2, p1, p2);
  }

  /** Of two digit runs of one length without leading zeros, the first
      differing digit decides, by its difference. */
  lemma {:induction false} FirstDiffDecides(c1: string, c2: string, p1: nat, p2: nat, n: nat, k: nat)
    requires DigitRun(c1, p1, n) && DigitRun(c2, p2, n) && k < n
    requires c1[p1] != '0' && c2[p2] != '0'
    requires forall i :: 0 <= i < k ==> Agree(c1, c2, p1, p2, i)
    requires c1[p1 + k] != c2[p2 + k]
    ensures CompareFrom(c1, c2, p1, p2) == c1[p1 + k] as int - c2[p2 + k] as int
  {
    assert IsAsciiDigit(c1[p1]) && IsAsciiDigit(c2[p2]);
    assert SkipNonDigits(c1, c2, p1, p2) == Reached(p1, p2);
    assert SkipZeros(c1, p1) == p1 && SkipZeros(c2, p2) == p2;
    CompareDigitsAlong(c1, c2, p1, p2, n, 0);
    CompareDigitsFirstDiff(c1, c2, p1, p2, k);
    assert Pass(c1, c2, p1, p2) == Decided(c1[p1 + k] as int - c2[p2 + k] as int);
    PassUnfold(c1, c2, p1, p2);
  }

  // ---------------------------------------------------------------------------
  // The same rules for whole versions, after any common prefix that ends a pass
  // (so "1.10" > "1.9" and "1.02" == "1.2").

  /** `c` holds `pre`, then the run `d`, then `t` that does not continue the run. */
  lemma {:induction false} DigitsAt(c: string, pre: string, d: string, t: string)
    requires c == pre + d + t && AllDigits(d) && StartsNonDigit(t)
    ensures c[..|pre|] == pre
    ensures DigitRun(c, |pre|, |d|)
    ensures forall i :: 0 <= i < |d| ==> c[|pre| + i] == d[i]
  {
    var n := |pre|;
    assert c[..n] == pre;
    forall i | 0 <= i < |d|
      ensures c[n + i] == d[i]
    {
    }
    forall i | n <= i < n + |d|
      ensures IsAsciiDigit(c[i])
    {
      assert c[n + (i - n)] == d[i - n];
    }
    if t != [] {
      assert c[n + |d|] == t[0];
    }
  }

  lemma {:induction false} ZerosAt(c1: string, c2: string, pre: string, z: string, s: string)
    requires c1 == pre + z + s && c2 == pre + s && AllZeros(z)
    requires s == [] || IsAsciiDigit(s[0])
    ensures c1[..|pre|] == pre && c2[..|pre|] == pre
    ensures !AtNonDigit(c1, |pre|) && !AtNonDigit(c2, |pre|) && !AtNonDigit(c1, |pre| + |z|)
    ensures forall i :: |pre| <= i < |pre| + |z| ==> c1[i] == '0'
    ensures SameTail(c1, c2, |pre| + |z|, |pre|)
  {
    var n := |pre|;
    assert c1[..n] == pre && c2[..n] == pre;
    if z != [] { assert c1[n] == z[0]; } else if s != [] { assert c1[n] == s[0]; }
    if s != [] { assert c2[n] == s[0]; assert c1[n + |z|] == s[0]; }
    forall i | n <= i < n + |z|
      ensures c1[i] == '0'
    {
      assert c1[i] == z[i - n];
    }
    assert c1[n + |z|..] == s == c2[n..];
  }

  /** Leading zeros of a digit run are ignored: `pre` + `00` + `12.3` compares
      equal to `pre` + `12.3`, for a `pre` that ends a pass. */
  lemma LeadingZerosIgnored(pre: string, z: string, s: string)
    requires EndsPass(pre) && AllZeros(z)
    requires s == [] || IsAsciiDigit(s[0])
    ensures CompareStrings(Some(pre + z + s), Some(pre + s)) == 0
  {
    var c1, c2 := pre + z + s, pre + s;
    ZerosAt(c1, c2, pre, z, s);
    ZerosAfterPrefix(c1, c2, |pre|, |z|);
  }

  /** `LeadingZerosIgnored` on the whole strings, once their parts are laid out. */
  lemma {:induction false} ZerosAfterPrefix(c1: string, c2: string, n: nat, m: nat)
    requires n <= |c1| && n <= |c2| && c1[..n] == c2[..n] && EndsPass(c1[..n])
    requires !AtNonDigit(c1, n) && !AtNonDigit(c2, n) && !AtNonDigit(c1, n + m)
    requires n + m <= |c1| && forall i :: n <= i < n + m ==> c1[i] == '0'
    requires SameTail(c1, c2, n + m, n)
    ensures CompareStrings(Some(c1), Some(c2)) == 0
  {
    CommonPrefixSkipped(c1, c2, n, 0);
    LeadingZerosSkipped(c1, c2, n, n, m);
    SameTailCompareZero(c1, c2, n + m, n);
  }

  /** After a common prefix that ends a pass, a longer digit run without
      leading zeros is the newer version: "1.10" > "1.9". */
  lemma LongerDigitRunWins(pre: string, d1: string, t1: string, d2: string, t2: string)
    requires EndsPass(pre)
    requires AllDigits(d1) && AllDigits(d2) && |d1| > |d2|
    requires d1[0] != '0' && (d2 != [] ==> d2[0] != '0')
    requires StartsNonDigit(t1) && StartsNonDigit(t2) && (d2 == [] ==> t2 == [])
    ensures CompareStrings(Some(pre + d1 + t1), Some(pre + d2 + t2)) == 1
    ensures CompareStrings(Some(pre + d2 + t2), Some(pre + d1 + t1)) == -1
  {
    var c1, c2, n := pre + d1 + t1, pre + d2 + t2, |pre|;
    DigitsAt(c1, pre, d1, t1);
    DigitsAt(c2, pre, d2, t2);
    assert c1[n + 0] == d1[0];
    if d2 != [] { assert c2[n + 0] == d2[0]; }
    CommonPrefixSkipped(c1, c2, n, 0);
    LongerRunDecides(c1, c2, n, n, |d1|, |d2|);
    StrCompareAntisymmetric(Some(c1), Some(c2));
  }

  /** After a common prefix that ends a pass, digit runs of one length
      without leading zeros are ordered by their first differing digit. */
  lemma FirstDifferingDigitDecides(pre: string, d1: string, t1: string, d2: string, t2: string, k: nat)
    requires EndsPass(pre)
    requires AllDigits(d1) && AllDigits(d2) && |d1| == |d2|
    requires k < |d1| && d1[..k] == d2[..k] && d1[k] != d2[k]
    requires d1[0] != '0' && d2[0] != '0'
    requires StartsNonDigit(t1) && StartsNonDigit(t2)
    ensures CompareStrings(Some(pre + d1 + t1), Some(pre + d2 + t2)) == d1[k] as int - d2[k] as int
  {
    var c1, c2 := pre + d1 + t1, pre + d2 + t2;
    RunsAt(c1, c2, pre, d1, t1, d2, t2);
    assert c1[..|pre|] == c2[..|pre|] && EndsPass(c1[..|pre|]);
    FirstDiffAfterPrefix(c1, c2, |pre|, d1, d2, k);
  }

  /** `DigitsAt` for two versions with one prefix. */
  lemma {:induction false} RunsAt(c1: string, c2: string, pre: string, d1: string, t1: string, d2: string, t2: string)
    requires c1 == pre + d1 + t1 && AllDigits(d1) && StartsNonDigit(t1)
    requires c2 == pre + d2 + t2 && AllDigits(d2) && StartsNonDigit(t2)
    ensures |pre| <= |c1| && |pre| <= |c2| && c1[..|pre|] == pre && c2[..|pre|] == pre
    ensures DigitRun(c1, |pre|, |d1|) && DigitRun(c2, |pre|, |d2|)
    ensures forall i :: 0 <= i < |d1| ==> c1[|pre| + i] == d1[i]
    ensures forall i :: 0 <= i < |d2| ==> c2[|pre| + i] == d2[i]
  {
    DigitsAt(c1, pre, d1, t1);
    DigitsAt(c2, pre, d2, t2);
  }

  /** `FirstDifferingDigitDecides` on the whole strings, once their parts are laid out. */
  lemma {:induction false} FirstDiffAfterPrefix(c1: string, c2: string, n: nat, d1: string, d2: string, k: nat)
    requires n <= |c1| && n <= |c2| && c1[..n] == c2[..n] && EndsPass(c1[..n])
    requires |d1| == |d2| && DigitRun(c1, n, |d1|) && DigitRun(c2, n, |d2|)
    requires forall i :: 0 <= i < |d1| ==> c1[n + i] == d1[i]
    requires forall i :: 0 <= i < |d2| ==> c2[n + i] == d2[i]
    requires k < |d1| && d1[..k] == d2[..k] && d1[k] != d2[k]
    requires d1[0] != '0' && d2[0] != '0'
    ensures CompareStrings(Some(c1), Some(c2)) == d1[k] as int - d2[k] as int
  {
    assert c1[n + 0] == d1[0] && c2[n + 0] == d2[0];
    if n > 0 {
      assert c1[n - 1] == c1[..n][n - 1];
    }
    CommonPrefixSkipped(c1, c2, n, 0);
    forall i | 0 <= i < k
      ensures Agree(c1, c2, n, n, i)
    {
      assert d1[i] == d1[..k][i] == d2[..k][i] == d2[i];
    }
    assert c1[n + k] == d1[k] && c2[n + k] == d2[k];
    FirstDiffDecides(c1, c2, n, n, |d1|, k);
  }

  /** The two examples of the rules above. */
  lemma DigitRunExamples()
    ensures CompareStrings(Some("1.10"), Some("1.9")) == 1
    ensures CompareStrings(Some("1.02"), Some("1.2")) == 0
  {
    assert "1." + "10" + [] == "1.10" && "1." + "9" + [] == "1.9";
    LongerDigitRunWins("1.", "10", [], "9", []);
    assert "1." + "0" + "2" == "1.02" && "1." + "2" == "1.2";
    LeadingZerosIgnored("1.", "0", "2");
  }

  /** A version that starts with `~` sorts before the empty (or null) version. */
  lemma TildeBeforeEnd(t: string)
    ensures CompareStrings(Some("~" + t), None) == -1
  {
    assert Pass("~" + t, [], 0, 0) == Decided(-1);
    PassUnfold("~" + t, [], 0, 0);
  }

  // ---------------------------------------------------------------------------
  // The package comparison.

  /** What `compare` can throw: a null basename or architecture of `p1` is
      dereferenced; a different basename or architecture is an IllegalStateException. */
  datatype CompareError = NullField | BasenamesDiffer | ArchitecturesDiffer

  /** `compare(p1, p2)`: the family check, then the version, then the revision. */
  function Compare(p1: GenericRepoPackage, p2: GenericRepoPackage): (r: Result<int, CompareError>)
    ensures r == Err(NullField) <==> p1.basename.None? || (p1.basename == p2.basename && p1.arch.None?)
    ensures r == Err(BasenamesDiffer) <==> p1.basename.Some? && p1.basename != p2.basename
    ensures r == Err(ArchitecturesDiffer) <==>
              p1.basename.Some? && p1.basename == p2.basename && p1.arch.Some? && p1.arch != p2.arch
    ensures r.Ok? ==> p1.basename == p2.basename && p1.arch == p2.arch
    ensures r.Ok? && CompareStrings(p1.version, p2.version) != 0 ==> r.value == CompareStrings(p1.version, p2.version)
    ensures r.Ok? && CompareStrings(p1.version, p2.version) == 0 ==> r.value == CompareStrings(p1.revision, p2.revision)
  {
    if p1.basename.None? then Err(NullField)
    else if p2.basename != p1.basename then Err(BasenamesDiffer)
    else if p1.arch.None? then Err(NullField)
    else if p2.arch != p1.arch then Err(ArchitecturesDiffer)
    else
      var ret := CompareStrings(p1.version, p2.version);
      Ok(if ret != 0 then ret else CompareStrings(p1.revision, p2.revision))
  }

  /** Swapping two packages of one family negates the comparison. */
  lemma CompareAntisymmetric(p1: GenericRepoPackage, p2: GenericRepoPackage)
    requires Compare(p1, p2).Ok?
    ensures Compare(p2, p1) == Ok(-Compare(p1, p2).value)
  {
    StrCompareAntisymmetric(p1.version, p2.version);
    StrCompareAntisymmetric(p1.revision, p2.revision);
  }

  /** A package of a well-formed family compares equal to itself. */
  lemma CompareReflexive(p: GenericRepoPackage)
    requires p.basename.Some? && p.arch.Some?
    ensures Compare(p, p) == Ok(0)
  {
    StrCompareReflexive(p.version);
    StrCompareReflexive(p.revision);
  }
}
