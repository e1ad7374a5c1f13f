/** How versions of any length compare, in terms of their first difference. */
module VersionOrder {
  import opened Options
  import opened VersionText
  import opened VersionComparator
  import opened SemverAgreement

  /** A number of a version; behind its end there are zeros. */
  function NumberAt(numbers: seq<nat>, i: nat): nat {
    if i < |numbers| then numbers[i] else 0
  }

  ghost predicate NumbersLessAt(a: seq<nat>, b: seq<nat>, i: nat) {
    NumberAt(a, i) < NumberAt(b, i) && forall j: nat :: j < i ==> NumberAt(a, j) == NumberAt(b, j)
  }

  lemma RestAt(a: seq<nat>, i: nat)
    ensures NumberAt(Rest(a), i) == NumberAt(a, i + 1) && Head(a) == NumberAt(a, 0)
  {
  }

  /** Numbers are less if and only if they are where they first differ, and equal if they never do. */
  lemma {:induction false} NumbersLessIff(a: seq<nat>, b: seq<nat>)
    ensures CompareNumbers(a, b) < 0 <==> exists i: nat :: NumbersLessAt(a, b, i)
    ensures CompareNumbers(a, b) == 0 <==> forall i: nat :: NumberAt(a, i) == NumberAt(b, i)
    decreases |a| + |b|
  {
    if a != [] || b != [] {
      NumbersLessIff(Rest(a), Rest(b));
      NumbersByHeads(a, b);
      forall i: nat ensures NumberAt(Rest(a), i) == NumberAt(a, i + 1) && NumberAt(Rest(b), i) == NumberAt(b, i + 1) {
        RestAt(a, i);
        RestAt(b, i);
      }
      RestAt(a, 0);
      RestAt(b, 0);
      hide CompareNumbers, Rest, Head, NumberAt;
      if NumberAt(a, 0) < NumberAt(b, 0) {
        assert NumbersLessAt(a, b, 0);
      } else if NumberAt(a, 0) == NumberAt(b, 0) {
        if i: nat :| NumbersLessAt(Rest(a), Rest(b), i) {
          forall j: nat | j < i + 1 ensures NumberAt(a, j) == NumberAt(b, j) {
            assert j > 0 ==> NumberAt(Rest(a), j - 1) == NumberAt(Rest(b), j - 1);
          }
          assert NumbersLessAt(a, b, i + 1);
        }
        if i: nat :| NumbersLessAt(a, b, i) {
          assert i > 0;
          forall j: nat | j < i - 1 ensures NumberAt(Rest(a), j) == NumberAt(Rest(b), j) {
            assert NumberAt(a, j + 1) == NumberAt(b, j + 1);
          }
          assert NumbersLessAt(Rest(a), Rest(b), i - 1);
        }
        if forall i: nat :: NumberAt(Rest(a), i) == NumberAt(Rest(b), i) {
          forall i: nat ensures NumberAt(a, i) == NumberAt(b, i) {
            assert i > 0 ==> NumberAt(Rest(a), i - 1) == NumberAt(Rest(b), i - 1);
          }
        }
      } else {
        assert NumberAt(a, 0) != NumberAt(b, 0);
        if i: nat :| NumbersLessAt(a, b, i) {
          assert false;
        }
      }
    }
  }

  /** One version is less than another if its numbers are, or if they are equal and its pre-release comes first; a
      pre-release comes before none. */
  ghost predicate VersionLess(a: Version, b: Version) {
    || (exists i: nat :: NumbersLessAt(a.numbers, b.numbers, i))
    || (&& (forall i: nat :: NumberAt(a.numbers, i) == NumberAt(b.numbers, i))
        && a.prerelease.Some?
        && (b.prerelease.None? || exists i: nat :: PrereleaseLessAt(a.prerelease.value, b.prerelease.value, i)))
  }

  /** On any two texts the comparison is negative if and only if the first is read as a lesser version, and zero if and
      only if they are read with the same numbers, trailing zeros aside, and the same pre-release. */
  lemma ComparesIff(a: string, b: string)
    ensures var (v, w) := (SplitVersion(Normalize(a)), SplitVersion(Normalize(b)));
            && (CompareVersion(a, b) < 0 <==> VersionLess(v, w))
            && (CompareVersion(a, b) == 0
                <==> (forall i: nat :: NumberAt(v.numbers, i) == NumberAt(w.numbers, i)) && v.prerelease == w.prerelease)
            && CompareVersion(a, b) in {-1, 0, 1}
  {
    hide SplitVersion, Normalize;
    var (v, w) := (SplitVersion(Normalize(a)), SplitVersion(Normalize(b)));
    NumbersLessIff(v.numbers, w.numbers);
    ParsedAntisymmetric(v, w);
    hide NumberAt;
    if v.prerelease.Some? && w.prerelease.Some? {
      PrereleaseLessIff(v.prerelease.value, w.prerelease.value);
      IdentsAntisymmetric(v.prerelease.value, w.prerelease.value);
    }
  }
}
