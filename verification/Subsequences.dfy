/** `a` can be had from `b` by leaving elements out. */
module Subsequences {
  predicate Sub<T(==)>(a: seq<T>, b: seq<T>)
    decreases |b|
  {
    a == [] || (b != [] && ((a[0] == b[0] && Sub(a[1..], b[1..])) || Sub(a, b[1..])))
  }

  lemma {:induction false} Reflexive<T>(a: seq<T>)
    ensures Sub(a, a)
    decreases |a|
  {
    if a != [] {
      Reflexive(a[1..]);
    }
  }

  lemma {:induction false} Transitive<T>(a: seq<T>, b: seq<T>, c: seq<T>)
    requires Sub(a, b) && Sub(b, c)
    ensures Sub(a, c)
    decreases |c|
  {
    if a != [] {
      if Sub(b, c[1..]) {
        Transitive(a, b, c[1..]);
      } else if Sub(a, b[1..]) {
        Transitive(a, b[1..], c[1..]);
      } else {
        Transitive(a[1..], b[1..], c[1..]);
      }
    }
  }

  lemma {:induction false} Joined<T>(a: seq<T>, b: seq<T>, c: seq<T>, d: seq<T>)
    requires Sub(a, b) && Sub(c, d)
    ensures Sub(a + c, b + d)
    decreases |b|
  {
    if b == [] {
      assert a + c == c && b + d == d;
    } else {
      assert (b + d)[1..] == b[1..] + d;
      if a == [] || Sub(a, b[1..]) {
        Joined(a, b[1..], c, d);
      } else {
        assert (a + c)[1..] == a[1..] + c;
        Joined(a[1..], b[1..], c, d);
      }
    }
  }

  lemma {:induction false} Elements<T>(a: seq<T>, b: seq<T>, x: T)
    requires Sub(a, b) && x in a
    ensures x in b
    decreases |b|
  {
    if Sub(a, b[1..]) {
      Elements(a, b[1..], x);
    } else if x != a[0] {
      Elements(a[1..], b[1..], x);
    }
  }

  /** Leaving out a middle part. */
  lemma WithoutMiddle<T>(a: seq<T>, middle: seq<T>, b: seq<T>)
    ensures Sub(a + b, a + middle + b)
  {
    Reflexive(a);
    Reflexive(b);
    Joined(a, a, [], middle);
    assert a + [] == a;
    Joined(a, a + middle, b, b);
  }
}
