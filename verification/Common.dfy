/** Small shared vocabulary: optional values and Python's insertion-ordered dictionary. */
module Options {
  datatype Option<+T> = None | Some(value: T) {
    function GetOr(default: T): T {
      match this
      case Some(v) => v
      case None => default
    }
  }
}

/** An insertion-ordered dictionary as the list of its items, first inserted first. */
module OrderedDicts {
  import opened Options

  type ODict<K, V> = seq<(K, V)>

  function Get<K(==), V>(d: ODict<K, V>, k: K): Option<V> {
    if d == [] then None
    else if d[0].0 == k then Some(d[0].1)
    else Get(d[1..], k)
  }

  predicate Has<K(==), V>(d: ODict<K, V>, k: K) {
    Get(d, k).Some?
  }

  /** No key occurs twice. */
  ghost predicate Distinct<K, V>(d: ODict<K, V>) {
    d == [] || (Get(d[1..], d[0].0) == None && Distinct(d[1..]))
  }

  /** Assignment to a key: an existing key keeps its place, a new one goes last. */
  function Put<K(==), V>(d: ODict<K, V>, k: K, v: V): ODict<K, V> {
    if d == [] then [(k, v)]
    else if d[0].0 == k then [(k, v)] + d[1..]
    else [d[0]] + Put(d[1..], k, v)
  }

  /** Removal of a key, which need not be there. */
  function Remove<K(==), V>(d: ODict<K, V>, k: K): ODict<K, V> {
    if d == [] then []
    else if d[0].0 == k then d[1..]
    else [d[0]] + Remove(d[1..], k)
  }

  /** Assignment to a key that then moves to the end. */
  function PutLast<K(==), V>(d: ODict<K, V>, k: K, v: V): ODict<K, V> {
    Remove(d, k) + [(k, v)]
  }

  lemma {:induction false} GetAt<K, V>(d: ODict<K, V>, k: K)
    ensures Get(d, k).Some? <==> exists i :: 0 <= i < |d| && d[i].0 == k
    ensures Get(d, k).Some? ==> (k, Get(d, k).value) in d
  {
    if d != [] && d[0].0 != k {
      GetAt(d[1..], k);
      if i :| 0 <= i < |d| && d[i].0 == k {
        assert d[1..][i - 1].0 == k;
      }
    }
  }

  lemma {:induction false} GetOfItem<K, V>(d: ODict<K, V>, i: nat)
    requires Distinct(d) && i < |d|
    ensures Get(d, d[i].0) == Some(d[i].1)
  {
    if i > 0 {
      GetOfItem(d[1..], i - 1);
    }
  }

  lemma {:induction false} GetPut<K, V>(d: ODict<K, V>, k: K, v: V, x: K)
    ensures Get(Put(d, k, v), x) == if x == k then Some(v) else Get(d, x)
  {
    if d != [] && d[0].0 != k {
      GetPut(d[1..], k, v, x);
    }
  }

  lemma {:induction false} GetRemove<K, V>(d: ODict<K, V>, k: K, x: K)
    requires Distinct(d)
    ensures Get(Remove(d, k), x) == if x == k then None else Get(d, x)
  {
    if d != [] && d[0].0 != k {
      GetRemove(d[1..], k, x);
    }
  }

  lemma {:induction false} PutKeys<K, V>(d: ODict<K, V>, k: K, v: V)
    requires Distinct(d)
    ensures Distinct(Put(d, k, v))
    ensures |Put(d, k, v)| == if Get(d, k).Some? then |d| else |d| + 1
  {
    if d != [] && d[0].0 != k {
      PutKeys(d[1..], k, v);
      GetPut(d[1..], k, v, d[0].0);
    }
  }

  lemma {:induction false} RemoveKeys<K, V>(d: ODict<K, V>, k: K)
    requires Distinct(d)
    ensures Distinct(Remove(d, k))
    ensures |Remove(d, k)| == if Get(d, k).Some? then |d| - 1 else |d|
  {
    if d != [] && d[0].0 != k {
      RemoveKeys(d[1..], k);
      GetRemove(d[1..], k, d[0].0);
    }
  }

  lemma {:induction false} RemoveAbsent<K, V>(d: ODict<K, V>, k: K)
    requires Get(d, k) == None
    ensures Remove(d, k) == d
  {
    if d != [] {
      RemoveAbsent(d[1..], k);
    }
  }

  lemma PutFacts<K, V>(d: ODict<K, V>, k: K, v: V)
    requires Distinct(d)
    ensures Distinct(Put(d, k, v))
    ensures forall x :: Get(Put(d, k, v), x) == if x == k then Some(v) else Get(d, x)
  {
    PutKeys(d, k, v);
    forall x ensures Get(Put(d, k, v), x) == if x == k then Some(v) else Get(d, x) {
      GetPut(d, k, v, x);
    }
  }

  lemma {:induction false} GetAppend<K, V>(a: ODict<K, V>, b: ODict<K, V>, x: K)
    ensures Get(a + b, x) == if Get(a, x).Some? then Get(a, x) else Get(b, x)
  {
    if a == [] {
      assert a + b == b;
    } else {
      assert (a + b)[1..] == a[1..] + b;
      GetAppend(a[1..], b, x);
    }
  }

  lemma {:induction false} DistinctAppend<K, V>(a: ODict<K, V>, k: K, v: V)
    requires Distinct(a) && Get(a, k) == None
    ensures Distinct(a + [(k, v)])
  {
    if a != [] {
      assert (a + [(k, v)])[1..] == a[1..] + [(k, v)];
      DistinctAppend(a[1..], k, v);
      GetAppend(a[1..], [(k, v)], a[0].0);
    }
  }

  lemma PutLastFacts<K, V>(d: ODict<K, V>, k: K, v: V)
    requires Distinct(d)
    ensures Distinct(PutLast(d, k, v))
    ensures forall x :: Get(PutLast(d, k, v), x) == if x == k then Some(v) else Get(d, x)
    ensures |PutLast(d, k, v)| == if Get(d, k).Some? then |d| else |d| + 1
  {
    RemoveKeys(d, k);
    GetRemove(d, k, k);
    DistinctAppend(Remove(d, k), k, v);
    forall x ensures Get(PutLast(d, k, v), x) == if x == k then Some(v) else Get(d, x) {
      GetRemove(d, k, x);
      GetAppend(Remove(d, k), [(k, v)], x);
    }
  }

  ghost function KeySet<K, V>(d: ODict<K, V>): set<K> {
    set e | e in d :: e.0
  }

  lemma HasIsInKeySet<K, V>(d: ODict<K, V>, k: K)
    ensures Has(d, k) <==> k in KeySet(d)
  {
    GetAt(d, k);
    if i :| 0 <= i < |d| && d[i].0 == k {
      assert d[i] in d;
    }
  }

  lemma {:induction false} SizeIsKeyCount<K, V>(d: ODict<K, V>)
    requires Distinct(d)
    ensures |KeySet(d)| == |d|
  {
    if d != [] {
      SizeIsKeyCount(d[1..]);
      assert KeySet(d) == {d[0].0} + KeySet(d[1..]) by {
        assert d == [d[0]] + d[1..];
      }
      HasIsInKeySet(d[1..], d[0].0);
    }
  }

  lemma {:induction false} SubsetSize<K>(a: set<K>, b: set<K>)
    requires a <= b
    ensures |a| <= |b|
  {
    if a != {} {
      var x :| x in a;
      SubsetSize(a - {x}, b - {x});
    }
  }
}
