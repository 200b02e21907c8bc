/** Insertion-ordered, keyed collections: a Python dict whose values carry their key, or a list
    searched by id. `Put` overwrites in place or appends. */
module KeyedSeq {

  import opened Prelude
  import opened Ordering

  ghost predicate Distinct<K, V>(xs: seq<V>, key: V -> K) {
    forall i, j :: 0 <= i < j < |xs| ==> key(xs[i]) != key(xs[j])
  }

  /** Position of the first element with key `k`, or `|xs|`. */
  function Find<K(==), V>(xs: seq<V>, key: V -> K, k: K): (i: nat)
    ensures i <= |xs|
    ensures i < |xs| ==> key(xs[i]) == k
    ensures forall j :: 0 <= j < i ==> key(xs[j]) != k
  {
    if xs == [] then 0
    else if key(xs[0]) == k then 0
    else 1 + Find(xs[1..], key, k)
  }

  function Lookup<K(==), V>(xs: seq<V>, key: V -> K, k: K): (r: Option<V>)
    ensures r.Some? ==> r.value in xs && key(r.value) == k
    ensures r.None? <==> forall x :: x in xs ==> key(x) != k
  {
    var i := Find(xs, key, k);
    if i < |xs| then Some(xs[i]) else None
  }

  function Put<K(==), V>(xs: seq<V>, key: V -> K, x: V): (r: seq<V>) {
    var i := Find(xs, key, key(x));
    if i < |xs| then xs[i := x] else xs + [x]
  }

  function PutAll<K(==), V>(xs: seq<V>, key: V -> K, ys: seq<V>): (r: seq<V>)
    decreases |ys|
  {
    if ys == [] then xs else PutAll(Put(xs, key, ys[0]), key, ys[1..])
  }

  function Keys<K, V>(xs: seq<V>, key: V -> K): (r: seq<K>)
    ensures |r| == |xs|
    ensures forall i :: 0 <= i < |xs| ==> r[i] == key(xs[i])
  {
    seq(|xs|, i requires 0 <= i < |xs| => key(xs[i]))
  }

  /** Drops every element with key `k`. */
  function Remove<K(==), V(!new)>(xs: seq<V>, key: V -> K, k: K): (r: seq<V>)
    ensures forall x :: x in r <==> x in xs && key(x) != k
  {
    if xs == [] then []
    else if key(xs[0]) == k then Remove(xs[1..], key, k)
    else [xs[0]] + Remove(xs[1..], key, k)
  }

  /** The last element of `ys` with key `k`: the one a Python dict keeps. */
  function Last<K(==), V>(ys: seq<V>, key: V -> K, k: K): (r: Option<V>)
    ensures r.Some? ==> r.value in ys && key(r.value) == k
    ensures r.None? <==> forall y :: y in ys ==> key(y) != k
  {
    if ys == [] then None
    else
      var rest := Last(ys[1..], key, k);
      if rest.Some? then rest else if key(ys[0]) == k then Some(ys[0]) else None
  }

  lemma LookupOfDistinct<K, V>(xs: seq<V>, key: V -> K, i: nat)
    requires Distinct(xs, key) && i < |xs|
    ensures Lookup(xs, key, key(xs[i])) == Some(xs[i])
  {
    var j := Find(xs, key, key(xs[i]));
    assert j == i;
  }

  lemma PutSpec<K, V>(xs: seq<V>, key: V -> K, x: V, k: K)
    ensures Lookup(Put(xs, key, x), key, k) == (if key(x) == k then Some(x) else Lookup(xs, key, k))
    ensures Distinct(xs, key) ==> Distinct(Put(xs, key, x), key)
    ensures Keys(Put(xs, key, x), key) ==
            if key(x) in Keys(xs, key) then Keys(xs, key) else Keys(xs, key) + [key(x)]
  {
    var i := Find(xs, key, key(x));
    var r := Put(xs, key, x);
    if i < |xs| {
      assert Keys(xs, key)[i] == key(x);
      assert Keys(r, key) == Keys(xs, key);
    } else {
      assert Keys(r, key) == Keys(xs, key) + [key(x)];
    }
    var a, b := Find(xs, key, k), Find(r, key, k);
    if key(x) == k {
      assert r[i] == x && forall j :: 0 <= j < i ==> r[j] == xs[j];
      assert b == i;
    } else if a < |xs| {
      assert r[a] == xs[a];
      assert b == a;
    } else {
      assert b == |r|;
    }
  }

  /** A dict filled in a loop: distinct keys, and the last write to each key wins. */
  lemma {:induction false} PutAllSpec<K, V>(xs: seq<V>, key: V -> K, ys: seq<V>, k: K)
    ensures Lookup(PutAll(xs, key, ys), key, k) ==
            if Last(ys, key, k).Some? then Last(ys, key, k) else Lookup(xs, key, k)
    ensures Distinct(xs, key) ==> Distinct(PutAll(xs, key, ys), key)
    decreases |ys|
  {
    if ys == [] {
    } else {
      PutSpec(xs, key, ys[0], k);
      PutAllSpec(Put(xs, key, ys[0]), key, ys[1..], k);
    }
  }

  lemma {:induction false} PutAllMembers<K, V>(xs: seq<V>, key: V -> K, ys: seq<V>, x: V)
    requires x in PutAll(xs, key, ys)
    ensures x in xs || x in ys
    decreases |ys|
  {
    if ys != [] { PutAllMembers(Put(xs, key, ys[0]), key, ys[1..], x); }
  }

  lemma {:induction false} PutAllHasKey<K, V>(xs: seq<V>, key: V -> K, ys: seq<V>, k: K)
    requires k in Keys(xs, key) || k in Keys(ys, key)
    ensures k in Keys(PutAll(xs, key, ys), key)
    decreases |ys|
  {
    if ys == [] {
      assert Keys(ys, key) == [];
    } else {
      PutSpec(xs, key, ys[0], k);
      assert Keys(ys, key) == [key(ys[0])] + Keys(ys[1..], key);
      PutAllHasKey(Put(xs, key, ys[0]), key, ys[1..], k);
    }
  }

  lemma {:induction false} PutAllKeys<K, V>(xs: seq<V>, key: V -> K, ys: seq<V>)
    requires forall i :: 0 <= i < |ys| ==> key(ys[i]) in Keys(xs, key)
    ensures Keys(PutAll(xs, key, ys), key) == Keys(xs, key)
    decreases |ys|
  {
    if ys != [] {
      PutSpec(xs, key, ys[0], key(ys[0]));
      PutAllKeys(Put(xs, key, ys[0]), key, ys[1..]);
    }
  }

  lemma {:induction false} PutAllConcat<K, V>(xs: seq<V>, key: V -> K, ys: seq<V>, zs: seq<V>)
    ensures PutAll(xs, key, ys + zs) == PutAll(PutAll(xs, key, ys), key, zs)
    decreases |ys|
  {
    if ys == [] {
      assert ys + zs == zs;
    } else {
      assert (ys + zs)[1..] == ys[1..] + zs;
      PutAllConcat(Put(xs, key, ys[0]), key, ys[1..], zs);
    }
  }

  lemma DistinctCons<K, V>(x: V, xs: seq<V>, key: V -> K)
    requires Distinct(xs, key) && forall y :: y in xs ==> key(y) != key(x)
    ensures Distinct([x] + xs, key)
  {
  }

  lemma {:induction false} FilterDistinct<K, V(!new)>(xs: seq<V>, p: V -> bool, key: V -> K)
    requires Distinct(xs, key)
    ensures Distinct(Filter(xs, p), key)
  {
    if xs != [] {
      FilterDistinct(xs[1..], p, key);
      if p(xs[0]) { DistinctCons(xs[0], Filter(xs[1..], p), key); }
    }
  }

  /** Only the first element of a key is ever overwritten. */
  lemma {:induction false} PutAllShadowed<K, V>(xs: seq<V>, key: V -> K, ys: seq<V>, i: nat)
    requires i < |xs| && Find(xs, key, key(xs[i])) < i
    ensures i < |PutAll(xs, key, ys)| && PutAll(xs, key, ys)[i] == xs[i]
    decreases |ys|
  {
    if ys != [] {
      var next := Put(xs, key, ys[0]);
      assert |next| >= |xs| && forall j :: 0 <= j < |xs| ==> key(next[j]) == key(xs[j]);
      assert next[i] == xs[i];
      PutAllShadowed(next, key, ys[1..], i);
    }
  }

  lemma SameAtFirst<K, V>(a: seq<V>, b: seq<V>, key: V -> K, i: nat)
    requires Keys(a, key) == Keys(b, key) && i < |a| && Find(a, key, key(a[i])) == i
    requires Lookup(a, key, key(a[i])) == Lookup(b, key, key(a[i]))
    ensures i < |b| && a[i] == b[i]
  {
    assert |a| == |Keys(a, key)| == |b|;
    assert forall j :: 0 <= j < |a| ==> Keys(a, key)[j] == key(a[j]) && Keys(b, key)[j] == key(b[j]);
    assert Find(b, key, key(a[i])) == i;
  }

  lemma {:induction false} TwiceKeys<K, V>(xs: seq<V>, key: V -> K, ys: seq<V>)
    ensures Keys(PutAll(PutAll(xs, key, ys), key, ys), key) == Keys(PutAll(xs, key, ys), key)
  {
    var once := PutAll(xs, key, ys);
    forall i | 0 <= i < |ys| ensures key(ys[i]) in Keys(once, key) {
      assert Keys(ys, key)[i] == key(ys[i]);
      PutAllHasKey(xs, key, ys, key(ys[i]));
    }
    PutAllKeys(once, key, ys);
  }

  lemma {:induction false} TwiceLookup<K, V>(xs: seq<V>, key: V -> K, ys: seq<V>, k: K)
    ensures Lookup(PutAll(PutAll(xs, key, ys), key, ys), key, k) == Lookup(PutAll(xs, key, ys), key, k)
  {
    PutAllSpec(xs, key, ys, k);
    PutAllSpec(PutAll(xs, key, ys), key, ys, k);
  }

  /** Writing the same batch twice is writing it once, even when keys collide inside the batch or in the list. */
  lemma {:induction false} PutAllIdempotent<K, V>(xs: seq<V>, key: V -> K, ys: seq<V>)
    ensures PutAll(PutAll(xs, key, ys), key, ys) == PutAll(xs, key, ys)
  {
    var once := PutAll(xs, key, ys);
    var twice := PutAll(once, key, ys);
    TwiceKeys(xs, key, ys);
    assert |once| == |Keys(once, key)| == |Keys(twice, key)| == |twice|;
    forall i | 0 <= i < |once| ensures twice[i] == once[i] {
      if Find(once, key, key(once[i])) < i {
        PutAllShadowed(once, key, ys, i);
      } else {
        TwiceLookup(xs, key, ys, key(once[i]));
        SameAtFirst(once, twice, key, i);
      }
    }
  }

  lemma {:induction false} RemoveSpec<K, V(!new)>(xs: seq<V>, key: V -> K, k: K)
    requires Distinct(xs, key)
    ensures Distinct(Remove(xs, key, k), key)
  {
    if xs == [] {
    } else {
      RemoveSpec(xs[1..], key, k);
      var rest := Remove(xs[1..], key, k);
      assert forall x :: x in rest ==> x in xs[1..];
      assert forall j :: 0 <= j < |rest| ==> rest[j] in rest;
    }
  }

  /** The finite map a keyed sequence stands for. */
  ghost function View<K, V>(xs: seq<V>, key: V -> K): (m: map<K, V>) {
    if xs == [] then map[] else View(xs[1..], key)[key(xs[0]) := xs[0]]
  }

  lemma {:induction false} ViewLookup<K, V>(xs: seq<V>, key: V -> K, k: K)
    ensures Lookup(xs, key, k) == if k in View(xs, key) then Some(View(xs, key)[k]) else None
  {
    if xs == [] {
    } else {
      ViewLookup(xs[1..], key, k);
    }
  }

  lemma ViewPut<K(!new), V>(xs: seq<V>, key: V -> K, x: V)
    requires Distinct(xs, key)
    ensures View(Put(xs, key, x), key) == View(xs, key)[key(x) := x]
    ensures Distinct(Put(xs, key, x), key)
  {
    PutSpec(xs, key, x, key(x));
    var m, m' := View(xs, key), View(Put(xs, key, x), key);
    forall k ensures k in m' <==> k in m || k == key(x)
             ensures k in m' ==> m'[k] == if k == key(x) then x else m[k] {
      PutSpec(xs, key, x, k);
      ViewLookup(xs, key, k);
      ViewLookup(Put(xs, key, x), key, k);
    }
  }

  lemma ViewRemove<K(!new), V(!new)>(xs: seq<V>, key: V -> K, k: K)
    requires Distinct(xs, key)
    ensures View(Remove(xs, key, k), key) == View(xs, key) - {k}
  {
    var r := Remove(xs, key, k);
    RemoveSpec(xs, key, k);
    forall j ensures j in View(r, key) <==> j in View(xs, key) && j != k
             ensures j in View(r, key) && j in View(xs, key) ==> View(r, key)[j] == View(xs, key)[j] {
      ViewLookup(xs, key, j);
      ViewLookup(r, key, j);
      if j in View(xs, key) && j != k {
        var x := View(xs, key)[j];
        assert x in r;
        ViewElements(r, key, x);
      }
    }
  }

  lemma {:induction false} InsertByDistinct<K, V(!new)>(x: V, xs: seq<V>, leq: (V, V) -> bool, key: V -> K)
    requires Distinct(xs, key) && forall y :: y in xs ==> key(y) != key(x)
    ensures Distinct(InsertBy(x, xs, leq), key)
  {
    if xs == [] || leq(x, xs[0]) {
    } else {
      InsertByDistinct(x, xs[1..], leq, key);
      InsertByPermutes(x, xs[1..], leq);
      var rest := InsertBy(x, xs[1..], leq);
      forall y | y in rest ensures key(y) != key(xs[0]) {
        assert y in multiset(rest);
        assert y == x || y in xs[1..];
      }
    }
  }

  lemma {:induction false} SortByDistinct<K, V(!new)>(xs: seq<V>, leq: (V, V) -> bool, key: V -> K)
    requires Distinct(xs, key)
    ensures Distinct(SortBy(xs, leq), key)
  {
    if xs == [] {
    } else {
      SortByDistinct(xs[1..], leq, key);
      forall y | y in SortBy(xs[1..], leq) ensures key(y) != key(xs[0]) {
        SortByElements(xs[1..], leq, y);
      }
      InsertByDistinct(xs[0], SortBy(xs[1..], leq), leq, key);
    }
  }

  lemma ViewElements<K, V>(xs: seq<V>, key: V -> K, x: V)
    requires Distinct(xs, key)
    ensures x in xs <==> key(x) in View(xs, key) && View(xs, key)[key(x)] == x
  {
    ViewLookup(xs, key, key(x));
    if x in xs {
      var i :| 0 <= i < |xs| && xs[i] == x;
      LookupOfDistinct(xs, key, i);
    }
  }

  lemma {:induction false} DistinctOnce<K, V>(xs: seq<V>, key: V -> K, x: V)
    requires Distinct(xs, key)
    ensures multiset(xs)[x] == if x in xs then 1 else 0
  {
    if xs == [] {
    } else {
      assert xs == [xs[0]] + xs[1..];
      DistinctOnce(xs[1..], key, x);
      forall j | 1 <= j < |xs| ensures xs[j] != xs[0] { assert key(xs[0]) != key(xs[j]); }
    }
  }

  /** Keyed sequences with the same elements sort to the same sequence when ties imply equal keys. */
  lemma SortedEqual<K, V(!new)>(a: seq<V>, b: seq<V>, key: V -> K, leq: (V, V) -> bool)
    requires Distinct(a, key) && Distinct(b, key) && TotalPreorder(leq)
    requires forall x :: x in a <==> x in b
    requires forall x, y :: leq(x, y) && leq(y, x) ==> key(x) == key(y)
    ensures SortBy(a, leq) == SortBy(b, leq)
  {
    forall x ensures multiset(a)[x] == multiset(b)[x] {
      DistinctOnce(a, key, x);
      DistinctOnce(b, key, x);
    }
    assert multiset(a) == multiset(b);
    SortByPermutes(a, leq);
    SortByPermutes(b, leq);
    SortBySorted(a, leq);
    SortBySorted(b, leq);
    var s := SortBy(a, leq);
    SortByDistinct(a, leq, key);
    forall x, y | x in s && y in s && leq(x, y) && leq(y, x) ensures x == y {
      var i :| 0 <= i < |s| && s[i] == x;
      var j :| 0 <= j < |s| && s[j] == y;
    }
    SortedUnique(s, SortBy(b, leq), leq);
  }
}
