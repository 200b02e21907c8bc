/** A dict keyed by id, filled from the kept items of a list and read out in sorted order. */
module Dedupe {
  import opened Prelude
  import opened Ordering
  import opened KeyedSeq

  function Deduped<K(==), V(!new)>(xs: seq<V>, keep: V -> bool, key: V -> K, leq: (V, V) -> bool): (r: seq<V>) {
    SortBy(PutAll([], key, Filter(xs, keep)), leq)
  }

  /** Equal ids carry equal content. */
  ghost predicate Functional<K, V(!new)>(xs: seq<V>, key: V -> K) {
    forall a, b :: a in xs && b in xs && key(a) == key(b) ==> a == b
  }

  /** Ties of the sort order only occur between equal ids. */
  ghost predicate OrdersById<K, V(!new)>(leq: (V, V) -> bool, key: V -> K) {
    TotalPreorder(leq) && forall a, b :: leq(a, b) && leq(b, a) ==> key(a) == key(b)
  }

  /** What survives: distinct ids in order, and each id keeps its last kept item. */
  lemma DedupedSpec<K, V(!new)>(xs: seq<V>, keep: V -> bool, key: V -> K, leq: (V, V) -> bool)
    requires OrdersById(leq, key)
    ensures var u := Deduped(xs, keep, key, leq);
            && Distinct(u, key) && SortedBy(u, leq)
            && (forall x :: x in u <==> Last(Filter(xs, keep), key, key(x)) == Some(x))
  {
    var kept := Filter(xs, keep);
    var dict := PutAll([], key, kept);
    if kept != [] { PutAllSpec([], key, kept, key(kept[0])); }
    SortByDistinct(dict, leq, key);
    SortBySorted(dict, leq);
    forall x ensures x in Deduped(xs, keep, key, leq) <==> Last(kept, key, key(x)) == Some(x) {
      SortByElements(dict, leq, x);
      PutAllSpec([], key, kept, key(x));
      if x in dict {
        var i :| 0 <= i < |dict| && dict[i] == x;
        LookupOfDistinct(dict, key, i);
      }
    }
  }

  /** Under functional ids the survivors are exactly the kept items. */
  lemma DedupedMembers<K, V(!new)>(xs: seq<V>, keep: V -> bool, key: V -> K, leq: (V, V) -> bool)
    requires OrdersById(leq, key) && Functional(Filter(xs, keep), key)
    ensures forall x :: x in Deduped(xs, keep, key, leq) <==> x in xs && keep(x)
  {
    DedupedSpec(xs, keep, key, leq);
    forall x ensures x in Deduped(xs, keep, key, leq) <==> x in Filter(xs, keep) {
      var l := Last(Filter(xs, keep), key, key(x));
    }
  }

  lemma Inhabited<V>(xs: seq<V>)
    ensures xs != [] ==> exists x :: x in xs
  {
    if xs != [] { assert xs[0] in xs; }
  }

  /** Order and repetition of the input do not matter when equal ids carry equal content. */
  lemma DependsOnSet<K, V(!new)>(xs: seq<V>, ys: seq<V>, keep: V -> bool, key: V -> K, leq: (V, V) -> bool)
    requires forall x :: x in xs <==> x in ys
    requires OrdersById(leq, key) && Functional(Filter(xs, keep), key)
    ensures Deduped(xs, keep, key, leq) == Deduped(ys, keep, key, leq)
  {
    var a, b := PutAll([], key, Filter(xs, keep)), PutAll([], key, Filter(ys, keep));
    if Filter(xs, keep) == [] {
      Inhabited(Filter(ys, keep));
    } else {
      PutAllSpec([], key, Filter(xs, keep), key(Filter(xs, keep)[0]));
      PutAllSpec([], key, Filter(ys, keep), key(Filter(xs, keep)[0]));
      DedupedMembers(xs, keep, key, leq);
      DedupedMembers(ys, keep, key, leq);
      forall x ensures x in a <==> x in b {
        SortByElements(a, leq, x);
        SortByElements(b, leq, x);
      }
      SortedEqual(a, b, key, leq);
    }
  }

  function ToEnd<V>(xs: seq<V>, i: nat): (r: seq<V>)
    requires i < |xs|
    ensures multiset(r) == multiset(xs)
  {
    assert xs == xs[..i] + [xs[i]] + xs[i + 1..];
    xs[..i] + xs[i + 1..] + [xs[i]]
  }

  lemma {:induction false} LastAppended<K, V>(xs: seq<V>, key: V -> K, x: V)
    ensures Last(xs + [x], key, key(x)) == Some(x)
  {
    if xs == [] {
      assert [] + [x] == [x];
    } else {
      assert (xs + [x])[1..] == xs[1..] + [x];
      LastAppended(xs[1..], key, x);
    }
  }

  /** An item moved to the end is the one its id keeps. */
  lemma EndWins<K, V(!new)>(xs: seq<V>, i: nat, keep: V -> bool, key: V -> K, leq: (V, V) -> bool)
    requires i < |xs| && keep(xs[i]) && OrdersById(leq, key)
    ensures xs[i] in Deduped(ToEnd(xs, i), keep, key, leq)
  {
    var front := xs[..i] + xs[i + 1..];
    FilterConcat(front, [xs[i]], keep);
    assert Filter([xs[i]], keep) == [xs[i]];
    LastAppended(Filter(front, keep), key, xs[i]);
    DedupedSpec(ToEnd(xs, i), keep, key, leq);
  }

  /** Every rearrangement of the input gives the same result. */
  ghost predicate OrderIndependent<K, V(!new)>(xs: seq<V>, keep: V -> bool, key: V -> K, leq: (V, V) -> bool) {
    forall ys :: multiset(ys) == multiset(xs) ==> Deduped(ys, keep, key, leq) == Deduped(xs, keep, key, leq)
  }

  /** The result is independent of the input order exactly when equal kept ids carry equal content. */
  lemma OrderIndependentIff<K, V(!new)>(xs: seq<V>, keep: V -> bool, key: V -> K, leq: (V, V) -> bool)
    requires OrdersById(leq, key)
    ensures OrderIndependent(xs, keep, key, leq) <==> Functional(Filter(xs, keep), key)
  {
    if Functional(Filter(xs, keep), key) {
      forall ys | multiset(ys) == multiset(xs) ensures Deduped(ys, keep, key, leq) == Deduped(xs, keep, key, leq) {
        forall x ensures x in xs <==> x in ys {
          assert x in xs <==> x in multiset(xs);
          assert x in ys <==> x in multiset(ys);
        }
        DependsOnSet(xs, ys, keep, key, leq);
      }
    } else {
      var kept := Filter(xs, keep);
      var a, b :| a in kept && b in kept && key(a) == key(b) && a != b;
      var i :| 0 <= i < |xs| && xs[i] == a;
      var j :| 0 <= j < |xs| && xs[j] == b;
      EndWins(xs, i, keep, key, leq);
      EndWins(xs, j, keep, key, leq);
      DedupedSpec(xs, keep, key, leq);
      if Deduped(ToEnd(xs, i), keep, key, leq) == Deduped(xs, keep, key, leq) {
        assert b !in Deduped(xs, keep, key, leq);
        assert Deduped(ToEnd(xs, j), keep, key, leq) != Deduped(xs, keep, key, leq);
      }
    }
  }
}
