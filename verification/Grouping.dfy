/** `groups.setdefault(key, []).append(item)` in a loop: items gathered by key, in order of arrival. */
module Grouping {
  import opened Prelude
  import opened KeyedSeq

  datatype Group<+K, +V> = Group(key: K, members: seq<V>)

  function GroupKey<K, V>(g: Group<K, V>): (k: K) { g.key }

  function MembersOf<K(==), V>(xs: seq<V>, keyOf: V -> K, k: K): (r: seq<V>) {
    if xs == [] then []
    else if keyOf(xs[0]) == k then [xs[0]] + MembersOf(xs[1..], keyOf, k) else MembersOf(xs[1..], keyOf, k)
  }

  function Gathered<K, V>(g: Option<Group<K, V>>): (r: seq<V>) { if g.Some? then g.value.members else [] }

  function AddTo<K(==), V>(groups: seq<Group<K, V>>, keyOf: V -> K, x: V): (r: seq<Group<K, V>>) {
    Put(groups, GroupKey, Group(keyOf(x), Gathered(Lookup(groups, GroupKey, keyOf(x))) + [x]))
  }

  function GroupAll<K(==), V>(groups: seq<Group<K, V>>, keyOf: V -> K, xs: seq<V>): (r: seq<Group<K, V>>)
    decreases |xs|
  {
    if xs == [] then groups else GroupAll(AddTo(groups, keyOf, xs[0]), keyOf, xs[1..])
  }

  lemma {:induction false} MembersSpec<K, V(!new)>(xs: seq<V>, keyOf: V -> K, k: K)
    ensures forall x :: x in MembersOf(xs, keyOf, k) <==> x in xs && keyOf(x) == k
  {
    if xs != [] { MembersSpec(xs[1..], keyOf, k); }
  }

  lemma {:induction false} MembersDistinct<K, V(!new), I>(xs: seq<V>, keyOf: V -> K, k: K, id: V -> I)
    requires Distinct(xs, id)
    ensures Distinct(MembersOf(xs, keyOf, k), id)
  {
    if xs == [] {
    } else {
      MembersDistinct(xs[1..], keyOf, k, id);
      MembersSpec(xs[1..], keyOf, k);
      var rest := MembersOf(xs[1..], keyOf, k);
      assert forall j :: 0 <= j < |rest| ==> rest[j] in xs[1..];
    }
  }

  lemma AddToSpec<K, V>(groups: seq<Group<K, V>>, keyOf: V -> K, x: V, k: K)
    requires Distinct(groups, GroupKey)
    ensures Distinct(AddTo(groups, keyOf, x), GroupKey)
    ensures Gathered(Lookup(AddTo(groups, keyOf, x), GroupKey, k)) ==
            if keyOf(x) == k then Gathered(Lookup(groups, GroupKey, k)) + [x] else Gathered(Lookup(groups, GroupKey, k))
    ensures Lookup(AddTo(groups, keyOf, x), GroupKey, k).Some? <==> Lookup(groups, GroupKey, k).Some? || keyOf(x) == k
  {
    PutSpec(groups, GroupKey, Group(keyOf(x), Gathered(Lookup(groups, GroupKey, keyOf(x))) + [x]), k);
  }

  lemma {:induction false} GroupAllDistinct<K, V>(groups: seq<Group<K, V>>, keyOf: V -> K, xs: seq<V>)
    requires Distinct(groups, GroupKey)
    ensures Distinct(GroupAll(groups, keyOf, xs), GroupKey)
    decreases |xs|
  {
    if xs != [] {
      AddToSpec(groups, keyOf, xs[0], keyOf(xs[0]));
      GroupAllDistinct(AddTo(groups, keyOf, xs[0]), keyOf, xs[1..]);
    }
  }

  /** What the dict holds under a key. */
  function Held<K(==), V>(groups: seq<Group<K, V>>, k: K): (r: seq<V>) { Gathered(Lookup(groups, GroupKey, k)) }

  lemma AddToHeld<K, V>(groups: seq<Group<K, V>>, keyOf: V -> K, x: V, k: K)
    requires Distinct(groups, GroupKey)
    ensures Distinct(AddTo(groups, keyOf, x), GroupKey)
    ensures Held(AddTo(groups, keyOf, x), k) == Held(groups, k) + (if keyOf(x) == k then [x] else [])
  {
    AddToSpec(groups, keyOf, x, k);
    assert Held(groups, k) + [] == Held(groups, k);
  }

  lemma MembersCons<K, V>(xs: seq<V>, keyOf: V -> K, k: K)
    requires xs != []
    ensures MembersOf(xs, keyOf, k) == (if keyOf(xs[0]) == k then [xs[0]] else []) + MembersOf(xs[1..], keyOf, k)
  {
  }

  lemma Reassociate<V>(a: seq<V>, b: seq<V>, c: seq<V>)
    ensures (a + b) + c == a + (b + c)
  {
  }

  lemma {:induction false} GroupAllGathers<K, V>(groups: seq<Group<K, V>>, keyOf: V -> K, xs: seq<V>, k: K)
    requires Distinct(groups, GroupKey)
    ensures Held(GroupAll(groups, keyOf, xs), k) == Held(groups, k) + MembersOf(xs, keyOf, k)
    decreases |xs|
  {
    if xs != [] {
      var next, rest := AddTo(groups, keyOf, xs[0]), MembersOf(xs[1..], keyOf, k);
      var one := if keyOf(xs[0]) == k then [xs[0]] else [];
      AddToHeld(groups, keyOf, xs[0], k);
      GroupAllGathers(next, keyOf, xs[1..], k);
      MembersCons(xs, keyOf, k);
      Reassociate(Held(groups, k), one, rest);
    }
  }

  lemma {:induction false} GroupAllPresent<K, V>(groups: seq<Group<K, V>>, keyOf: V -> K, xs: seq<V>, k: K)
    requires Distinct(groups, GroupKey)
    ensures Lookup(GroupAll(groups, keyOf, xs), GroupKey, k).Some? <==>
            Lookup(groups, GroupKey, k).Some? || MembersOf(xs, keyOf, k) != []
    decreases |xs|
  {
    if xs != [] {
      AddToSpec(groups, keyOf, xs[0], k);
      GroupAllPresent(AddTo(groups, keyOf, xs[0]), keyOf, xs[1..], k);
    }
  }

  lemma GroupAllSpec<K, V>(groups: seq<Group<K, V>>, keyOf: V -> K, xs: seq<V>, k: K)
    requires Distinct(groups, GroupKey)
    ensures Distinct(GroupAll(groups, keyOf, xs), GroupKey)
    ensures Gathered(Lookup(GroupAll(groups, keyOf, xs), GroupKey, k)) ==
            Gathered(Lookup(groups, GroupKey, k)) + MembersOf(xs, keyOf, k)
    ensures Lookup(GroupAll(groups, keyOf, xs), GroupKey, k).Some? <==>
            Lookup(groups, GroupKey, k).Some? || MembersOf(xs, keyOf, k) != []
  {
    GroupAllDistinct(groups, keyOf, xs);
    GroupAllGathers(groups, keyOf, xs, k);
    GroupAllPresent(groups, keyOf, xs, k);
  }

  /** A group of the finished dict: exactly the items with its key, in order, and at least one. */
  lemma GroupContents<K, V(!new)>(xs: seq<V>, keyOf: V -> K, g: Group<K, V>)
    requires g in GroupAll([], keyOf, xs)
    ensures g.members == MembersOf(xs, keyOf, g.key) && g.members != []
  {
    var dict := GroupAll([], keyOf, xs);
    GroupAllSpec([], keyOf, xs, g.key);
    var i :| 0 <= i < |dict| && dict[i] == g;
    LookupOfDistinct(dict, GroupKey, i);
  }

  /** Every item's key has a group. */
  lemma GroupExists<K, V(!new)>(xs: seq<V>, keyOf: V -> K, x: V) returns (g: Group<K, V>)
    requires x in xs
    ensures g in GroupAll([], keyOf, xs) && g.key == keyOf(x)
  {
    GroupAllSpec([], keyOf, xs, keyOf(x));
    MembersSpec(xs, keyOf, keyOf(x));
    g := Lookup(GroupAll([], keyOf, xs), GroupKey, keyOf(x)).value;
  }
}
