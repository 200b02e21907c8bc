/** How many elements of a list have a property. */
module Counting {

  function Count<T>(xs: seq<T>, p: T -> bool): (n: nat) {
    if xs == [] then 0 else (if p(xs[0]) then 1 else 0) + Count(xs[1..], p)
  }

  /** The places of these elements. */
  ghost function Places<T>(xs: seq<T>, p: T -> bool): (r: set<int>) { set i | 0 <= i < |xs| && p(xs[i]) }

  lemma {:induction false} CountAppend<T>(xs: seq<T>, x: T, p: T -> bool)
    ensures Count(xs + [x], p) == Count(xs, p) + if p(x) then 1 else 0
  {
    if xs == [] {
      assert ([] + [x])[1..] == [];
    } else {
      assert (xs + [x])[1..] == xs[1..] + [x];
      CountAppend(xs[1..], x, p);
    }
  }

  lemma {:induction false} CountUpdate<T>(xs: seq<T>, i: nat, x: T, p: T -> bool)
    requires i < |xs| && p(x) == p(xs[i])
    ensures Count(xs[i := x], p) == Count(xs, p)
  {
    if i == 0 {
      assert xs[0 := x][1..] == xs[1..];
    } else {
      assert xs[i := x][1..] == xs[1..][i - 1 := x];
      CountUpdate(xs[1..], i - 1, x, p);
    }
  }

  /** The count is the number of places. */
  lemma {:induction false} CountIs<T>(xs: seq<T>, p: T -> bool)
    ensures Count(xs, p) == |Places(xs, p)|
  {
    if xs == [] {
      assert Places(xs, p) == {};
    } else {
      var n := |xs| - 1;
      CountIs(xs[..n], p);
      CountAppend(xs[..n], xs[n], p);
      assert xs == xs[..n] + [xs[n]];
      assert Places(xs, p) == Places(xs[..n], p) + if p(xs[n]) then {n} else {};
    }
  }
}
