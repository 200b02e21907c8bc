/** Clamping and weighting of reals (iris/cognitive/affect/common.py). */
module Reals {

  function Abs(x: real): (r: real) { if x < 0.0 then -x else x }

  function Max(x: real, y: real): (r: real) { if x >= y then x else y }

  /** `max(lower, min(upper, x))` */
  function Clamp(x: real, lower: real, upper: real): (r: real) {
    var m := if x < upper then x else upper;
    if m > lower then m else lower
  }

  function Times(x: real, y: real): (r: real) { x * y }

  lemma Product(x: real, y: real)
    requires x >= 0.0 && y >= 0.0
    ensures x * y >= 0.0
  {
  }

  /** A weight shrinks a value towards zero and keeps its sign. */
  lemma Scaled(x: real, w: real)
    requires 0.0 <= w <= 1.0
    ensures x >= 0.0 ==> 0.0 <= Times(x, w) <= x
    ensures x <= 0.0 ==> x <= Times(x, w) <= 0.0
  {
    if x >= 0.0 {
      Product(x, w);
      Product(x, 1.0 - w);
      assert x * (1.0 - w) == x - x * w;
    } else {
      Product(-x, w);
      Product(-x, 1.0 - w);
      assert (-x) * w == -(x * w) && (-x) * (1.0 - w) == x * w - x;
    }
  }

  /** `max(f(x) for x in xs)` */
  function MaxOver<T>(xs: seq<T>, f: T -> real): (m: real)
    requires xs != []
  {
    if |xs| == 1 then f(xs[0]) else Max(f(xs[0]), MaxOver(xs[1..], f))
  }

  /** `min(f(x) for x in xs)` */
  function MinOver<T>(xs: seq<T>, f: T -> real): (m: real)
    requires xs != []
  {
    if |xs| == 1 then f(xs[0])
    else
      var m := MinOver(xs[1..], f);
      if f(xs[0]) <= m then f(xs[0]) else m
  }

  lemma {:induction false} MaxOverSpec<T>(xs: seq<T>, f: T -> real)
    requires xs != []
    ensures forall x :: x in xs ==> f(x) <= MaxOver(xs, f)
    ensures exists x :: x in xs && f(x) == MaxOver(xs, f)
  {
    assert xs[0] in xs;
    if |xs| > 1 {
      MaxOverSpec(xs[1..], f);
      var y :| y in xs[1..] && f(y) == MaxOver(xs[1..], f);
      assert y in xs && forall x :: x in xs ==> x == xs[0] || x in xs[1..];
    }
  }

  lemma {:induction false} MinOverSpec<T>(xs: seq<T>, f: T -> real)
    requires xs != []
    ensures forall x :: x in xs ==> MinOver(xs, f) <= f(x)
    ensures exists x :: x in xs && f(x) == MinOver(xs, f)
  {
    assert xs[0] in xs;
    if |xs| > 1 {
      MinOverSpec(xs[1..], f);
      var y :| y in xs[1..] && f(y) == MinOver(xs[1..], f);
      assert y in xs && forall x :: x in xs ==> x == xs[0] || x in xs[1..];
    }
  }
}
