/** The affect baseline over many turns (iris/cognitive/affect/persistence.py, iris/contracts/affect.py). */
module AffectBaseline {
  import opened Prelude
  import opened Reals

  datatype Error = OutOfRange

  datatype Affect = Affect(mood: Option<string>, valence: real, arousal: real, dominance: real, summary: Option<string>)

  predicate AffectInRange(a: Affect) {
    -1.0 <= a.valence <= 1.0 && -1.0 <= a.arousal <= 1.0 && -1.0 <= a.dominance <= 1.0
  }

  function Smooth(before: real, now: real): (r: real) { Clamp(before * 0.9 + now * 0.1, -1.0, 1.0) }

  /** Python's `a or b`: an empty string counts as missing. */
  function Or(a: Option<string>, b: Option<string>): (r: Option<string>) { if a.Some? && a.value != "" then a else b }

  predicate Meaningful(a: Affect) {
    a.mood.Some? || Abs(a.valence) > 0.000001 || Abs(a.arousal) > 0.000001 || Abs(a.dominance) > 0.000001
  }

  function Blend(b: Affect, a: Affect): (r: Affect) {
    Affect(Or(a.mood, b.mood), Smooth(b.valence, a.valence), Smooth(b.arousal, a.arousal),
           Smooth(b.dominance, a.dominance),
           Or(a.summary, b.summary))
  }

  /** The first affect is stored as it is; later ones are blended in. Then the record contract is checked. */
  function UpdateBaseline(current: Option<Affect>, a: Affect): (r: Outcome<Affect, Error>) {
    var next := if current.None? then a else Blend(current.value, a);
    if AffectInRange(next) then Ok(next) else Raised(OutOfRange)
  }

  /** The contract check fails exactly on a first affect out of range: blending clamps. */
  lemma BaselineRaisesIff(current: Option<Affect>, a: Affect)
    ensures UpdateBaseline(current, a).Raised? <==> current.None? && !AffectInRange(a)
  {
  }

  /** A first affect of valence 3/2 raises; the same affect on any stored baseline does not. */
  lemma FirstAffectRaises(b: Affect) returns (a: Affect)
    ensures a.valence == 1.5 && UpdateBaseline(None, a).Raised? && UpdateBaseline(Some(b), a).Ok?
  {
    a := Affect(None, 1.5, 0.0, 0.0, None);
    BaselineRaisesIff(Some(b), a);
  }

  lemma SmoothExact(before: real, now: real)
    requires -1.0 <= before <= 1.0 && -1.0 <= now <= 1.0
    ensures Smooth(before, now) == before * 0.9 + now * 0.1
  {
  }

  function Smoothed(b: real, vs: seq<real>): (r: real) {
    if vs == [] then b else Smooth(Smoothed(b, vs[..|vs| - 1]), vs[|vs| - 1])
  }

  /** `0.9 ** n * d`: what is left of a difference after `n` turns. */
  function Decayed(d: real, n: nat): (r: real) { if n == 0 then d else Decayed(d, n - 1) * 0.9 }

  lemma {:induction false} DecayedDifference(a: real, b: real, n: nat)
    ensures Decayed(a, n) - Decayed(b, n) == Decayed(a - b, n)
  {
    if n > 0 { DecayedDifference(a, b, n - 1); }
  }

  lemma {:induction false} DecayedShrinks(d: real, n: nat)
    requires n >= 1
    ensures Decayed(d, n) == d <==> d == 0.0
    ensures d > 0.0 ==> 0.0 < Decayed(d, n) < d
    ensures d < 0.0 ==> d < Decayed(d, n) < 0.0
  {
    if n > 1 { DecayedShrinks(d, n - 1); }
  }

  /** The exponentially weighted sum of the values, newest heaviest. */
  function WeightedSum(vs: seq<real>): (r: real) {
    if vs == [] then 0.0 else WeightedSum(vs[..|vs| - 1]) * 0.9 + vs[|vs| - 1] * 0.1
  }

  predicate Within(vs: seq<real>, lo: real, hi: real) { forall i :: 0 <= i < |vs| ==> lo <= vs[i] <= hi }

  /** The clamp never acts: the baseline is the exponentially weighted average of its start and all that was
      felt, and never leaves the range they span. */
  lemma {:induction false} BaselineIsAverage(b: real, vs: seq<real>, lo: real, hi: real)
    requires -1.0 <= lo <= b <= hi <= 1.0 && Within(vs, lo, hi)
    ensures Smoothed(b, vs) == Decayed(b, |vs|) + WeightedSum(vs)
    ensures lo <= Smoothed(b, vs) <= hi
  {
    if vs != [] {
      var front, last := vs[..|vs| - 1], vs[|vs| - 1];
      BaselineIsAverage(b, front, lo, hi);
      SmoothExact(Smoothed(b, front), last);
    }
  }

  function Repeated(v: real, n: nat): (r: seq<real>)
    ensures |r| == n && Within(r, v, v)
  {
    seq(n, _ => v)
  }

  /** Under a constant affect the baseline approaches it geometrically. */
  lemma {:induction false} ConstantAffect(b: real, v: real, n: nat)
    requires -1.0 <= b <= 1.0 && -1.0 <= v <= 1.0
    ensures Smoothed(b, Repeated(v, n)) == v + Decayed(b - v, n)
  {
    if n == 0 {
      assert Repeated(v, 0) == [];
    } else {
      ConstantAffect(b, v, n - 1);
      assert Repeated(v, n)[..n - 1] == Repeated(v, n - 1);
      BaselineIsAverage(b, Repeated(v, n - 1), -1.0, 1.0);
      SmoothExact(Smoothed(b, Repeated(v, n - 1)), v);
    }
  }

  /** Past baselines are forgotten at a fixed rate: two histories that feel the same end up as close as their
      starts times 0.9 per turn. */
  lemma BaselineForgets(b: real, c: real, vs: seq<real>)
    requires -1.0 <= b <= 1.0 && -1.0 <= c <= 1.0 && Within(vs, -1.0, 1.0)
    ensures Smoothed(b, vs) - Smoothed(c, vs) == Decayed(b - c, |vs|)
  {
    BaselineIsAverage(b, vs, -1.0, 1.0);
    BaselineIsAverage(c, vs, -1.0, 1.0);
    DecayedDifference(b, c, |vs|);
  }

  // ----- the baseline over turns ----------------------------------------------------------------------

  datatype FeltTurn = FeltTurn(text: Option<string>, affect: Affect)

  datatype PersistSkip = NoInput | NotMeaningful

  datatype Persisted = Kept(reason: PersistSkip) | Saved(baseline: Affect)

  datatype Component = Valence | Arousal | Dominance

  function Value(a: Affect, c: Component): (v: real) {
    match c
    case Valence => a.valence
    case Arousal => a.arousal
    case Dominance => a.dominance
  }

  function Values(affects: seq<Affect>, c: Component): (vs: seq<real>)
    ensures |vs| == |affects|
    ensures forall i :: 0 <= i < |vs| ==> vs[i] == Value(affects[i], c)
  {
    seq(|affects|, i requires 0 <= i < |affects| => Value(affects[i], c))
  }

  /** The turns that reach the baseline; all others are skipped. */
  predicate Counts(t: FeltTurn) { t.text.Some? && Meaningful(t.affect) }

  /** The stored baseline after a turn; a turn that raises stores nothing. */
  function AfterFelt(b: Option<Affect>, t: FeltTurn): (r: Option<Affect>) {
    if !Counts(t) then b
    else
      var next := UpdateBaseline(b, t.affect);
      if next.Ok? then Some(next.value) else b
  }

  function AfterAllFelt(b: Option<Affect>, ts: seq<FeltTurn>): (r: Option<Affect>)
    decreases |ts|
  {
    if ts == [] then b else AfterAllFelt(AfterFelt(b, ts[0]), ts[1..])
  }

  function CountedAffects(ts: seq<FeltTurn>): (r: seq<Affect>) {
    if ts == [] then [] else (if Counts(ts[0]) then [ts[0].affect] else []) + CountedAffects(ts[1..])
  }

  lemma {:induction false} SmoothedCons(b: real, v: real, vs: seq<real>)
    ensures Smoothed(b, [v] + vs) == Smoothed(Smooth(b, v), vs)
  {
    var all := [v] + vs;
    if vs == [] {
      assert all[..0] == [] && all[0] == v;
    } else {
      assert all[..|all| - 1] == [v] + vs[..|vs| - 1] && all[|all| - 1] == vs[|vs| - 1];
      SmoothedCons(b, v, vs[..|vs| - 1]);
    }
  }

  lemma BlendValue(b: Affect, a: Affect, c: Component)
    ensures Value(Blend(b, a), c) == Smooth(Value(b, c), Value(a, c))
  {
  }

  lemma FeltStep(b: Affect, t: FeltTurn)
    ensures AfterFelt(Some(b), t) == Some(if Counts(t) then Blend(b, t.affect) else b)
  {
    BaselineRaisesIff(Some(b), t.affect);
  }

  lemma CountedCons(ts: seq<FeltTurn>, c: Component)
    requires ts != []
    ensures Values(CountedAffects(ts), c) ==
            (if Counts(ts[0]) then [Value(ts[0].affect, c)] else []) + Values(CountedAffects(ts[1..]), c)
  {
  }

  /** Over any turns each component of a stored baseline is smoothed over exactly the turns that count, and the step
      never raises. */
  lemma {:induction false} BaselineRun(b: Affect, ts: seq<FeltTurn>, c: Component)
    ensures AfterAllFelt(Some(b), ts).Some?
    ensures Value(AfterAllFelt(Some(b), ts).value, c) == Smoothed(Value(b, c), Values(CountedAffects(ts), c))
    decreases |ts|
  {
    if ts == [] {
      assert Values(CountedAffects(ts), c) == [];
    } else {
      var rest := Values(CountedAffects(ts[1..]), c);
      FeltStep(b, ts[0]);
      CountedCons(ts, c);
      if Counts(ts[0]) {
        BaselineRun(Blend(b, ts[0].affect), ts[1..], c);
        BlendValue(b, ts[0].affect, c);
        SmoothedCons(Value(b, c), Value(ts[0].affect, c), rest);
      } else {
        BaselineRun(b, ts[1..], c);
        assert [] + rest == rest;
      }
    }
  }

  /** A turn counts when there is text and some mood, or a component that is not negligible. */
  lemma CountsIff(t: FeltTurn)
    ensures Counts(t) <==>
            && t.text.Some?
            && (t.affect.mood.Some? || exists c :: Value(t.affect, c) > 0.000_001 || Value(t.affect, c) < -0.000_001)
  {
    var a := t.affect;
    assert Value(a, Valence) == a.valence && Value(a, Arousal) == a.arousal && Value(a, Dominance) == a.dominance;
    if Abs(a.valence) > 0.000_001 { assert Value(a, Valence) > 0.000_001 || Value(a, Valence) < -0.000_001; }
    if Abs(a.arousal) > 0.000_001 { assert Value(a, Arousal) > 0.000_001 || Value(a, Arousal) < -0.000_001; }
    if Abs(a.dominance) > 0.000_001 { assert Value(a, Dominance) > 0.000_001 || Value(a, Dominance) < -0.000_001; }
  }

  /** The last of some texts that is there and not empty, or the first one. */
  ghost function LatestText(first: Option<string>, texts: seq<Option<string>>): (r: Option<string>) {
    if texts == [] then first
    else
      var last := texts[|texts| - 1];
      if last.Some? && last.value != "" then last else LatestText(first, texts[..|texts| - 1])
  }

  ghost function Moods(affects: seq<Affect>): (r: seq<Option<string>>) {
    seq(|affects|, i requires 0 <= i < |affects| => affects[i].mood)
  }

  ghost function Summaries(affects: seq<Affect>): (r: seq<Option<string>>) {
    seq(|affects|, i requires 0 <= i < |affects| => affects[i].summary)
  }

  lemma {:induction false} LatestCons(first: Option<string>, x: Option<string>, texts: seq<Option<string>>)
    ensures LatestText(first, [x] + texts) == LatestText(if x.Some? && x.value != "" then x else first, texts)
  {
    var all := [x] + texts;
    if texts == [] {
      assert all[..0] == [] && all[0] == x;
    } else {
      assert all[..|all| - 1] == [x] + texts[..|texts| - 1] && all[|all| - 1] == texts[|texts| - 1];
      LatestCons(first, x, texts[..|texts| - 1]);
    }
  }

  /** Mood and summary of a stored baseline are the latest given by a turn that counts. */
  lemma {:induction false} LatestMoodKept(b: Affect, ts: seq<FeltTurn>)
    ensures AfterAllFelt(Some(b), ts).Some?
    ensures AfterAllFelt(Some(b), ts).value.mood == LatestText(b.mood, Moods(CountedAffects(ts)))
    ensures AfterAllFelt(Some(b), ts).value.summary == LatestText(b.summary, Summaries(CountedAffects(ts)))
    decreases |ts|
  {
    if ts == [] {
      assert Moods(CountedAffects(ts)) == [] && Summaries(CountedAffects(ts)) == [];
    } else {
      FeltStep(b, ts[0]);
      var rest := CountedAffects(ts[1..]);
      if Counts(ts[0]) {
        LatestMoodKept(Blend(b, ts[0].affect), ts[1..]);
        assert Moods(CountedAffects(ts)) == [ts[0].affect.mood] + Moods(rest);
        assert Summaries(CountedAffects(ts)) == [ts[0].affect.summary] + Summaries(rest);
        LatestCons(b.mood, ts[0].affect.mood, Moods(rest));
        LatestCons(b.summary, ts[0].affect.summary, Summaries(rest));
      } else {
        LatestMoodKept(b, ts[1..]);
        assert CountedAffects(ts) == rest;
      }
    }
  }

  /** From an empty store: nothing is stored until the first turn that counts with an affect in range, which is stored
      as it is; from there on the run is that of a stored baseline. */
  lemma {:induction false} FirstBaseline(ts: seq<FeltTurn>) returns (k: nat)
    ensures k <= |ts| && forall i :: 0 <= i < k ==> !(Counts(ts[i]) && AffectInRange(ts[i].affect))
    ensures k == |ts| ==> AfterAllFelt(None, ts).None?
    ensures k < |ts| ==>
              && Counts(ts[k]) && AffectInRange(ts[k].affect)
              && AfterAllFelt(None, ts) == AfterAllFelt(Some(ts[k].affect), ts[k + 1..])
    decreases |ts|
  {
    if ts == [] {
      k := 0;
    } else if Counts(ts[0]) && AffectInRange(ts[0].affect) {
      k := 0;
    } else {
      var j := FirstBaseline(ts[1..]);
      k := j + 1;
      if k < |ts| { assert ts[1..][j] == ts[k] && ts[1..][j + 1..] == ts[k + 1..]; }
      forall i | 0 <= i < k ensures !(Counts(ts[i]) && AffectInRange(ts[i].affect)) {
        if i > 0 { assert ts[i] == ts[1..][i - 1]; }
      }
    }
  }

  /** The stored baseline is the exponentially weighted average of its start and the turns that count, and stays in
      the range they span. */
  lemma {:induction false} BaselineRunIsAverage(b: Affect, ts: seq<FeltTurn>, c: Component, lo: real, hi: real)
    requires -1.0 <= lo <= Value(b, c) <= hi <= 1.0 && Within(Values(CountedAffects(ts), c), lo, hi)
    ensures AfterAllFelt(Some(b), ts).Some?
    ensures var r, vs := Value(AfterAllFelt(Some(b), ts).value, c), Values(CountedAffects(ts), c);
            r == Decayed(Value(b, c), |vs|) + WeightedSum(vs) && lo <= r <= hi
  {
    BaselineRun(b, ts, c);
    BaselineIsAverage(Value(b, c), Values(CountedAffects(ts), c), lo, hi);
  }

  /** Two stored baselines under the same turns get closer by 0.9 with every turn that counts. */
  lemma {:induction false} BaselineRunForgets(a: Affect, b: Affect, ts: seq<FeltTurn>, c: Component)
    requires -1.0 <= Value(a, c) <= 1.0 && -1.0 <= Value(b, c) <= 1.0
             && Within(Values(CountedAffects(ts), c), -1.0, 1.0)
    ensures AfterAllFelt(Some(a), ts).Some? && AfterAllFelt(Some(b), ts).Some?
    ensures Value(AfterAllFelt(Some(a), ts).value, c) - Value(AfterAllFelt(Some(b), ts).value, c) ==
            Decayed(Value(a, c) - Value(b, c), |CountedAffects(ts)|)
  {
    BaselineRun(a, ts, c);
    BaselineRun(b, ts, c);
    BaselineForgets(Value(a, c), Value(b, c), Values(CountedAffects(ts), c));
  }

  function Again(t: FeltTurn, n: nat): (ts: seq<FeltTurn>) { if n == 0 then [] else [t] + Again(t, n - 1) }

  lemma {:induction false} AgainCounted(t: FeltTurn, n: nat, c: Component)
    ensures Values(CountedAffects(Again(t, n)), c) == if Counts(t) then Repeated(Value(t.affect, c), n) else []
  {
    if n > 0 {
      AgainCounted(t, n - 1, c);
      assert Again(t, n)[1..] == Again(t, n - 1);
    }
  }

  /** The law of a constant affect, for one component: the baseline approaches it geometrically. */
  ghost predicate Follows(b: Affect, t: FeltTurn, n: nat, c: Component) {
    var r := AfterAllFelt(Some(b), Again(t, n));
    r.Some? && Value(r.value, c) == Value(t.affect, c) + Decayed(Value(b, c) - Value(t.affect, c), n)
  }

  /** Under a constant affect a component follows the geometric law exactly when the turn counts, or the component is
      at rest already: a neutral affect is skipped, so a baseline never decays towards neutral. */
  lemma {:induction false} ConstantAffectIff(b: Affect, t: FeltTurn, n: nat, c: Component)
    requires n >= 1 && -1.0 <= Value(b, c) <= 1.0 && -1.0 <= Value(t.affect, c) <= 1.0
    ensures Follows(b, t, n, c) <==> Counts(t) || Value(b, c) == Value(t.affect, c)
  {
    var v, w := Value(b, c), Value(t.affect, c);
    BaselineRun(b, Again(t, n), c);
    AgainCounted(t, n, c);
    FollowsIff(Value(AfterAllFelt(Some(b), Again(t, n)).value, c), v, w, n, Counts(t));
  }

  lemma {:induction false} FollowsIff(x: real, v: real, w: real, n: nat, counts: bool)
    requires n >= 1 && -1.0 <= v <= 1.0 && -1.0 <= w <= 1.0
    requires x == Smoothed(v, if counts then Repeated(w, n) else [])
    ensures x == w + Decayed(v - w, n) <==> counts || v == w
  {
    if counts {
      ConstantAffect(v, w, n);
    } else {
      DecayedShrinks(v - w, n);
    }
  }

  /** A turn without any affect leaves a baseline of 0.8 where it is. */
  lemma NeutralDoesNotDecay() returns (b: Affect, t: FeltTurn)
    ensures b.valence == 0.8 && t.text.Some? && t.affect == Affect(None, 0.0, 0.0, 0.0, None)
    ensures AfterAllFelt(Some(b), [t]) == Some(b) && !Follows(b, t, 1, Valence)
  {
    b, t := Affect(None, 0.8, 0.0, 0.0, None), FeltTurn(Some("hello"), Affect(None, 0.0, 0.0, 0.0, None));
    assert !Counts(t) && [t][1..] == [];
    ConstantAffectIff(b, t, 1, Valence);
  }

  class AffectPersistenceStep {
    var baseline: Option<Affect>

    ghost predicate Valid()
      reads this
    {
      baseline.Some? ==> AffectInRange(baseline.value)
    }

    constructor ()
      ensures Valid() && baseline.None?
    {
      baseline := None;
    }

    method Run(t: FeltTurn) returns (r: Outcome<Persisted, Error>)
      requires Valid()
      modifies this
      ensures Valid()
      ensures r.Ok? && r.value.Kept? <==> t.text.None? || !Meaningful(t.affect)
      ensures r == Ok(Kept(NoInput)) <==> t.text.None?
      ensures r.Raised? <==> t.text.Some? && Meaningful(t.affect) && old(baseline).None? && !AffectInRange(t.affect)
      ensures baseline == AfterFelt(old(baseline), t)
      ensures r.Ok? && r.value.Saved? ==> baseline == Some(r.value.baseline)
    {
      if t.text.None? { return Ok(Kept(NoInput)); }
      if !Meaningful(t.affect) { return Ok(Kept(NotMeaningful)); }
      BaselineRaisesIff(baseline, t.affect);
      var updated := UpdateBaseline(baseline, t.affect);
      if updated.Raised? { return Raised(updated.error); }
      baseline := Some(updated.value);
      r := Ok(Saved(updated.value));
    }
  }
}
