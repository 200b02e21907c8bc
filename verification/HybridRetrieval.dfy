/** Full-text and vector results merged and reranked (iris/cognitive/memory/hybrid.py). */
module HybridRetrieval {
  import opened Prelude
  import opened Ordering
  import opened KeyedSeq
  import opened Ranking
  import opened MemoryContracts
  import MemoryStore
  import opened VectorIndex
  import opened Reals

  datatype HybridScore = HybridScore(fts: real, vector: real, result: SearchResult)

  function HybridId(h: HybridScore): (id: string) { h.result.record.id }

  // ----- merging ------------------------------------------------------------------------------------

  function FtsScore(r: SearchResult): (h: HybridScore) { HybridScore(r.score, 0.0, r) }

  function MergeFts(merged: seq<HybridScore>, fts: seq<SearchResult>): (r: seq<HybridScore>)
    decreases |fts|
  {
    if fts == [] then merged else MergeFts(Put(merged, HybridId, FtsScore(fts[0])), fts[1..])
  }

  /** A vector result joins the entry of its id, whose record it does not replace, or opens a new one. */
  function Join(merged: seq<HybridScore>, r: SearchResult): (h: HybridScore) {
    var prior := Lookup(merged, HybridId, r.record.id);
    if prior.Some? then HybridScore(prior.value.fts, r.score, prior.value.result) else HybridScore(0.0, r.score, r)
  }

  function MergeVectors(merged: seq<HybridScore>, vectors: seq<SearchResult>): (r: seq<HybridScore>)
    decreases |vectors|
  {
    if vectors == [] then merged else MergeVectors(Put(merged, HybridId, Join(merged, vectors[0])), vectors[1..])
  }

  function Merge(fts: seq<SearchResult>, vectors: seq<SearchResult>): (r: seq<HybridScore>) {
    MergeVectors(MergeFts([], fts), vectors)
  }

  function ResultId(r: SearchResult): (id: string) { r.record.id }

  lemma {:induction false} MergeFtsFacts(merged: seq<HybridScore>, fts: seq<SearchResult>, id: string)
    requires Distinct(merged, HybridId)
    ensures var r := MergeFts(merged, fts);
            && Distinct(r, HybridId)
            && Lookup(r, HybridId, id) ==
               (match Last(fts, ResultId, id)
                case Some(x) => Some(FtsScore(x))
                case None => Lookup(merged, HybridId, id))
    decreases |fts|
  {
    if fts == [] {
    } else {
      PutSpec(merged, HybridId, FtsScore(fts[0]), id);
      MergeFtsFacts(Put(merged, HybridId, FtsScore(fts[0])), fts[1..], id);
    }
  }

  /** What the second loop makes of one id: the last vector score joins the entry that was there, or the
      first vector result of that id opens one. */
  function Joined(before: Option<HybridScore>, vectors: seq<SearchResult>, id: string): (r: Option<HybridScore>) {
    var last := Last(vectors, ResultId, id);
    if last.None? then before
    else if before.Some? then Some(HybridScore(before.value.fts, last.value.score, before.value.result))
    else
      var first := Lookup(vectors, ResultId, id);
      if first.Some? then Some(HybridScore(0.0, last.value.score, first.value)) else None
  }

  function JoinOne(before: Option<HybridScore>, v: SearchResult): (h: HybridScore) {
    if before.Some? then HybridScore(before.value.fts, v.score, before.value.result) else HybridScore(0.0, v.score, v)
  }

  lemma JoinedStep(before: Option<HybridScore>, vectors: seq<SearchResult>, id: string)
    requires vectors != []
    ensures Joined(before, vectors, id) ==
            Joined(if ResultId(vectors[0]) == id then Some(JoinOne(before, vectors[0])) else before, vectors[1..], id)
  {
  }

  lemma {:induction false} MergeVectorsFacts(merged: seq<HybridScore>, vectors: seq<SearchResult>, id: string)
    requires Distinct(merged, HybridId)
    ensures Distinct(MergeVectors(merged, vectors), HybridId)
    ensures Lookup(MergeVectors(merged, vectors), HybridId, id) == Joined(Lookup(merged, HybridId, id), vectors, id)
    decreases |vectors|
  {
    if vectors == [] {
    } else {
      var h := Join(merged, vectors[0]);
      JoinId(merged, vectors[0]);
      PutSpec(merged, HybridId, h, id);
      JoinedStep(Lookup(merged, HybridId, id), vectors, id);
      MergeVectorsFacts(Put(merged, HybridId, h), vectors[1..], id);
    }
  }

  lemma JoinId(merged: seq<HybridScore>, r: SearchResult)
    ensures HybridId(Join(merged, r)) == ResultId(r)
    ensures Join(merged, r) == JoinOne(Lookup(merged, HybridId, ResultId(r)), r)
  {
  }

  /** The merge, id by id: the last full-text result provides record and full-text score, the last vector
      result the vector score, and a record found only by vector keeps its first resolved result. */
  lemma MergeSpec(fts: seq<SearchResult>, vectors: seq<SearchResult>, id: string)
    ensures Distinct(Merge(fts, vectors), HybridId)
    ensures var text := Last(fts, ResultId, id);
            Lookup(Merge(fts, vectors), HybridId, id) ==
            Joined(match text case Some(x) => Some(FtsScore(x)) case None => None, vectors, id)
  {
    MergeFtsFacts([], fts, id);
    MergeVectorsFacts(MergeFts([], fts), vectors, id);
  }

  /** Every merged entry carries a record of one of the two inputs, and every input id is merged. */
  lemma MergeSources(fts: seq<SearchResult>, vectors: seq<SearchResult>)
    ensures forall h :: h in Merge(fts, vectors) ==> h.result in fts || h.result in vectors
    ensures forall x :: x in fts || x in vectors ==> exists h :: h in Merge(fts, vectors) && HybridId(h) == ResultId(x)
  {
    var merged := Merge(fts, vectors);
    MergeSpec(fts, vectors, "");
    forall h | h in merged ensures h.result in fts || h.result in vectors {
      var i :| 0 <= i < |merged| && merged[i] == h;
      LookupOfDistinct(merged, HybridId, i);
      MergeSpec(fts, vectors, HybridId(h));
    }
    forall x | x in fts || x in vectors ensures exists h :: h in merged && HybridId(h) == ResultId(x) {
      MergeSpec(fts, vectors, ResultId(x));
      assert Lookup(merged, HybridId, ResultId(x)).Some?;
    }
  }

  method MergeResults(fts: seq<SearchResult>, vectors: seq<SearchResult>) returns (merged: seq<HybridScore>)
    ensures merged == Merge(fts, vectors)
  {
    merged := [];
    var i := 0;
    while i < |fts|
      invariant i <= |fts| && MergeFts(merged, fts[i..]) == MergeFts([], fts)
    {
      ghost var rest := fts[i..];
      assert rest[0] == fts[i] && rest[1..] == fts[i + 1..];
      merged := Put(merged, HybridId, HybridScore(fts[i].score, 0.0, fts[i]));
      i := i + 1;
    }
    assert fts[i..] == [];
    i := 0;
    while i < |vectors|
      invariant i <= |vectors| && MergeVectors(merged, vectors[i..]) == Merge(fts, vectors)
    {
      ghost var rest := vectors[i..];
      assert rest[0] == vectors[i] && rest[1..] == vectors[i + 1..];
      var prior := Lookup(merged, HybridId, vectors[i].record.id);
      if prior.Some? {
        merged := Put(merged, HybridId, HybridScore(prior.value.fts, vectors[i].score, prior.value.result));
      } else {
        merged := Put(merged, HybridId, HybridScore(0.0, vectors[i].score, vectors[i]));
      }
      i := i + 1;
    }
  }

  // ----- scoring ------------------------------------------------------------------------------------

  datatype Weights = Weights(fts: real, vector: real, salience: real, confidence: real) {
    function Total(): (t: real) { fts + vector + salience + confidence }

    ghost predicate NonNegative() { fts >= 0.0 && vector >= 0.0 && salience >= 0.0 && confidence >= 0.0 }
  }

  /** The constructor's normalisation; a total of zero or less is refused. */
  function Normalized(w: Weights): (r: Option<Weights>) {
    var t := w.Total();
    if t <= 0.0 then None else Some(Weights(w.fts / t, w.vector / t, w.salience / t, w.confidence / t))
  }

  /** Weights are accepted exactly when their total is positive, and scaled to a total of one, each in proportion. */
  lemma NormalizedWeights(w: Weights)
    ensures Normalized(w).Some? <==> w.Total() > 0.0
    ensures Normalized(w).Some? ==>
              var n := Normalized(w).value;
              && n.Total() == 1.0 && (n.NonNegative() <==> w.NonNegative())
              && n.fts * w.Total() == w.fts && n.vector * w.Total() == w.vector
              && n.salience * w.Total() == w.salience && n.confidence * w.Total() == w.confidence
  {
    var t := w.Total();
    if t > 0.0 {
      ScaledToOne(w, t);
    }
  }

  lemma ScaledToOne(w: Weights, t: real)
    requires t == w.Total() > 0.0
    ensures Normalized(w).value.Total() == 1.0 && (Normalized(w).value.NonNegative() <==> w.NonNegative())
  {
    SumOverTotal(w.fts, w.vector, t);
    SumOverTotal(w.fts + w.vector, w.salience, t);
    SumOverTotal(w.fts + w.vector + w.salience, w.confidence, t);
    OverItself(t);
  }

  lemma OverItself(t: real)
    requires t > 0.0
    ensures t / t == 1.0
  {
  }

  lemma SumOverTotal(x: real, y: real, t: real)
    requires t > 0.0
    ensures x / t + y / t == (x + y) / t
    ensures x >= 0.0 <==> x / t >= 0.0
    ensures y >= 0.0 <==> y / t >= 0.0
  {
    var a, b := x / t, y / t;
    assert a * t == x && b * t == y;
    assert (a + b) * t == x + y;
  }

  function MaxFts(hs: seq<HybridScore>): (m: real)
    requires hs != []
  {
    if |hs| == 1 then hs[0].fts else Max(hs[0].fts, MaxFts(hs[1..]))
  }

  function MaxVector(hs: seq<HybridScore>): (m: real)
    requires hs != []
  {
    if |hs| == 1 then hs[0].vector else Max(hs[0].vector, MaxVector(hs[1..]))
  }

  lemma {:induction false} MaximaBound(hs: seq<HybridScore>, i: nat)
    requires i < |hs|
    ensures hs[i].fts <= MaxFts(hs) && hs[i].vector <= MaxVector(hs)
  {
    if |hs| > 1 { MaximaBound(hs[1..], if i == 0 then 0 else i - 1); }
  }

  lemma {:induction false} MaximaAttained(hs: seq<HybridScore>)
    requires hs != []
    ensures (exists h :: h in hs && h.fts == MaxFts(hs)) && (exists h :: h in hs && h.vector == MaxVector(hs))
  {
    if |hs| == 1 {
      assert hs[0] in hs;
    } else {
      MaximaAttained(hs[1..]);
      assert hs[0] in hs && forall h :: h in hs[1..] ==> h in hs;
    }
  }

  /** A maximum of zero is replaced by one before dividing. */
  function Divisor(max: real): (d: real)
    ensures d != 0.0
  {
    if max == 0.0 then 1.0 else max
  }

  function Share(x: real, max: real, w: real): (s: real)
    requires max != 0.0
  {
    x / max * w
  }

  function Part(x: real, w: real): (s: real) { x * w }

  function Composite(w: Weights, ftsMax: real, vecMax: real, h: HybridScore): (s: real)
    requires ftsMax != 0.0 && vecMax != 0.0
  {
    Share(h.fts, ftsMax, w.fts) + Share(h.vector, vecMax, w.vector)
    + Part(h.result.record.salience, w.salience) + Part(h.result.record.confidence, w.confidence)
  }

  lemma ShareScaled(x: real, d: real, w: real)
    requires d > 0.0 && 0.0 <= x <= d && w >= 0.0
    ensures 0.0 <= Share(x, d, w) <= w
  {
    assert 0.0 <= x / d <= 1.0;
    Weighted(x / d, w);
  }

  lemma Weighted(x: real, w: real)
    requires 0.0 <= x <= 1.0 && w >= 0.0
    ensures 0.0 <= Part(x, w) <= w
  {
    Product(x, w);
    Product(1.0 - x, w);
    assert (1.0 - x) * w == w - x * w;
  }

  lemma CompositeBounds(w: Weights, ftsMax: real, vecMax: real, h: HybridScore)
    requires w.NonNegative() && w.Total() == 1.0 && ftsMax > 0.0 && vecMax > 0.0
    requires 0.0 <= h.fts <= ftsMax && 0.0 <= h.vector <= vecMax
    requires 0.0 <= h.result.record.salience <= 1.0 && 0.0 <= h.result.record.confidence <= 1.0
    ensures 0.0 <= Composite(w, ftsMax, vecMax, h) <= 1.0
  {
    ShareScaled(h.fts, ftsMax, w.fts);
    ShareScaled(h.vector, vecMax, w.vector);
    Weighted(h.result.record.salience, w.salience);
    Weighted(h.result.record.confidence, w.confidence);
  }

  /** Each component alone contributes exactly its own weight: the best full-text match, the best vector match, full
      salience, full confidence. */
  lemma EachWeightItsOwn(w: Weights, ftsMax: real, vecMax: real, h: HybridScore)
    requires ftsMax > 0.0 && vecMax > 0.0
    ensures var s, c := h.result.record.salience, h.result.record.confidence;
            && (h.fts == ftsMax && h.vector == 0.0 && s == 0.0 && c == 0.0 ==> Composite(w, ftsMax, vecMax, h) == w.fts)
            && (h.fts == 0.0 && h.vector == vecMax && s == 0.0 && c == 0.0 ==>
                Composite(w, ftsMax, vecMax, h) == w.vector)
            && (h.fts == 0.0 && h.vector == 0.0 && s == 1.0 && c == 0.0 ==>
                Composite(w, ftsMax, vecMax, h) == w.salience)
            && (h.fts == 0.0 && h.vector == 0.0 && s == 0.0 && c == 1.0 ==>
                Composite(w, ftsMax, vecMax, h) == w.confidence)
  {
    assert Share(0.0, ftsMax, w.fts) == 0.0 && Share(0.0, vecMax, w.vector) == 0.0;
    FullShare(ftsMax, w.fts);
    FullShare(vecMax, w.vector);
  }

  lemma FullShare(d: real, w: real)
    requires d > 0.0
    ensures Share(d, d, w) == w
  {
    OverItself(d);
  }

  /** Composite scores stay in the unit interval. */
  lemma CompositeInUnit(w: Weights, hs: seq<HybridScore>, i: nat)
    requires w.NonNegative() && w.Total() == 1.0 && i < |hs|
    requires forall h :: h in hs ==>
               && h.fts >= 0.0 && h.vector >= 0.0
               && 0.0 <= h.result.record.salience <= 1.0 && 0.0 <= h.result.record.confidence <= 1.0
    ensures 0.0 <= Composite(w, Divisor(MaxFts(hs)), Divisor(MaxVector(hs)), hs[i]) <= 1.0
  {
    MaximaBound(hs, i);
    assert hs[i] in hs;
    CompositeBounds(w, Divisor(MaxFts(hs)), Divisor(MaxVector(hs)), hs[i]);
  }

  /** At least as good in all four components. */
  ghost predicate Dominates(a: HybridScore, b: HybridScore) {
    && a.fts >= b.fts && a.vector >= b.vector
    && a.result.record.salience >= b.result.record.salience && a.result.record.confidence >= b.result.record.confidence
  }

  function CompositeIn(hs: seq<HybridScore>, w: Weights, h: HybridScore): (s: real)
    requires hs != []
  {
    Composite(w, Divisor(MaxFts(hs)), Divisor(MaxVector(hs)), h)
  }

  /** Among merged results no entry scores below one it dominates. */
  ghost predicate RespectsDominance(fts: seq<SearchResult>, vectors: seq<SearchResult>, w: Weights) {
    var hs := Merge(fts, vectors);
    hs != [] ==> forall a, b :: a in hs && b in hs && Dominates(a, b) ==> CompositeIn(hs, w, a) >= CompositeIn(hs, w, b)
  }

  /** The results to merge attain these maxima. */
  ghost predicate HasMaxima(fts: seq<SearchResult>, vectors: seq<SearchResult>, ftsMax: real, vecMax: real) {
    var hs := Merge(fts, vectors);
    hs != [] && MaxFts(hs) == ftsMax && MaxVector(hs) == vecMax
  }

  lemma ScaledMonotone(x: real, y: real, d: real, w: real)
    requires x >= y && w >= 0.0 && d > 0.0
    ensures Share(x, d, w) >= Share(y, d, w)
  {
    assert x / d >= y / d;
  }

  lemma WeightedMonotone(x: real, y: real, w: real)
    requires x >= y && w >= 0.0
    ensures Part(x, w) >= Part(y, w)
  {
  }

  lemma DominanceKept(fts: seq<SearchResult>, vectors: seq<SearchResult>, w: Weights, ftsMax: real, vecMax: real)
    requires w.NonNegative() && HasMaxima(fts, vectors, ftsMax, vecMax)
    requires (ftsMax >= 0.0 || w.fts == 0.0) && (vecMax >= 0.0 || w.vector == 0.0)
    ensures RespectsDominance(fts, vectors, w)
  {
    var hs, f, v := Merge(fts, vectors), Divisor(ftsMax), Divisor(vecMax);
    forall a, b | a in hs && b in hs && Dominates(a, b) ensures CompositeIn(hs, w, a) >= CompositeIn(hs, w, b) {
      if w.fts != 0.0 { ScaledMonotone(a.fts, b.fts, f, w.fts); }
      if w.vector != 0.0 { ScaledMonotone(a.vector, b.vector, v, w.vector); }
      WeightedMonotone(a.result.record.salience, b.result.record.salience, w.salience);
      WeightedMonotone(a.result.record.confidence, b.result.record.confidence, w.confidence);
    }
  }

  /** A result that only its id and score tell from others. */
  function Plain(id: string, score: real): (r: SearchResult) {
    SearchResult(MemoryRecord(id, "", None, None, 0.0, Note, 0.0, None, None, None, false, map[]), score)
  }

  /** Two results found by both searches, merged. */
  lemma MergeTwo(f: real, g: real, v: real, u: real)
    ensures Merge([Plain("a", f), Plain("b", g)], [Plain("a", v), Plain("b", u)]) ==
            [HybridScore(f, v, Plain("a", f)), HybridScore(g, u, Plain("b", g))]
  {
    var fts, vectors := [Plain("a", f), Plain("b", g)], [Plain("a", v), Plain("b", u)];
    assert fts[1..] == [Plain("b", g)] && fts[1..][1..] == [] && vectors[1..] == [Plain("b", u)]
        && vectors[1..][1..] == [];
    var m1 := Put([], HybridId, FtsScore(fts[0]));
    assert m1 == [HybridScore(f, 0.0, Plain("a", f))];
    var m2 := Put(m1, HybridId, FtsScore(fts[1]));
    assert m2 == [HybridScore(f, 0.0, Plain("a", f)), HybridScore(g, 0.0, Plain("b", g))];
    assert MergeFts([], fts) == MergeFts(m1, fts[1..]) == MergeFts(m2, []);
    var m3 := Put(m2, HybridId, Join(m2, vectors[0]));
    assert m3 == [HybridScore(f, v, Plain("a", f)), HybridScore(g, 0.0, Plain("b", g))];
    var m4 := Put(m3, HybridId, Join(m3, vectors[1]));
    assert m4 == [HybridScore(f, v, Plain("a", f)), HybridScore(g, u, Plain("b", g))];
    assert MergeVectors(m2, vectors) == MergeVectors(m3, vectors[1..]) == MergeVectors(m4, []);
  }

  lemma MaximaOfTwo(x: HybridScore, y: HybridScore)
    ensures MaxFts([x, y]) == Max(x.fts, y.fts) && MaxVector([x, y]) == Max(x.vector, y.vector)
  {
    assert [x, y][1..] == [y];
  }

  lemma TwiceTheShare(d: real, w: real)
    requires d < 0.0 && w > 0.0
    ensures Share(2.0 * d, d, w) > Share(d, d, w)
  {
    assert 2.0 * d / d == 2.0 && d / d == 1.0;
  }

  /** With a negative vector maximum, the best match and one twice as far below zero: the worse one scores higher. */
  lemma NegativeVectorBreaks(w: Weights, ftsMax: real, vecMax: real)
    returns (fts: seq<SearchResult>, vectors: seq<SearchResult>)
    requires vecMax < 0.0 && w.vector > 0.0
    ensures HasMaxima(fts, vectors, ftsMax, vecMax) && !RespectsDominance(fts, vectors, w)
  {
    fts, vectors := [Plain("a", ftsMax), Plain("b", ftsMax)], [Plain("a", vecMax), Plain("b", 2.0 * vecMax)];
    MergeTwo(ftsMax, ftsMax, vecMax, 2.0 * vecMax);
    var hs := Merge(fts, vectors);
    MaximaOfTwo(hs[0], hs[1]);
    TwiceTheShare(vecMax, w.vector);
    assert hs[0] in hs && hs[1] in hs && Dominates(hs[0], hs[1])
        && CompositeIn(hs, w, hs[0]) < CompositeIn(hs, w, hs[1]);
  }

  lemma NegativeTextBreaks(w: Weights, ftsMax: real, vecMax: real)
    returns (fts: seq<SearchResult>, vectors: seq<SearchResult>)
    requires ftsMax < 0.0 && w.fts > 0.0
    ensures HasMaxima(fts, vectors, ftsMax, vecMax) && !RespectsDominance(fts, vectors, w)
  {
    fts, vectors := [Plain("a", ftsMax), Plain("b", 2.0 * ftsMax)], [Plain("a", vecMax), Plain("b", vecMax)];
    MergeTwo(ftsMax, 2.0 * ftsMax, vecMax, vecMax);
    var hs := Merge(fts, vectors);
    MaximaOfTwo(hs[0], hs[1]);
    TwiceTheShare(ftsMax, w.fts);
    assert hs[0] in hs && hs[1] in hs && Dominates(hs[0], hs[1])
        && CompositeIn(hs, w, hs[0]) < CompositeIn(hs, w, hs[1]);
  }

  /** Whatever is merged under these maxima respects dominance exactly when neither weighted maximum is negative. A
      negative vector maximum (every hit less similar than orthogonal) turns the order of the vector scores around. */
  lemma DominanceIff(w: Weights, ftsMax: real, vecMax: real)
    requires w.NonNegative()
    ensures (forall fts, vectors :: HasMaxima(fts, vectors, ftsMax, vecMax) ==> RespectsDominance(fts, vectors, w)) <==>
            (ftsMax >= 0.0 || w.fts == 0.0) && (vecMax >= 0.0 || w.vector == 0.0)
  {
    if (ftsMax >= 0.0 || w.fts == 0.0) && (vecMax >= 0.0 || w.vector == 0.0) {
      forall fts, vectors | HasMaxima(fts, vectors, ftsMax, vecMax) ensures RespectsDominance(fts, vectors, w) {
        DominanceKept(fts, vectors, w, ftsMax, vecMax);
      }
    } else if vecMax < 0.0 && w.vector > 0.0 {
      var fts, vectors := NegativeVectorBreaks(w, ftsMax, vecMax);
    } else {
      var fts, vectors := NegativeTextBreaks(w, ftsMax, vecMax);
    }
  }

  /** Two vector hits of negative similarity and nothing else to tell them apart: the reranker puts the worse one
      first. */
  lemma NegativeHitsInvert(v: real, u: real, w: Weights)
    requires u < v < 0.0 && w.vector > 0.0
    ensures var r := Reranked([], [Plain("a", v), Plain("b", u)], w, 2);
            |r| == 2 && r[0].record.id == "b" && r[1].record.id == "a"
  {
    MergeTwoHits(v, u);
    var x, y := HybridScore(0.0, v, Plain("a", v)), HybridScore(0.0, u, Plain("b", u));
    MaximaOfTwo(x, y);
    LargerShare(u, v, w.vector);
    RankTwo(x, y, w);
  }

  lemma LargerShare(u: real, d: real, w: real)
    requires u < d < 0.0 && w > 0.0
    ensures Share(u, d, w) > Share(d, d, w)
  {
    assert u / d > 1.0 && d / d == 1.0;
  }

  /** For instance similarities of -1/10 and -9/10 under the default weights. */
  lemma NegativeMaximumInverts() returns (v: real, u: real)
    ensures v == -0.1 && u == -0.9
    ensures var r := Reranked([], [Plain("a", v), Plain("b", u)], DEFAULT_WEIGHTS, 2);
            |r| == 2 && r[0].record.id == "b" && r[1].record.id == "a"
  {
    v, u := -0.1, -0.9;
    NegativeHitsInvert(v, u, DEFAULT_WEIGHTS);
  }

  /** Two merged entries come out in the order of their composites. */
  lemma RankTwo(x: HybridScore, y: HybridScore, w: Weights)
    requires CompositeIn([x, y], w, x) < CompositeIn([x, y], w, y)
    ensures var r := Results(Top(Scores([x, y], w, Divisor(MaxFts([x, y])), Divisor(MaxVector([x, y]))), 2));
            |r| == 2 && r[0].record == y.result.record && r[1].record == x.result.record
  {
    var scores := Scores([x, y], w, Divisor(MaxFts([x, y])), Divisor(MaxVector([x, y])));
    SortTwo(scores[0], scores[1]);
    assert scores == [scores[0], scores[1]];
  }

  lemma MergeTwoHits(v: real, u: real)
    ensures Merge([], [Plain("a", v), Plain("b", u)]) ==
            [HybridScore(0.0, v, Plain("a", v)), HybridScore(0.0, u, Plain("b", u))]
  {
    var vectors := [Plain("a", v), Plain("b", u)];
    assert vectors[1..] == [Plain("b", u)] && vectors[1..][1..] == [];
    var m1 := Put([], HybridId, Join([], vectors[0]));
    assert m1 == [HybridScore(0.0, v, Plain("a", v))];
    var m2 := Put(m1, HybridId, Join(m1, vectors[1]));
    assert m2 == [HybridScore(0.0, v, Plain("a", v)), HybridScore(0.0, u, Plain("b", u))];
    assert MergeVectors([], vectors) == MergeVectors(m1, vectors[1..]) == MergeVectors(m2, []);
  }

  lemma SortTwo(x: Ranked<SearchResult>, y: Ranked<SearchResult>)
    requires x.score < y.score
    ensures SortBy([x, y], RankLeq) == [y, x]
  {
    assert [x, y][1..] == [y] && [y][1..] == [];
    assert SortBy([y], RankLeq) == [y];
    assert InsertBy(x, [y], RankLeq) == [y] + InsertBy(x, [], RankLeq);
  }

  // ----- ranking ------------------------------------------------------------------------------------

  function Scores(hs: seq<HybridScore>, w: Weights, ftsMax: real, vecMax: real): (r: seq<Ranked<SearchResult>>)
    requires ftsMax != 0.0 && vecMax != 0.0
    ensures |r| == |hs|
    ensures forall i :: 0 <= i < |hs| ==>
              r[i] == Ranked(Composite(w, ftsMax, vecMax, hs[i]), i,
                             SearchResult(hs[i].result.record, Composite(w, ftsMax, vecMax, hs[i])))
  {
    seq(|hs|, i requires 0 <= i < |hs| =>
      Ranked(Composite(w, ftsMax, vecMax, hs[i]), i,
             SearchResult(hs[i].result.record, Composite(w, ftsMax, vecMax, hs[i]))))
  }

  function Reranked(fts: seq<SearchResult>, vectors: seq<SearchResult>, w: Weights, limit: int)
    : (r: seq<SearchResult>)
  {
    var merged := Merge(fts, vectors);
    if limit <= 0 || merged == [] then []
    else Results(Top(Scores(merged, w, Divisor(MaxFts(merged)), Divisor(MaxVector(merged))), limit))
  }

  method RankMerged(merged: seq<HybridScore>, w: Weights, limit: nat) returns (r: seq<SearchResult>)
    requires merged != []
    ensures r == Results(Top(Scores(merged, w, Divisor(MaxFts(merged)), Divisor(MaxVector(merged))), limit))
  {
    var ftsMax, vecMax := merged[0].fts, merged[0].vector;
    var i := 1;
    while i < |merged|
      invariant 1 <= i <= |merged|
      invariant i < |merged| ==> Max(ftsMax, MaxFts(merged[i..])) == MaxFts(merged)
      invariant i < |merged| ==> Max(vecMax, MaxVector(merged[i..])) == MaxVector(merged)
      invariant i == |merged| ==> ftsMax == MaxFts(merged) && vecMax == MaxVector(merged)
    {
      ghost var rest := merged[i..];
      assert rest[0] == merged[i] && rest[1..] == merged[i + 1..];
      ftsMax, vecMax := Max(ftsMax, merged[i].fts), Max(vecMax, merged[i].vector);
      i := i + 1;
    }
    if ftsMax == 0.0 { ftsMax := 1.0; }
    if vecMax == 0.0 { vecMax := 1.0; }
    var ranked: seq<Ranked<SearchResult>> := [];
    i := 0;
    while i < |merged|
      invariant i <= |merged| && ranked == Scores(merged, w, ftsMax, vecMax)[..i]
    {
      var composite := Composite(w, ftsMax, vecMax, merged[i]);
      ranked := ranked + [Ranked(composite, i, SearchResult(merged[i].result.record, composite))];
      i := i + 1;
    }
    assert ranked == Scores(merged, w, ftsMax, vecMax);
    r := Results(Top(ranked, limit));
  }

  method Rerank(fts: seq<SearchResult>, vectors: seq<SearchResult>, w: Weights, limit: int)
    returns (r: seq<SearchResult>)
    ensures r == Reranked(fts, vectors, w, limit)
  {
    if limit <= 0 { return []; }
    var merged := MergeResults(fts, vectors);
    if merged == [] { return []; }
    r := RankMerged(merged, w, limit);
  }

  function RankedId(r: Ranked<SearchResult>): (id: string) { r.result.record.id }

  lemma RerankDescends(fts: seq<SearchResult>, vectors: seq<SearchResult>, w: Weights, limit: int)
    ensures var r := Reranked(fts, vectors, w, limit); forall i, j :: 0 <= i < j < |r| ==> r[i].score >= r[j].score
  {
    var merged, r := Merge(fts, vectors), Reranked(fts, vectors, w, limit);
    if limit > 0 && merged != [] {
      var scores := Scores(merged, w, Divisor(MaxFts(merged)), Divisor(MaxVector(merged)));
      var omitted := TopIsBest(scores, limit);
      forall i | 0 <= i < |r| ensures r[i].score == Top(scores, limit)[i].score { TopMember(scores, limit, i); }
    }
  }

  /** What the reranker returns: as many results as were merged, up to the limit, with distinct ids, best first. */
  lemma RerankIsTopK(fts: seq<SearchResult>, vectors: seq<SearchResult>, w: Weights, limit: int)
    ensures var r := Reranked(fts, vectors, w, limit);
            && |r| == (if |Merge(fts, vectors)| <= Cap(limit) then |Merge(fts, vectors)| else Cap(limit))
            && Distinct(r, ResultId)
            && forall i, j :: 0 <= i < j < |r| ==> r[i].score >= r[j].score
  {
    RerankDescends(fts, vectors, w, limit);
    var merged := Merge(fts, vectors);
    if limit > 0 && merged != [] {
      var scores := Scores(merged, w, Divisor(MaxFts(merged)), Divisor(MaxVector(merged)));
      MergeSpec(fts, vectors, "");
      forall i, j | 0 <= i < j < |scores| ensures RankedId(scores[i]) != RankedId(scores[j]) {
        assert HybridId(merged[i]) != HybridId(merged[j]);
      }
      SortByDistinct(scores, RankLeq, RankedId);
      TopLength(scores, limit);
      var top, r := Top(scores, limit), Reranked(fts, vectors, w, limit);
      forall i, j | 0 <= i < j < |r| ensures ResultId(r[i]) != ResultId(r[j]) {
        assert RankedId(top[i]) == ResultId(r[i]) && RankedId(top[j]) == ResultId(r[j]);
        assert top[i] == SortBy(scores, RankLeq)[i] && top[j] == SortBy(scores, RankLeq)[j];
      }
    }
  }

  /** The merged entry behind a returned result. */
  lemma RerankOrigin(fts: seq<SearchResult>, vectors: seq<SearchResult>, w: Weights, limit: int, i: nat)
    returns (h: HybridScore)
    requires i < |Reranked(fts, vectors, w, limit)|
    ensures var merged := Merge(fts, vectors);
            && h in merged && (h.result in fts || h.result in vectors)
            && Reranked(fts, vectors, w, limit)[i] ==
               SearchResult(h.result.record, Composite(w, Divisor(MaxFts(merged)), Divisor(MaxVector(merged)), h))
  {
    var merged := Merge(fts, vectors);
    var scores := Scores(merged, w, Divisor(MaxFts(merged)), Divisor(MaxVector(merged)));
    TopMember(scores, limit, i);
    var k :| 0 <= k < |scores| && scores[k] == Top(scores, limit)[i];
    h := merged[k];
    MergeSources(fts, vectors);
  }

  /** If a merged entry is left out, then the limit is reached and no returned result scores lower. */
  lemma RerankKeepsBest(fts: seq<SearchResult>, vectors: seq<SearchResult>, w: Weights, limit: int, k: nat)
    requires k < |Merge(fts, vectors)|
    requires forall j :: 0 <= j < |Reranked(fts, vectors, w, limit)| ==>
               ResultId(Reranked(fts, vectors, w, limit)[j]) != HybridId(Merge(fts, vectors)[k])
    ensures var merged, r := Merge(fts, vectors), Reranked(fts, vectors, w, limit);
            && |r| == Cap(limit)
            && forall i :: 0 <= i < |r| ==> CompositeIn(merged, w, merged[k]) <= r[i].score
  {
    if limit > 0 {
      var merged := Merge(fts, vectors);
      var scores := Scores(merged, w, Divisor(MaxFts(merged)), Divisor(MaxVector(merged)));
      var top := Top(scores, limit);
      forall j | 0 <= j < |top| ensures top[j] != scores[k] {
        assert RankedId(top[j]) == ResultId(Reranked(fts, vectors, w, limit)[j]);
        assert RankedId(scores[k]) == HybridId(merged[k]);
      }
      TopKeepsBest(scores, limit, scores[k]);
      assert forall s :: s in scores ==> s.score == s.result.score;
      forall i | 0 <= i < |top| ensures top[i] in scores { TopMember(scores, limit, i); }
    }
  }

  // ----- the retriever ------------------------------------------------------------------------------

  /** Vector hits looked up in the canonical store and filtered again by the query. */
  function Resolve(raw: seq<VectorHit>, store: seq<MemoryRecord>, q: MemoryQuery): (r: seq<SearchResult>) {
    if raw == [] then []
    else
      var rest := Resolve(raw[1..], store, q);
      var found := Lookup(store, RecordId, raw[0].memoryId);
      if found.Some? && MatchesQuery(found.value, q) then [SearchResult(found.value, raw[0].score)] + rest else rest
  }

  /** Whatever the index says, a resolved result is the stored record of its id and passes the query filter. */
  lemma {:induction false} ResolvedSafe(raw: seq<VectorHit>, store: seq<MemoryRecord>, q: MemoryQuery)
    ensures forall x :: x in Resolve(raw, store, q) ==>
              && MatchesQuery(x.record, q) && Lookup(store, RecordId, x.record.id) == Some(x.record)
              && VectorHit(x.record.id, x.score) in raw
  {
    if raw != [] { ResolvedSafe(raw[1..], store, q); }
  }

  /** And every hit whose stored record passes the query filter is resolved, under its own score. */
  lemma {:induction false} ResolvedComplete(raw: seq<VectorHit>, store: seq<MemoryRecord>, q: MemoryQuery, h: VectorHit)
    requires h in raw && Lookup(store, RecordId, h.memoryId).Some?
    requires var r := Lookup(store, RecordId, h.memoryId).value; Wanted(r.archived, r.actorId, r.spaceId, r.kind, q)
    ensures SearchResult(Lookup(store, RecordId, h.memoryId).value, h.score) in Resolve(raw, store, q)
  {
    if h != raw[0] { ResolvedComplete(raw[1..], store, q, h); }
  }

  const DEFAULT_WEIGHTS := Weights(0.35, 0.35, 0.15, 0.15)

  function HybridSearch(store: seq<MemoryRecord>, entries: seq<VectorEntry>, m: Embedding, cosine: Cosine,
                        ftsSearch: MemoryQuery -> seq<SearchResult>, ftsLimit: int, vectorLimit: int, q: MemoryQuery)
    : (r: Outcome<seq<SearchResult>, IndexError>)
  {
    if q.limit <= 0 then Ok([])
    else
      var fts := ftsSearch(q.(limit := ftsLimit));
      var raw := IndexSearch(entries, m.embed(q.text), vectorLimit, Some(FilterOf(q)), cosine);
      if raw.Raised? then Raised(raw.error)
      else Ok(Reranked(fts, Resolve(raw.value, store, q), DEFAULT_WEIGHTS, q.limit))
  }

  /** Safety with any index, however stale: if the full-text results respect the query's filter, so does every
      record returned. */
  lemma HybridSearchSafe(store: seq<MemoryRecord>, entries: seq<VectorEntry>, m: Embedding, cosine: Cosine,
                         ftsSearch: MemoryQuery -> seq<SearchResult>, ftsLimit: int, vectorLimit: int, q: MemoryQuery)
    requires forall x :: x in ftsSearch(q.(limit := ftsLimit)) ==> MatchesQuery(x.record, q)
    requires HybridSearch(store, entries, m, cosine, ftsSearch, ftsLimit, vectorLimit, q).Ok?
    ensures var r := HybridSearch(store, entries, m, cosine, ftsSearch, ftsLimit, vectorLimit, q).value;
            && |r| <= (if q.limit < 0 then 0 else q.limit) && Distinct(r, ResultId)
            && forall x :: x in r ==> Wanted(x.record.archived, x.record.actorId, x.record.spaceId, x.record.kind, q)
  {
    var r := HybridSearch(store, entries, m, cosine, ftsSearch, ftsLimit, vectorLimit, q).value;
    if q.limit > 0 {
      var fts := ftsSearch(q.(limit := ftsLimit));
      var raw := IndexSearch(entries, m.embed(q.text), vectorLimit, Some(FilterOf(q)), cosine).value;
      ResolvedSafe(raw, store, q);
      RerankIsTopK(fts, Resolve(raw, store, q), DEFAULT_WEIGHTS, q.limit);
      forall x | x in r ensures Wanted(x.record.archived, x.record.actorId, x.record.spaceId, x.record.kind, q) {
        var i :| 0 <= i < |r| && r[i] == x;
        var h := RerankOrigin(fts, Resolve(raw, store, q), DEFAULT_WEIGHTS, q.limit, i);
      }
    }
  }

  // ----- what hybrid search returns -----------------------------------------------------------------

  /** The last score a list gives to an id, or nothing. */
  ghost function ScoreOf(xs: seq<SearchResult>, id: string): (s: real) {
    match Last(xs, ResultId, id) case Some(x) => x.score case None => 0.0
  }

  ghost function Scale(max: real): (d: real)
    ensures d != 0.0
  {
    if max == 0.0 then 1.0 else max
  }

  /** The score of a record found by full text, vector or both: 35 percent each for its share of the best full-text and
      of the best vector score, 15 percent each for salience and confidence. */
  ghost function Blended(fts: seq<SearchResult>, vectors: seq<SearchResult>, x: MemoryRecord): (s: real)
    requires Merge(fts, vectors) != []
  {
    var hs := Merge(fts, vectors);
    ScoreOf(fts, x.id) / Scale(MaxFts(hs)) * 0.35 + ScoreOf(vectors, x.id) / Scale(MaxVector(hs)) * 0.35
    + x.salience * 0.15 + x.confidence * 0.15
  }

  lemma MergedScores(fts: seq<SearchResult>, vectors: seq<SearchResult>, k: nat)
    requires k < |Merge(fts, vectors)|
    ensures var h := Merge(fts, vectors)[k];
            && h.fts == ScoreOf(fts, HybridId(h)) && h.vector == ScoreOf(vectors, HybridId(h))
            && CompositeIn(Merge(fts, vectors), DEFAULT_WEIGHTS, h) == Blended(fts, vectors, h.result.record)
  {
    var merged := Merge(fts, vectors);
    MergeSpec(fts, vectors, HybridId(merged[k]));
    LookupOfDistinct(merged, HybridId, k);
  }

  lemma MergedAt(fts: seq<SearchResult>, vectors: seq<SearchResult>, x: SearchResult) returns (k: nat)
    requires x in fts || x in vectors
    ensures k < |Merge(fts, vectors)| && HybridId(Merge(fts, vectors)[k]) == ResultId(x)
  {
    MergeSources(fts, vectors);
    var h :| h in Merge(fts, vectors) && HybridId(h) == ResultId(x);
    k :| 0 <= k < |Merge(fts, vectors)| && Merge(fts, vectors)[k] == h;
  }

  /** The record with this id is among the results, or there are `limit` of them and none scores lower than a merged
      record of this id. */
  ghost predicate Represented(r: seq<SearchResult>, limit: int, id: string, fts: seq<SearchResult>,
                              vectors: seq<SearchResult>) {
    || (exists i :: 0 <= i < |r| && r[i].record.id == id)
    || (&& |r| == limit && Merge(fts, vectors) != []
        && exists h :: h in Merge(fts, vectors) && HybridId(h) == id
                       && forall i :: 0 <= i < |r| ==> Blended(fts, vectors, h.result.record) <= r[i].score)
  }

  /** Hybrid search fails exactly when the index search for the query's vector under its filters does; otherwise every
      full-text result and every resolved vector hit is represented in the answer. */
  lemma HybridSearchComplete(store: seq<MemoryRecord>, entries: seq<VectorEntry>, m: Embedding, cosine: Cosine,
                             ftsSearch: MemoryQuery -> seq<SearchResult>, ftsLimit: int, vectorLimit: int,
                             q: MemoryQuery, x: SearchResult)
    ensures var raw := IndexSearch(entries, m.embed(q.text), vectorLimit, Some(FilterOf(q)), cosine);
            var o := HybridSearch(store, entries, m, cosine, ftsSearch, ftsLimit, vectorLimit, q);
            && (o.Raised? <==> q.limit > 0 && raw.Raised?) && (o.Raised? ==> o.error == raw.error)
            && (q.limit <= 0 ==> o == Ok([]))
            && (q.limit > 0 && o.Ok? ==>
                  var fts, vectors := ftsSearch(q.(limit := ftsLimit)), Resolve(raw.value, store, q);
                  x in fts || x in vectors ==> Represented(o.value, q.limit, x.record.id, fts, vectors))
  {
    var raw := IndexSearch(entries, m.embed(q.text), vectorLimit, Some(FilterOf(q)), cosine);
    if q.limit > 0 && raw.Ok? {
      var fts, vectors := ftsSearch(q.(limit := ftsLimit)), Resolve(raw.value, store, q);
      if x in fts || x in vectors { RerankRepresents(fts, vectors, q.limit, x); }
    }
  }

  lemma RerankRepresents(fts: seq<SearchResult>, vectors: seq<SearchResult>, limit: int, x: SearchResult)
    requires limit > 0 && (x in fts || x in vectors)
    ensures Represented(Reranked(fts, vectors, DEFAULT_WEIGHTS, limit), limit, x.record.id, fts, vectors)
  {
    var merged, r := Merge(fts, vectors), Reranked(fts, vectors, DEFAULT_WEIGHTS, limit);
    var k := MergedAt(fts, vectors, x);
    if forall i :: 0 <= i < |r| ==> r[i].record.id != x.record.id {
      RerankKeepsBest(fts, vectors, DEFAULT_WEIGHTS, limit, k);
      MergedScores(fts, vectors, k);
      assert merged[k] in merged;
    }
  }

  /** And every result comes from one of the two sides, under its blended score. */
  lemma HybridSearchOrigin(store: seq<MemoryRecord>, entries: seq<VectorEntry>, m: Embedding, cosine: Cosine,
                           ftsSearch: MemoryQuery -> seq<SearchResult>, ftsLimit: int, vectorLimit: int, q: MemoryQuery,
                           i: nat) returns (x: SearchResult)
    requires var o := HybridSearch(store, entries, m, cosine, ftsSearch, ftsLimit, vectorLimit, q);
             o.Ok? && i < |o.value|
    ensures var raw := IndexSearch(entries, m.embed(q.text), vectorLimit, Some(FilterOf(q)), cosine);
            && raw.Ok?
            && var fts, vectors := ftsSearch(q.(limit := ftsLimit)), Resolve(raw.value, store, q);
               var y := HybridSearch(store, entries, m, cosine, ftsSearch, ftsLimit, vectorLimit, q).value[i];
               && (x in fts || x in vectors) && y.record == x.record
               && Merge(fts, vectors) != [] && y.score == Blended(fts, vectors, y.record)
  {
    var raw := IndexSearch(entries, m.embed(q.text), vectorLimit, Some(FilterOf(q)), cosine);
    var fts, vectors := ftsSearch(q.(limit := ftsLimit)), Resolve(raw.value, store, q);
    var h := RerankOrigin(fts, vectors, DEFAULT_WEIGHTS, q.limit, i);
    var k :| 0 <= k < |Merge(fts, vectors)| && Merge(fts, vectors)[k] == h;
    MergedScores(fts, vectors, k);
    x := h.result;
  }

  /** So a stored record that only the vector side finds is returned, or the answer is full of results that score no
      lower. */
  lemma VectorHitReturned(store: seq<MemoryRecord>, entries: seq<VectorEntry>, m: Embedding, cosine: Cosine,
                          ftsSearch: MemoryQuery -> seq<SearchResult>, ftsLimit: int, vectorLimit: int, q: MemoryQuery,
                          h: VectorHit)
    requires q.limit > 0 && HybridSearch(store, entries, m, cosine, ftsSearch, ftsLimit, vectorLimit, q).Ok?
    requires var raw := IndexSearch(entries, m.embed(q.text), vectorLimit, Some(FilterOf(q)), cosine);
             raw.Ok? && h in raw.value
    requires Lookup(store, RecordId, h.memoryId).Some?
    requires var r := Lookup(store, RecordId, h.memoryId).value; Wanted(r.archived, r.actorId, r.spaceId, r.kind, q)
    ensures var raw := IndexSearch(entries, m.embed(q.text), vectorLimit, Some(FilterOf(q)), cosine).value;
            Represented(HybridSearch(store, entries, m, cosine, ftsSearch, ftsLimit, vectorLimit, q).value, q.limit,
                        h.memoryId, ftsSearch(q.(limit := ftsLimit)), Resolve(raw, store, q))
  {
    var raw := IndexSearch(entries, m.embed(q.text), vectorLimit, Some(FilterOf(q)), cosine).value;
    ResolvedComplete(raw, store, q, h);
    HybridSearchComplete(store, entries, m, cosine, ftsSearch, ftsLimit, vectorLimit, q,
                         SearchResult(Lookup(store, RecordId, h.memoryId).value, h.score));
  }

  lemma {:induction false} ResolveKeepsAll(raw: seq<VectorHit>, store: seq<MemoryRecord>, q: MemoryQuery)
    requires forall h :: h in raw ==>
               Lookup(store, RecordId, h.memoryId).Some? && MatchesQuery(Lookup(store, RecordId, h.memoryId).value, q)
    ensures |Resolve(raw, store, q)| == |raw|
    ensures forall i :: 0 <= i < |raw| ==>
              Resolve(raw, store, q)[i] == SearchResult(Lookup(store, RecordId, raw[i].memoryId).value, raw[i].score)
  {
    if raw != [] { ResolveKeepsAll(raw[1..], store, q); }
  }

  /** The stored record behind a hit of a synchronised index. */
  lemma HitOfMirror(store: seq<MemoryRecord>, entries: seq<VectorEntry>, m: Embedding, digest: MemoryRecord -> string,
                    cosine: Cosine, limit: int, q: MemoryQuery, i: nat)
    requires Mirrors(store, entries, m, digest)
    requires IndexSearch(entries, m.embed(q.text), limit, Some(FilterOf(q)), cosine).Ok?
    requires i < |IndexSearch(entries, m.embed(q.text), limit, Some(FilterOf(q)), cosine).value|
    ensures var h := IndexSearch(entries, m.embed(q.text), limit, Some(FilterOf(q)), cosine).value[i];
            && Lookup(store, RecordId, h.memoryId).Some?
            && var r := Lookup(store, RecordId, h.memoryId).value;
               MatchesQuery(r, q) && h.score == cosine(m.embed(q.text), m.embed(r.text))
  {
    var e := IndexSearchSound(entries, m.embed(q.text), limit, Some(FilterOf(q)), cosine, i);
    var k :| 0 <= k < |entries| && entries[k] == e;
    LookupOfDistinct(entries, EntryId, k);
    var r := Lookup(store, RecordId, e.memoryId).value;
    FilterAgrees(r, m.embed(r.text), m, digest, q);
  }

  /** With a synchronised index no hit is dropped on resolution, and each result is a matching stored record
      under its own similarity to the query. */
  lemma VectorSideExact(store: seq<MemoryRecord>, entries: seq<VectorEntry>, m: Embedding,
                        digest: MemoryRecord -> string,
                        cosine: Cosine, limit: int, q: MemoryQuery)
    requires Mirrors(store, entries, m, digest)
    requires IndexSearch(entries, m.embed(q.text), limit, Some(FilterOf(q)), cosine).Ok?
    ensures var raw := IndexSearch(entries, m.embed(q.text), limit, Some(FilterOf(q)), cosine).value;
            var r := Resolve(raw, store, q);
            && |r| == |raw|
            && (forall i :: 0 <= i < |r| ==>
                  && r[i].record.id == raw[i].memoryId && r[i].score == raw[i].score
                  && r[i].record in store && MatchesQuery(r[i].record, q)
                  && r[i].score == cosine(m.embed(q.text), m.embed(r[i].record.text)))
  {
    var raw := IndexSearch(entries, m.embed(q.text), limit, Some(FilterOf(q)), cosine).value;
    forall i | 0 <= i < |raw|
      ensures Lookup(store, RecordId, raw[i].memoryId).Some?
      ensures MatchesQuery(Lookup(store, RecordId, raw[i].memoryId).value, q)
      ensures raw[i].score == cosine(m.embed(q.text), m.embed(Lookup(store, RecordId, raw[i].memoryId).value.text))
    {
      HitOfMirror(store, entries, m, digest, cosine, limit, q, i);
    }
    ResolveKeepsAll(raw, store, q);
  }

  /** With a synchronised index, if a matching stored record is not among the vector results, then there are `limit`
      of them and none is further from the query: the index answers like a scan of the store. */
  lemma VectorSideMissesNothing(store: seq<MemoryRecord>, entries: seq<VectorEntry>, m: Embedding,
                                digest: MemoryRecord -> string, cosine: Cosine, limit: int, q: MemoryQuery,
                                y: MemoryRecord)
    requires Mirrors(store, entries, m, digest) && Distinct(store, RecordId) && y in store && MatchesQuery(y, q)
    requires IndexSearch(entries, m.embed(q.text), limit, Some(FilterOf(q)), cosine).Ok?
    ensures var r := Resolve(IndexSearch(entries, m.embed(q.text), limit, Some(FilterOf(q)), cosine).value, store, q);
            (forall j :: 0 <= j < |r| ==> r[j].record != y) ==>
              && |r| == Cap(limit)
              && forall i :: 0 <= i < |r| ==> cosine(m.embed(q.text), m.embed(y.text)) <= r[i].score
  {
    var raw := IndexSearch(entries, m.embed(q.text), limit, Some(FilterOf(q)), cosine).value;
    var r := Resolve(raw, store, q);
    VectorSideExact(store, entries, m, digest, cosine, limit, q);
    if forall j :: 0 <= j < |r| ==> r[j].record != y {
      EntryOfStored(store, entries, m, digest, y);
      FilterAgrees(y, m.embed(y.text), m, digest, q);
      NotAmongHits(raw, r, store, y, cosine(m.embed(q.text), m.embed(y.text)));
      IndexSearchKeepsBest(entries, m.embed(q.text), limit, Some(FilterOf(q)), cosine, EntryOf(y, m, digest));
    }
  }

  lemma NotAmongHits(raw: seq<VectorHit>, r: seq<SearchResult>, store: seq<MemoryRecord>, y: MemoryRecord, score: real)
    requires |r| == |raw| && Distinct(store, RecordId) && y in store
    requires forall i :: 0 <= i < |r| ==> r[i].record.id == raw[i].memoryId && r[i].record in store && r[i].record != y
    ensures VectorHit(y.id, score) !in raw
  {
    forall j | 0 <= j < |raw| ensures raw[j].memoryId != y.id {
      if r[j].record.id == y.id { StoredOnce(store, r[j].record, y); }
    }
  }

  lemma EntryOfStored(store: seq<MemoryRecord>, entries: seq<VectorEntry>, m: Embedding,
                      digest: MemoryRecord -> string, y: MemoryRecord)
    requires Mirrors(store, entries, m, digest) && Distinct(store, RecordId) && y in store
    ensures EntryOf(y, m, digest) in entries
  {
    var k :| 0 <= k < |store| && store[k] == y;
    LookupOfDistinct(store, RecordId, k);
    assert Lookup(entries, EntryId, y.id) == Some(EntryOf(y, m, digest));
  }

  lemma StoredOnce(store: seq<MemoryRecord>, x: MemoryRecord, y: MemoryRecord)
    requires Distinct(store, RecordId) && x in store && y in store && x.id == y.id
    ensures x == y
  {
    var i :| 0 <= i < |store| && store[i] == x;
    var j :| 0 <= j < |store| && store[j] == y;
    LookupOfDistinct(store, RecordId, i);
    LookupOfDistinct(store, RecordId, j);
  }

  class HybridMemoryRetriever {
    const store: MemoryStore.InMemoryMemoryStore
    const index: InMemoryVectorMemoryIndex
    const embedding: Embedding
    const cosine: Cosine
    const ftsSearch: MemoryQuery -> seq<SearchResult>
    const ftsLimit: int
    const vectorLimit: int

    constructor (store: MemoryStore.InMemoryMemoryStore, index: InMemoryVectorMemoryIndex, m: Embedding, cosine: Cosine,
                 ftsSearch: MemoryQuery -> seq<SearchResult>, ftsLimit: int, vectorLimit: int)
      ensures this.store == store && this.index == index && this.embedding == m && this.cosine == cosine
      ensures this.ftsSearch == ftsSearch && this.ftsLimit == ftsLimit && this.vectorLimit == vectorLimit
    {
      this.store, this.index, this.embedding, this.cosine := store, index, m, cosine;
      this.ftsSearch, this.ftsLimit, this.vectorLimit := ftsSearch, ftsLimit, vectorLimit;
    }

    method Search(q: MemoryQuery) returns (r: Outcome<seq<SearchResult>, IndexError>)
      ensures r == HybridSearch(store.records, index.entries, embedding, cosine, ftsSearch, ftsLimit, vectorLimit, q)
    {
      if q.limit <= 0 { return Ok([]); }
      var fts := ftsSearch(MemoryQuery(q.text, q.actorId, q.spaceId, ftsLimit, q.kind, q.includeArchived));
      var raw := index.Search(embedding.embed(q.text), vectorLimit,
                              Some(VectorFilter(q.actorId, q.spaceId, q.kind, q.includeArchived)), cosine);
      if raw.Raised? { return Raised(raw.error); }
      var vectors := ResolveVectorResults(raw.value, q);
      var ranked := Rerank(fts, vectors, DEFAULT_WEIGHTS, q.limit);
      r := Ok(ranked);
    }

    method ResolveVectorResults(raw: seq<VectorHit>, q: MemoryQuery) returns (r: seq<SearchResult>)
      ensures r == Resolve(raw, store.records, q)
    {
      r := [];
      var i := 0;
      while i < |raw|
        invariant i <= |raw| && r + Resolve(raw[i..], store.records, q) == Resolve(raw, store.records, q)
      {
        ghost var rest := raw[i..];
        assert rest[0] == raw[i] && rest[1..] == raw[i + 1..];
        var record := store.Get(raw[i].memoryId);
        if record.None? {
        } else if !q.includeArchived && record.value.archived {
        } else if q.actorId.Some? && record.value.actorId != q.actorId {
        } else if q.spaceId.Some? && record.value.spaceId != q.spaceId {
        } else if q.kind.Some? && Some(record.value.kind) != q.kind {
        } else {
          r := r + [SearchResult(record.value, raw[i].score)];
        }
        i := i + 1;
      }
      assert raw[i..] == [] && r + [] == r;
    }
  }
}
