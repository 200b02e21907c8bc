/** Bounded relationship updates from appraisal signals (iris/cognitive/affect/relationship_update_policy.py,
    iris/contracts/relationship_update.py, iris/cognitive/affect/common.py). */
module RelationshipPolicy {
  import opened Prelude
  import opened PyText
  import opened Reals

  datatype SignalKind = UserEmotion | AttitudeTowardIris | TopicSentiment | CareIntent | DependencyRiskHint

  datatype InteractionScope = DirectMessage | GroupSpace

  datatype Signal = Signal(kind: SignalKind, polarity: real, confidence: real, reason: string,
                           observationId: Option<string>)

  datatype DecisionKind = AutomaticBounded | ReviewRequired | Suppressed

  datatype ReasonKind =
    | PositiveAttitude
    | NegativeAttitude
    | LowConfidenceAttitude
    | HighMagnitudeAttitude
    | ZeroDeltaAttitude
    | NonRelationshipSignal
    | DependencyRiskBoundary

  datatype Delta = Delta(affinity: real, trust: real, familiarity: real)

  datatype Bounds = Bounds(affinity: real, trust: real, familiarity: real)

  datatype Config = Config(minAutomaticConfidence: real, highMagnitudeThreshold: real, direct: Bounds, group: Bounds)

  datatype SourceRef = SourceRef(kind: SignalKind, observationId: Option<string>, eventIds: seq<string>,
                                 reason: string, confidence: real)

  datatype Candidate = Candidate(
    decision: DecisionKind,
    delta: Delta,
    bounds: Bounds,
    reasonKind: ReasonKind,
    confidence: real,
    sourceRefs: seq<SourceRef>,
    observationIds: seq<string>,
    eventIds: seq<string>,
    reviewRequired: bool)

  datatype Error = BlankEventId | InvalidDelta | InvalidCandidate

  const EPSILON: real := 0.000_000_000_001

  function MaxAbs(d: Delta): (r: real) { Max(Max(Abs(d.affinity), Abs(d.trust)), Abs(d.familiarity)) }

  predicate IsZero(d: Delta) { MaxAbs(d) <= EPSILON }

  // ----- contracts ------------------------------------------------------------------------------------

  predicate SignalValid(s: Signal) { -1.0 <= s.polarity <= 1.0 && 0.0 <= s.confidence <= 1.0 && s.reason != "" }

  predicate BoundsValid(b: Bounds) {
    && 0.0 <= b.affinity <= 1.0 && 0.0 <= b.trust <= 1.0 && 0.0 <= b.familiarity <= 1.0
    && (b.affinity > 0.0 || b.trust > 0.0 || b.familiarity > 0.0)
  }

  function Largest(b: Bounds): (r: real) { Max(Max(b.affinity, b.trust), b.familiarity) }

  predicate ConfigValid(c: Config) {
    && 0.0 <= c.minAutomaticConfidence <= 1.0 && 0.0 <= c.highMagnitudeThreshold <= 1.0
    && BoundsValid(c.direct) && BoundsValid(c.group)
    && c.group.affinity <= c.direct.affinity && c.group.trust <= c.direct.trust
    && c.group.familiarity <= c.direct.familiarity
    && c.highMagnitudeThreshold <= Max(Largest(c.direct), Largest(c.group))
  }

  predicate DeltaValid(d: Delta) {
    -1.0 <= d.affinity <= 1.0 && -1.0 <= d.trust <= 1.0 && -1.0 <= d.familiarity <= 1.0
  }

  predicate WithinBounds(d: Delta, b: Bounds) {
    Abs(d.affinity) <= b.affinity && Abs(d.trust) <= b.trust && Abs(d.familiarity) <= b.familiarity
  }

  predicate NoBlank(ids: seq<string>) { forall id :: id in ids ==> !Blank(id) }

  function ObservationsOf(refs: seq<SourceRef>): (r: seq<string>) {
    if refs == [] then []
    else (if refs[0].observationId.Some? then [refs[0].observationId.value] else []) + ObservationsOf(refs[1..])
  }

  function EventsOf(refs: seq<SourceRef>): (r: seq<string>) {
    if refs == [] then [] else refs[0].eventIds + EventsOf(refs[1..])
  }

  predicate CandidateValid(c: Candidate) {
    && 0.0 <= c.confidence <= 1.0 && c.sourceRefs != [] && NoBlank(c.eventIds)
    && WithinBounds(c.delta, c.bounds)
    && c.observationIds == ObservationsOf(c.sourceRefs) && c.eventIds == EventsOf(c.sourceRefs)
    && match c.decision
       case AutomaticBounded => !c.reviewRequired && !IsZero(c.delta)
       case ReviewRequired => c.reviewRequired && !IsZero(c.delta)
       case Suppressed => !c.reviewRequired && IsZero(c.delta)
  }

  // ----- the policy -----------------------------------------------------------------------------------

  function BoundsFor(c: Config, scope: InteractionScope): (b: Bounds) {
    if scope == DirectMessage then c.direct else c.group
  }

  /** The ratio of trust to affinity movement is the same for both signs. */
  const TRUST_RATIO: real := 1.0 / 3.0

  function AttitudeDelta(s: Signal, b: Bounds, decay: real): (d: Delta) {
    var polarity := Clamp(s.polarity, -1.0, 1.0);
    var affinity := polarity * b.affinity * s.confidence * decay;
    var trust := polarity * b.trust * TRUST_RATIO * s.confidence * decay;
    Delta(Clamp(affinity, -b.affinity, b.affinity), Clamp(trust, -b.trust, b.trust), 0.0)
  }

  function AttitudeDecision(s: Signal, d: Delta, c: Config): (k: DecisionKind) {
    if IsZero(d) then Suppressed
    else if s.confidence < c.minAutomaticConfidence then ReviewRequired
    else if MaxAbs(d) >= c.highMagnitudeThreshold then ReviewRequired
    else AutomaticBounded
  }

  function AttitudeReason(s: Signal, d: Delta, c: Config): (k: ReasonKind) {
    if IsZero(d) then ZeroDeltaAttitude
    else if s.confidence < c.minAutomaticConfidence then LowConfidenceAttitude
    else if MaxAbs(d) >= c.highMagnitudeThreshold then HighMagnitudeAttitude
    else if s.polarity >= 0.0 then PositiveAttitude
    else NegativeAttitude
  }

  function Observations(ref: SourceRef): (r: seq<string>) {
    if ref.observationId.Some? then [ref.observationId.value] else []
  }

  /** The candidate before its contract is checked. */
  function Proposed(s: Signal, b: Bounds, eventIds: seq<string>, decay: real, c: Config): (r: Candidate) {
    var ref := SourceRef(s.kind, s.observationId, eventIds, s.reason, s.confidence);
    if s.kind != AttitudeTowardIris then
      var reason := if s.kind == DependencyRiskHint then DependencyRiskBoundary else NonRelationshipSignal;
      Candidate(Suppressed, Delta(0.0, 0.0, 0.0), b, reason, s.confidence, [ref], Observations(ref), ref.eventIds,
                false)
    else
      var delta := AttitudeDelta(s, b, decay);
      var decision := AttitudeDecision(s, delta, c);
      Candidate(decision, delta, b, AttitudeReason(s, delta, c), s.confidence, [ref], Observations(ref), ref.eventIds,
                decision == ReviewRequired)
  }

  /** The source reference is built first and rejects blank event ids; then the delta and the candidate are checked. */
  function CandidateForSignal(s: Signal, b: Bounds, eventIds: seq<string>, decay: real,
                              c: Config): (r: Outcome<Candidate, Error>) {
    var proposed := Proposed(s, b, eventIds, decay, c);
    if !NoBlank(eventIds) then Raised(BlankEventId)
    else if !DeltaValid(proposed.delta) then Raised(InvalidDelta)
    else if !CandidateValid(proposed) then Raised(InvalidCandidate)
    else Ok(proposed)
  }

  function Candidates(signals: seq<Signal>, b: Bounds, eventIds: seq<string>, decay: real,
                      c: Config): (r: Outcome<seq<Candidate>, Error>) {
    if signals == [] then Ok([])
    else
      var one := CandidateForSignal(signals[0], b, eventIds, decay, c);
      if one.Raised? then Raised(one.error)
      else
        var rest := Candidates(signals[1..], b, eventIds, decay, c);
        if rest.Raised? then rest else Ok([one.value] + rest.value)
  }

  function Compute(signals: seq<Signal>, scope: InteractionScope, eventIds: seq<string>, decay: real, c: Config)
    : (r: Outcome<seq<Candidate>, Error>)
  {
    Candidates(signals, BoundsFor(c, scope), eventIds, Clamp(decay, 0.0, 1.0), c)
  }

  // ----- the delta ------------------------------------------------------------------------------------

  /** A bound scaled by a polarity, a confidence and a decay. */
  function Weighted(p: real, m: real, c: real, d: real): (r: real) { Times(Times(Times(p, m), c), d) }

  lemma WeightedWithin(p: real, m: real, c: real, d: real)
    requires -1.0 <= p <= 1.0 && 0.0 <= m && 0.0 <= c <= 1.0 && 0.0 <= d <= 1.0
    ensures Abs(Weighted(p, m, c, d)) <= m
    ensures p >= 0.0 ==> Weighted(p, m, c, d) >= 0.0
    ensures p <= 0.0 ==> Weighted(p, m, c, d) <= 0.0
  {
    PolarityScales(p, m);
    TwiceScaled(Times(p, m), c, d);
    assert Weighted(p, m, c, d) == Times(Times(Times(p, m), c), d);
  }

  lemma TwiceScaled(x: real, c: real, d: real)
    requires 0.0 <= c <= 1.0 && 0.0 <= d <= 1.0
    ensures x >= 0.0 ==> 0.0 <= Times(Times(x, c), d) <= x
    ensures x <= 0.0 ==> x <= Times(Times(x, c), d) <= 0.0
  {
    Scaled(x, c);
    Scaled(Times(x, c), d);
  }

  lemma PolarityScales(p: real, m: real)
    requires -1.0 <= p <= 1.0 && 0.0 <= m
    ensures p >= 0.0 ==> 0.0 <= Times(p, m) <= m
    ensures p <= 0.0 ==> -m <= Times(p, m) <= 0.0
  {
    if p >= 0.0 {
      Scaled(m, p);
      assert m * p == p * m;
    } else {
      Scaled(m, -p);
      assert m * -p == -(p * m);
    }
  }

  lemma TrustWeighted(p: real, m: real, c: real, d: real)
    ensures p * m * TRUST_RATIO * c * d == Weighted(p, m, c, d) / 3.0
  {
    var x := p * m;
    assert x * TRUST_RATIO == x / 3.0;
    assert x / 3.0 * c == x * c / 3.0;
    assert x * c / 3.0 * d == x * c * d / 3.0;
  }

  lemma ClampIdle(x: real, m: real)
    requires Abs(x) <= m
    ensures Clamp(x, -m, m) == x
  {
  }

  /** The caps never act: the delta is the weighted bound itself, with a third of it for trust. */
  lemma CapsNeverAct(s: Signal, b: Bounds, decay: real)
    requires SignalValid(s) && BoundsValid(b) && 0.0 <= decay <= 1.0
    ensures AttitudeDelta(s, b, decay) ==
            Delta(Weighted(s.polarity, b.affinity, s.confidence, decay),
                  Weighted(s.polarity, b.trust, s.confidence, decay) / 3.0, 0.0)
  {
    WeightedWithin(s.polarity, b.affinity, s.confidence, decay);
    WeightedWithin(s.polarity, b.trust, s.confidence, decay);
    TrustWeighted(s.polarity, b.trust, s.confidence, decay);
    ClampIdle(Weighted(s.polarity, b.affinity, s.confidence, decay), b.affinity);
    ClampIdle(Weighted(s.polarity, b.trust, s.confidence, decay) / 3.0, b.trust);
    assert Clamp(s.polarity, -1.0, 1.0) == s.polarity;
  }

  lemma DeltaBounded(s: Signal, b: Bounds, decay: real)
    requires SignalValid(s) && BoundsValid(b) && 0.0 <= decay <= 1.0
    ensures var d := AttitudeDelta(s, b, decay);
            && Abs(d.affinity) <= b.affinity && Abs(d.trust) <= b.trust / 3.0 && d.familiarity == 0.0
            && (s.polarity >= 0.0 ==> d.affinity >= 0.0 && d.trust >= 0.0)
            && (s.polarity <= 0.0 ==> d.affinity <= 0.0 && d.trust <= 0.0)
  {
    CapsNeverAct(s, b, decay);
    WeightedWithin(s.polarity, b.affinity, s.confidence, decay);
    WeightedWithin(s.polarity, b.trust, s.confidence, decay);
  }

  /** Decisions and reasons that belong together. */
  ghost predicate Corresponds(c: Candidate) {
    && (c.decision == AutomaticBounded <==> c.reasonKind in {PositiveAttitude, NegativeAttitude})
    && (c.decision == ReviewRequired <==> c.reasonKind in {LowConfidenceAttitude, HighMagnitudeAttitude})
    && (c.decision == Suppressed <==>
        c.reasonKind in {ZeroDeltaAttitude, NonRelationshipSignal, DependencyRiskBoundary})
    && (c.reasonKind == PositiveAttitude ==> c.delta.affinity >= 0.0 && c.delta.trust >= 0.0)
    && (c.reasonKind == NegativeAttitude ==> c.delta.affinity <= 0.0 && c.delta.trust <= 0.0)
  }

  /** Affinity and trust never move in opposite directions. */
  ghost predicate SameSign(d: Delta) {
    (d.affinity >= 0.0 && d.trust >= 0.0) || (d.affinity <= 0.0 && d.trust <= 0.0)
  }

  lemma ProposedSound(s: Signal, b: Bounds, eventIds: seq<string>, decay: real, c: Config)
    requires SignalValid(s) && BoundsValid(b) && 0.0 <= decay <= 1.0 && NoBlank(eventIds)
    ensures CandidateForSignal(s, b, eventIds, decay, c) == Ok(Proposed(s, b, eventIds, decay, c))
    ensures var p := Proposed(s, b, eventIds, decay, c); CandidateValid(p) && Corresponds(p) && SameSign(p.delta)
  {
    var p := Proposed(s, b, eventIds, decay, c);
    assert p.sourceRefs[1..] == [];
    assert EventsOf(p.sourceRefs) == eventIds + [] == eventIds;
    assert ObservationsOf(p.sourceRefs) == p.observationIds + [] == p.observationIds;
    DeltaBounded(s, b, decay);
  }

  function Bounded(decay: real): (d: real) { if decay < 0.0 then 0.0 else if decay > 1.0 then 1.0 else decay }

  ghost predicate Tiny(x: real) { -0.000_000_000_001 <= x <= 0.000_000_000_001 }

  ghost predicate Reaches(x: real, threshold: real) { x >= threshold || x <= -threshold }

  /** The candidate for an attitude: the polarity times bound, confidence and decay, with a third of it for trust;
      suppressed when that is nothing, for review when the confidence is low or the movement large. */
  ghost predicate Moves(a: Candidate, s: Signal, b: Bounds, decay: real, c: Config) {
    var none := Tiny(a.delta.affinity) && Tiny(a.delta.trust);
    var large :=
      Reaches(a.delta.affinity, c.highMagnitudeThreshold) || Reaches(a.delta.trust, c.highMagnitudeThreshold);
    var unsure := s.confidence < c.minAutomaticConfidence;
    && a.delta.affinity == s.polarity * b.affinity * s.confidence * decay
    && a.delta.trust * 3.0 == s.polarity * b.trust * s.confidence * decay
    && a.delta.familiarity == 0.0
    && (a.decision == Suppressed <==> none)
    && (a.decision == ReviewRequired <==> !none && (unsure || large))
    && (a.reviewRequired <==> a.decision == ReviewRequired)
    && a.reasonKind == (if none then ZeroDeltaAttitude else if unsure then LowConfidenceAttitude
                        else if large then HighMagnitudeAttitude
                        else if s.polarity >= 0.0 then PositiveAttitude else NegativeAttitude)
  }

  /** The candidate for any other signal: nothing moves. */
  ghost predicate Rests(a: Candidate, s: Signal) {
    && a.delta == Delta(0.0, 0.0, 0.0) && a.decision == Suppressed && !a.reviewRequired
    && a.reasonKind == (if s.kind == DependencyRiskHint then DependencyRiskBoundary else NonRelationshipSignal)
  }

  /** The right candidate for a signal under some bounds. */
  ghost predicate Answers(a: Candidate, s: Signal, b: Bounds, eventIds: seq<string>, decay: real, c: Config) {
    && a.bounds == b && a.confidence == s.confidence && a.eventIds == eventIds
    && a.sourceRefs == [SourceRef(s.kind, s.observationId, eventIds, s.reason, s.confidence)]
    && a.observationIds == (if s.observationId.Some? then [s.observationId.value] else [])
    && if s.kind == AttitudeTowardIris then Moves(a, s, b, decay, c) else Rests(a, s)
  }

  lemma ProposedMoves(s: Signal, b: Bounds, eventIds: seq<string>, decay: real, c: Config)
    requires SignalValid(s) && BoundsValid(b) && 0.0 <= decay <= 1.0 && 0.0 <= c.highMagnitudeThreshold
    requires s.kind == AttitudeTowardIris
    ensures Moves(Proposed(s, b, eventIds, decay, c), s, b, decay, c)
  {
    CapsNeverAct(s, b, decay);
    var d, x := AttitudeDelta(s, b, decay), Weighted(s.polarity, b.trust, s.confidence, decay);
    assert x == s.polarity * b.trust * s.confidence * decay;
    assert Weighted(s.polarity, b.affinity, s.confidence, decay) == s.polarity * b.affinity * s.confidence * decay;
    assert x / 3.0 * 3.0 == x;
    LargeIff(d, c.highMagnitudeThreshold);
  }

  lemma LargeIff(d: Delta, threshold: real)
    requires d.familiarity == 0.0 && 0.0 <= threshold
    ensures MaxAbs(d) >= threshold <==> Reaches(d.affinity, threshold) || Reaches(d.trust, threshold)
    ensures IsZero(d) <==> Tiny(d.affinity) && Tiny(d.trust)
  {
  }

  /** For every valid configuration and signal list the policy answers with one candidate per signal, each passing
      every check, exactly when no event id is blank. */
  lemma OneCandidatePerSignal(signals: seq<Signal>, scope: InteractionScope, eventIds: seq<string>, decay: real,
                              c: Config)
    requires ConfigValid(c) && forall s :: s in signals ==> SignalValid(s)
    ensures Compute(signals, scope, eventIds, decay, c).Ok? <==> signals == [] || NoBlank(eventIds)
    ensures Compute(signals, scope, eventIds, decay, c).Ok? ==>
              var r := Compute(signals, scope, eventIds, decay, c).value;
              && |r| == |signals|
              && forall i :: 0 <= i < |r| ==>
                   && r[i] == Proposed(signals[i], BoundsFor(c, scope), eventIds, Clamp(decay, 0.0, 1.0), c)
                   && Answers(r[i], signals[i], if scope == DirectMessage then c.direct else c.group, eventIds,
                              Bounded(decay), c)
                   && CandidateValid(r[i]) && Corresponds(r[i]) && SameSign(r[i].delta)
  {
    AllSound(signals, BoundsFor(c, scope), eventIds, Clamp(decay, 0.0, 1.0), c);
    assert Clamp(decay, 0.0, 1.0) == Bounded(decay);
    forall i | 0 <= i < |signals| && signals[i].kind == AttitudeTowardIris
      ensures Moves(Proposed(signals[i], BoundsFor(c, scope), eventIds, Bounded(decay), c), signals[i],
                    BoundsFor(c, scope), Bounded(decay), c)
    {
      assert signals[i] in signals;
      ProposedMoves(signals[i], BoundsFor(c, scope), eventIds, Bounded(decay), c);
    }
  }

  lemma {:induction false} AllSound(signals: seq<Signal>, b: Bounds, eventIds: seq<string>, decay: real, c: Config)
    requires BoundsValid(b) && 0.0 <= decay <= 1.0 && forall s :: s in signals ==> SignalValid(s)
    ensures Candidates(signals, b, eventIds, decay, c).Ok? <==> signals == [] || NoBlank(eventIds)
    ensures Candidates(signals, b, eventIds, decay, c).Ok? ==>
              var r := Candidates(signals, b, eventIds, decay, c).value;
              && |r| == |signals|
              && forall i :: 0 <= i < |r| ==>
                   && r[i] == Proposed(signals[i], b, eventIds, decay, c)
                   && CandidateValid(r[i]) && Corresponds(r[i]) && SameSign(r[i].delta)
  {
    if signals != [] {
      assert SignalValid(signals[0]);
      AllSound(signals[1..], b, eventIds, decay, c);
      if NoBlank(eventIds) { ProposedSound(signals[0], b, eventIds, decay, c); }
    }
  }

  // ----- direct messages and groups -------------------------------------------------------------------

  lemma SmallerBound(p: real, m: real, n: real, c: real, d: real)
    requires -1.0 <= p <= 1.0 && 0.0 <= m <= n && 0.0 <= c <= 1.0 && 0.0 <= d <= 1.0
    ensures Abs(Weighted(p, m, c, d)) <= Abs(Weighted(p, n, c, d))
  {
    WeightedWithin(p, m, c, d);
    WeightedWithin(p, n, c, d);
    WeightedWithin(p, n - m, c, d);
    WeightedSum(p, m, n - m, c, d);
  }

  lemma WeightedSum(p: real, m: real, n: real, c: real, d: real)
    ensures Weighted(p, m + n, c, d) == Weighted(p, m, c, d) + Weighted(p, n, c, d)
  {
    var x, y := p * m, p * n;
    assert p * (m + n) == x + y;
    assert (x + y) * c == x * c + y * c;
    assert (x * c + y * c) * d == x * c * d + y * c * d;
  }

  lemma GroupDeltaSmaller(s: Signal, decay: real, c: Config)
    requires ConfigValid(c) && SignalValid(s) && 0.0 <= decay <= 1.0
    ensures var g, d := AttitudeDelta(s, c.group, decay), AttitudeDelta(s, c.direct, decay);
            Abs(g.affinity) <= Abs(d.affinity) && Abs(g.trust) <= Abs(d.trust) && g.familiarity == d.familiarity == 0.0
  {
    CapsNeverAct(s, c.group, decay);
    CapsNeverAct(s, c.direct, decay);
    SmallerBound(s.polarity, c.group.affinity, c.direct.affinity, s.confidence, decay);
    SmallerBound(s.polarity, c.group.trust, c.direct.trust, s.confidence, decay);
  }

  lemma SmallerDecision(s: Signal, g: Delta, d: Delta, c: Config)
    requires MaxAbs(g) <= MaxAbs(d)
    ensures AttitudeDecision(s, d, c) == Suppressed ==> AttitudeDecision(s, g, c) == Suppressed
    ensures AttitudeDecision(s, d, c) == AutomaticBounded ==>
            AttitudeDecision(s, g, c) in {AutomaticBounded, Suppressed}
    ensures AttitudeReason(s, g, c) == HighMagnitudeAttitude ==> AttitudeReason(s, d, c) == HighMagnitudeAttitude
  {
  }

  /** In a group no component moves more than it would in a direct message, at whatever decay; and a group is never
      asked for a high-magnitude review that a direct message would not need. */
  lemma GroupNoLarger(s: Signal, eventIds: seq<string>, decay: real, c: Config)
    requires ConfigValid(c) && SignalValid(s)
    ensures var bounded := Clamp(decay, 0.0, 1.0);
            var g, d := Proposed(s, c.group, eventIds, bounded, c), Proposed(s, c.direct, eventIds, bounded, c);
            && Abs(g.delta.affinity) <= Abs(d.delta.affinity) && Abs(g.delta.trust) <= Abs(d.delta.trust)
            && g.delta.familiarity == d.delta.familiarity == 0.0
            && (d.decision == Suppressed ==> g.decision == Suppressed)
            && (d.decision == AutomaticBounded ==> g.decision in {AutomaticBounded, Suppressed})
            && (g.reasonKind == HighMagnitudeAttitude ==> d.reasonKind == HighMagnitudeAttitude)
  {
    var bounded := Clamp(decay, 0.0, 1.0);
    GroupDeltaSmaller(s, bounded, c);
    SmallerDecision(s, AttitudeDelta(s, c.group, bounded), AttitudeDelta(s, c.direct, bounded), c);
  }

  /** So the same signals in a group and in a direct message: both are answered or neither is, and in the group nothing
      moves more, nothing suppressed starts to move, and no review for magnitude is added. */
  lemma GroupComputesNoLarger(signals: seq<Signal>, eventIds: seq<string>, decay: real, c: Config)
    requires ConfigValid(c) && forall s :: s in signals ==> SignalValid(s)
    ensures var g := Compute(signals, GroupSpace, eventIds, decay, c);
            var d := Compute(signals, DirectMessage, eventIds, decay, c);
            && (g.Ok? <==> d.Ok?)
            && (g.Ok? ==>
                  && |g.value| == |d.value| == |signals|
                  && forall i :: 0 <= i < |signals| ==>
                       && Abs(g.value[i].delta.affinity) <= Abs(d.value[i].delta.affinity)
                       && Abs(g.value[i].delta.trust) <= Abs(d.value[i].delta.trust)
                       && g.value[i].delta.familiarity == d.value[i].delta.familiarity == 0.0
                       && (d.value[i].decision == Suppressed ==> g.value[i].decision == Suppressed)
                       && (g.value[i].reasonKind == HighMagnitudeAttitude ==>
                             d.value[i].reasonKind == HighMagnitudeAttitude))
  {
    OneCandidatePerSignal(signals, GroupSpace, eventIds, decay, c);
    OneCandidatePerSignal(signals, DirectMessage, eventIds, decay, c);
    forall i | 0 <= i < |signals| ensures SignalValid(signals[i]) { assert signals[i] in signals; }
    var bounded := Clamp(decay, 0.0, 1.0);
    forall i | 0 <= i < |signals|
      ensures var g, d := Proposed(signals[i], c.group, eventIds, bounded, c),
                          Proposed(signals[i], c.direct, eventIds, bounded, c);
              && Abs(g.delta.affinity) <= Abs(d.delta.affinity) && Abs(g.delta.trust) <= Abs(d.delta.trust)
              && g.delta.familiarity == d.delta.familiarity == 0.0
              && (d.decision == Suppressed ==> g.decision == Suppressed)
              && (g.reasonKind == HighMagnitudeAttitude ==> d.reasonKind == HighMagnitudeAttitude)
    {
      GroupNoLarger(signals[i], eventIds, decay, c);
    }
  }

  // ----- the reach of the review threshold ------------------------------------------------------------

  /** The largest movement a signal can cause under some bounds. */
  function Reach(b: Bounds): (r: real) { Max(b.affinity, b.trust / 3.0) }

  lemma WithinReach(s: Signal, b: Bounds, decay: real)
    requires SignalValid(s) && BoundsValid(b) && 0.0 <= decay <= 1.0
    ensures MaxAbs(AttitudeDelta(s, b, decay)) <= Reach(b)
  {
    DeltaBounded(s, b, decay);
  }

  function Strongest(): (s: Signal) { Signal(AttitudeTowardIris, 1.0, 1.0, "x", None) }

  lemma StrongestReaches(b: Bounds)
    requires BoundsValid(b)
    ensures MaxAbs(AttitudeDelta(Strongest(), b, 1.0)) == Reach(b)
  {
    CapsNeverAct(Strongest(), b, 1.0);
    assert Weighted(1.0, b.affinity, 1.0, 1.0) == b.affinity && Weighted(1.0, b.trust, 1.0, 1.0) == b.trust;
  }

  ghost predicate HeldForMagnitude(s: Signal, decay: real, b: Bounds, c: Config) {
    SignalValid(s) && 0.0 <= decay <= 1.0 && Proposed(s, b, [], decay, c).reasonKind == HighMagnitudeAttitude
  }

  /** Some valid signal is held back for its magnitude. */
  ghost predicate MagnitudeReviewReachable(b: Bounds, c: Config) {
    exists s: Signal, decay: real :: HeldForMagnitude(s, decay, b, c)
  }

  /** The configuration check compares the review threshold with the configured bounds, but trust moves by at
      most a third of its bound and familiarity not at all: the review can happen exactly when the threshold is
      within that smaller reach, which a valid configuration need not grant. */
  lemma MagnitudeReviewIff(b: Bounds, c: Config)
    requires ConfigValid(c) && BoundsValid(b)
    ensures MagnitudeReviewReachable(b, c) <==> c.highMagnitudeThreshold <= Reach(b) && Reach(b) > EPSILON
  {
    if MagnitudeReviewReachable(b, c) {
      var s: Signal, decay: real :| HeldForMagnitude(s, decay, b, c);
      WithinReach(s, b, decay);
    }
    if c.highMagnitudeThreshold <= Reach(b) && Reach(b) > EPSILON {
      StrongestReaches(b);
      assert HeldForMagnitude(Strongest(), 1.0, b, c);
    }
  }

  /** A valid configuration whose review threshold no signal can reach. */
  lemma UnreachableThreshold()
    ensures exists c ::
              ConfigValid(c) && !MagnitudeReviewReachable(c.direct, c) && !MagnitudeReviewReachable(c.group, c)
  {
    var b := Bounds(0.01, 0.03, 0.0);
    var c := Config(0.75, 0.03, b, b);
    assert ConfigValid(c);
    MagnitudeReviewIff(b, c);
  }
}
