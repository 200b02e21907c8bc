/** Admission of interaction-policy candidates (iris/cognitive/policy/interaction_policy_candidates.py). */
module InteractionPolicy {
  import opened Prelude
  import opened Ordering
  import opened KeyedSeq
  import opened Grouping
  import opened Dedupe
  import opened Reals
  import opened PyText

  /** In the order of the enum's string values. */
  datatype PolicyKind = Initiative | Tone | Verbosity

  /** In the order of the enum's string values. */
  datatype SourceKind = ExplicitFeedback | ImplicitRepeatedSignal | ModelClassifier

  datatype DecisionKind = ReviewRequired | Suppressed

  datatype Signal = Signal(
    policyKind: PolicyKind,
    value: string,
    source: SourceKind,
    eventId: string,
    confidence: real,
    reason: string,
    occurredAt: real,
    highRisk: bool,
    modelMetadata: map<string, string>)

  datatype Scope = Scope(accountId: string, spaceId: Option<string>, actorId: Option<string>)

  /** The four sentences a candidate may carry; none of them is blank. */
  datatype Reason = HighRiskSuppressed | ExplicitHasPriority | RepeatedImplicit(count: nat) | BoundedClassifier

  datatype Candidate = Candidate(
    policyKind: PolicyKind,
    value: string,
    scope: Scope,
    decision: DecisionKind,
    sourceKinds: seq<SourceKind>,
    evidenceCount: nat,
    sourceEventIds: seq<string>,
    confidence: real,
    reason: Reason,
    reviewRequired: bool,
    highRisk: bool,
    modelMetadata: map<string, string>)

  datatype Thresholds = Thresholds(minEvidence: int, minConfidence: real)

  datatype Error = MinEvidenceNotPositive | MinConfidenceOutOfRange | InvalidCandidate

  /** The signal contract, enforced when a signal is made. */
  predicate SignalValid(s: Signal) {
    && |s.value| <= 160 && !Blank(s.value) && !Blank(s.eventId) && !Blank(s.reason)
    && 0.0 <= s.confidence <= 1.0
  }

  /** The candidate contract. */
  predicate CandidateValid(c: Candidate) {
    && 1 <= |c.value| <= 160 && !Blank(c.value)
    && c.sourceKinds != [] && c.evidenceCount >= 1 && c.sourceEventIds != []
    && 0.0 <= c.confidence <= 1.0
    && (forall id :: id in c.sourceEventIds ==> !Blank(id))
    && c.evidenceCount == |c.sourceEventIds|
    && c.reviewRequired
    && (c.decision == Suppressed ==> c.highRisk)
  }

  predicate ThresholdsValid(t: Thresholds) { t.minEvidence >= 1 && 0.0 <= t.minConfidence <= 1.0 }

  // ----- keys and evidence ---------------------------------------------------------------------------

  datatype Key = Key(kind: PolicyKind, value: string)

  function KeyOf(s: Signal): (k: Key) { Key(s.policyKind, Strip(s.value)) }

  function CandidateKey(c: Candidate): (k: Key) { Key(c.policyKind, c.value) }

  function Itself(k: Key): (r: Key) { k }

  function EventId(s: Signal): (id: string) { s.eventId }

  function KindRank(k: PolicyKind): (n: nat) {
    match k
    case Initiative => 0
    case Tone => 1
    case Verbosity => 2
  }

  predicate KeyLeq(a: Key, b: Key) {
    KindRank(a.kind) < KindRank(b.kind) || (a.kind == b.kind && LexLeq(a.value, b.value))
  }

  predicate SignalLeq(a: Signal, b: Signal) {
    a.occurredAt < b.occurredAt || (a.occurredAt == b.occurredAt && LexLeq(a.eventId, b.eventId))
  }

  lemma KeyOrder()
    ensures OrdersById(KeyLeq, Itself)
  {
    LexOrder();
  }

  lemma SignalOrder()
    ensures OrdersById(SignalLeq, EventId)
  {
    LexOrder();
  }

  function HasKey(k: Key): (p: Signal -> bool) { (s: Signal) => KeyOf(s) == k }

  /** `_unique_signals`: one signal per event id, the last, in order of time. */
  function UniqueSignals(members: seq<Signal>): (r: seq<Signal>) { SortBy(PutAll([], EventId, members), SignalLeq) }

  /** The evidence for a policy value: its deduplicated signals. */
  function Evidence(signals: seq<Signal>, k: Key): (r: seq<Signal>) { Deduped(signals, HasKey(k), EventId, SignalLeq) }

  /** The keys present, in sorted order. */
  function SortedKeys(signals: seq<Signal>): (r: seq<Key>) {
    SortBy(Keys(GroupAll([], KeyOf, signals), GroupKey), KeyLeq)
  }

  lemma {:induction false} MembersAreFiltered(signals: seq<Signal>, k: Key)
    ensures MembersOf(signals, KeyOf, k) == Filter(signals, HasKey(k))
  {
    if signals != [] { MembersAreFiltered(signals[1..], k); }
  }

  /** The signal is about this kind of policy and this value, spaces around it aside. */
  ghost predicate Concerns(s: Signal, k: Key) { s.policyKind == k.kind && Strip(s.value) == k.value }

  /** By time of occurrence, and at one time by event id. */
  ghost predicate InTime(e: seq<Signal>) {
    forall i, j :: 0 <= i < j < |e| ==>
      && e[i].occurredAt <= e[j].occurredAt
      && (e[i].occurredAt == e[j].occurredAt ==> LexLeq(e[i].eventId, e[j].eventId))
  }

  lemma TimeOrdered(e: seq<Signal>)
    requires SortedBy(e, SignalLeq)
    ensures InTime(e)
  {
    assert forall i, j :: 0 <= i < j < |e| ==> SignalLeq(e[i], e[j]);
  }

  /** The evidence for a key: its last signal per event, nothing else, each event once. */
  lemma EvidenceSpec(signals: seq<Signal>, k: Key)
    ensures var e := Evidence(signals, k);
            && Distinct(e, EventId) && InTime(e)
            && (forall s :: s in e <==> Last(Filter(signals, HasKey(k)), EventId, s.eventId) == Some(s))
            && (forall s :: s in e ==> s in signals && Concerns(s, k))
            && (e != [] <==> exists s :: s in signals && Concerns(s, k))
  {
    SignalOrder();
    DedupedSpec(signals, HasKey(k), EventId, SignalLeq);
    var e, kept := Evidence(signals, k), Filter(signals, HasKey(k));
    TimeOrdered(e);
    assert forall s :: s in e ==> s in kept;
    if e != [] { assert e[0] in e; }
    if s :| s in signals && Concerns(s, k) {
      assert KeyOf(s) == k && s in kept;
      assert Last(kept, EventId, s.eventId).value in e;
    }
  }

  lemma KeyPresentIff(signals: seq<Signal>, k: Key)
    ensures k in Keys(GroupAll([], KeyOf, signals), GroupKey) <==> exists s :: s in signals && KeyOf(s) == k
  {
    var dict := GroupAll([], KeyOf, signals);
    var keys := Keys(dict, GroupKey);
    if k in keys {
      var i :| 0 <= i < |keys| && keys[i] == k;
      GroupContents(signals, KeyOf, dict[i]);
      MembersSpec(signals, KeyOf, k);
      assert dict[i].members[0] in dict[i].members;
    }
    if s :| s in signals && KeyOf(s) == k {
      var g := GroupExists(signals, KeyOf, s);
      var i :| 0 <= i < |dict| && dict[i] == g;
      assert keys[i] == k;
    }
  }

  lemma KeysDistinct(signals: seq<Signal>)
    ensures Distinct(Keys(GroupAll([], KeyOf, signals), GroupKey), Itself)
  {
    var dict := GroupAll([], KeyOf, signals);
    var keys := Keys(dict, GroupKey);
    GroupAllSpec([], KeyOf, signals, Key(Tone, ""));
    forall i, j | 0 <= i < j < |keys| ensures Itself(keys[i]) != Itself(keys[j]) {
      assert GroupKey(dict[i]) != GroupKey(dict[j]);
    }
  }

  lemma SortedKeysSpec(signals: seq<Signal>)
    ensures Distinct(SortedKeys(signals), Itself) && SortedBy(SortedKeys(signals), KeyLeq)
    ensures forall k :: k in SortedKeys(signals) <==> exists s :: s in signals && KeyOf(s) == k
  {
    var keys := Keys(GroupAll([], KeyOf, signals), GroupKey);
    KeyOrder();
    SortBySorted(keys, KeyLeq);
    KeysDistinct(signals);
    SortByDistinct(keys, KeyLeq, Itself);
    forall k ensures k in SortedKeys(signals) <==> exists s :: s in signals && KeyOf(s) == k {
      SortByElements(keys, KeyLeq, k);
      KeyPresentIff(signals, k);
    }
  }

  // ----- the decision for one group -------------------------------------------------------------------

  function Confidence(x: Signal): (c: real) { x.confidence }

  predicate AnyExplicit(e: seq<Signal>) { exists s :: s in e && s.source == ExplicitFeedback }

  predicate AllImplicit(e: seq<Signal>) { forall s :: s in e ==> s.source == ImplicitRepeatedSignal }

  predicate AnyHighRisk(e: seq<Signal>) { exists s :: s in e && s.highRisk }

  /** The kinds of source present, in sorted order. */
  function SourceKinds(e: seq<Signal>): (r: seq<SourceKind>) {
    (if HasSource(e, ExplicitFeedback) then [ExplicitFeedback] else []) +
    (if HasSource(e, ImplicitRepeatedSignal) then [ImplicitRepeatedSignal] else []) +
    (if HasSource(e, ModelClassifier) then [ModelClassifier] else [])
  }

  predicate HasSource(e: seq<Signal>, k: SourceKind) { exists s :: s in e && s.source == k }

  /** Explicit feedback before repeated signals before the classifier, each at most once. */
  ghost predicate InNameOrder(ks: seq<SourceKind>) {
    forall i, j :: 0 <= i < j < |ks| ==>
      ks[i] != ks[j] && ks[j] != ExplicitFeedback && ks[i] != ModelClassifier
  }

  lemma SourceKindsSpec(e: seq<Signal>)
    ensures forall k :: k in SourceKinds(e) <==> HasSource(e, k)
    ensures InNameOrder(SourceKinds(e))
  {
  }

  /** `_merge_metadata`: later signals overwrite earlier ones. */
  function MergedMetadata(e: seq<Signal>): (m: map<string, string>) {
    if e == [] then map[] else MergedMetadata(e[..|e| - 1]) + e[|e| - 1].modelMetadata
  }

  function CandidateReason(e: seq<Signal>): (r: Reason) {
    if AnyHighRisk(e) then HighRiskSuppressed
    else if ExplicitFeedback in SourceKinds(e) then ExplicitHasPriority
    else if ImplicitRepeatedSignal in SourceKinds(e) then RepeatedImplicit(|e|)
    else BoundedClassifier
  }

  function Build(e: seq<Signal>, scope: Scope): (c: Candidate)
    requires e != []
  {
    Candidate(
      e[0].policyKind, Strip(e[0].value), scope, if AnyHighRisk(e) then Suppressed else ReviewRequired,
      SourceKinds(e), |e|, Keys(e, EventId), MaxOver(e, Confidence), CandidateReason(e), true, AnyHighRisk(e),
      MergedMetadata(e))
  }

  /** `_candidate_for_group`, with the contract checked on the candidate it makes. */
  function CandidateForGroup(e: seq<Signal>, scope: Scope, t: Thresholds): (r: Outcome<Option<Candidate>, Error>)
    requires e != []
  {
    if !AnyExplicit(e) && AllImplicit(e) && (|e| < t.minEvidence || MinOver(e, Confidence) < t.minConfidence)
    then Ok(None)
    else if !AnyExplicit(e) && !AllImplicit(e) && MaxOver(e, Confidence) < t.minConfidence then Ok(None)
    else
      var c := Build(e, scope);
      if CandidateValid(c) then Ok(Some(c)) else Raised(InvalidCandidate)
  }

  /** The admission rule, said of the evidence itself. */
  ghost predicate Admitted(e: seq<Signal>, t: Thresholds) {
    || (exists s :: s in e && s.source == ExplicitFeedback)
    || (&& e != [] && |e| >= t.minEvidence
        && forall s :: s in e ==> s.source == ImplicitRepeatedSignal && s.confidence >= t.minConfidence)
    || (&& (exists s :: s in e && s.source == ModelClassifier)
        && (exists s :: s in e && s.confidence >= t.minConfidence))
  }

  /** On valid evidence for one key the contract check always passes, and a candidate is made exactly when the
      admission rule holds. */
  lemma GroupDecided(e: seq<Signal>, k: Key, scope: Scope, t: Thresholds)
    requires e != [] && forall s :: s in e ==> SignalValid(s) && KeyOf(s) == k
    ensures CandidateForGroup(e, scope, t) == Ok(if Admitted(e, t) then Some(Build(e, scope)) else None)
    ensures CandidateKey(Build(e, scope)) == k && CandidateValid(Build(e, scope))
  {
    assert e[0] in e;
    var c := Build(e, scope);
    StripIdempotent(e[0].value);
    SourceKindsSpec(e);
    assert HasSource(e, e[0].source);
    MaxOverSpec(e, Confidence);
    forall id | id in c.sourceEventIds ensures !Blank(id) {
      var i :| 0 <= i < |e| && c.sourceEventIds[i] == id;
      assert e[i] in e;
    }
    assert CandidateValid(c);
    RuleDecides(e, t);
  }

  lemma RuleDecides(e: seq<Signal>, t: Thresholds)
    requires e != []
    ensures Admitted(e, t) <==>
            && !(!AnyExplicit(e) && AllImplicit(e) && (|e| < t.minEvidence || MinOver(e, Confidence) < t.minConfidence))
            && !(!AnyExplicit(e) && !AllImplicit(e) && MaxOver(e, Confidence) < t.minConfidence)
  {
    MaxOverSpec(e, Confidence);
    MinOverSpec(e, Confidence);
    if !AnyExplicit(e) {
      if AllImplicit(e) {
        assert MinOver(e, Confidence) >= t.minConfidence <==> forall s :: s in e ==> s.confidence >= t.minConfidence;
        assert e[0] in e;
      } else {
        var s :| s in e && s.source != ImplicitRepeatedSignal;
        assert s.source == ModelClassifier;
      }
    }
  }

  // ----- the whole admission --------------------------------------------------------------------------

  type Verdict = Outcome<Option<Candidate>, Error>

  /** The loop over the keys, with what is decided for each of them. */
  function Collect(keys: seq<Key>, decide: Key -> Verdict): (r: Outcome<seq<Candidate>, Error>) {
    if keys == [] then Ok([])
    else
      var one := decide(keys[0]);
      if one.Raised? then Raised(one.error)
      else
        var rest := Collect(keys[1..], decide);
        if one.value.Some? then Prepend([one.value.value], rest) else rest
  }

  function Prepend(cs: seq<Candidate>, r: Outcome<seq<Candidate>, Error>): (o: Outcome<seq<Candidate>, Error>) {
    if r.Ok? then Ok(cs + r.value) else r
  }

  function Decide(e: seq<Signal>, scope: Scope, t: Thresholds): (v: Verdict) {
    if e == [] then Ok(None) else CandidateForGroup(e, scope, t)
  }

  function Decider(signals: seq<Signal>, scope: Scope, t: Thresholds): (d: Key -> Verdict) {
    (k: Key) => Decide(Evidence(signals, k), scope, t)
  }

  function Compute(signals: seq<Signal>, scope: Scope, t: Thresholds): (r: Outcome<seq<Candidate>, Error>) {
    if t.minEvidence < 1 then Raised(MinEvidenceNotPositive)
    else if !(0.0 <= t.minConfidence <= 1.0) then Raised(MinConfidenceOutOfRange)
    else Collect(SortedKeys(signals), Decider(signals, scope, t))
  }

  function Positive(decide: Key -> Verdict): (p: Key -> bool) {
    (k: Key) => decide(k).Ok? && decide(k).value.Some?
  }

  lemma {:induction false} CollectSpec(keys: seq<Key>, decide: Key -> Verdict)
    requires forall k :: k in keys ==>
               decide(k).Ok? && (decide(k).value.Some? ==> CandidateKey(decide(k).value.value) == k)
    ensures Collect(keys, decide).Ok?
    ensures Keys(Collect(keys, decide).value, CandidateKey) == Filter(keys, Positive(decide))
    ensures forall c :: c in Collect(keys, decide).value ==> decide(CandidateKey(c)) == Ok(Some(c))
  {
    if keys != [] {
      CollectSpec(keys[1..], decide);
      var rest := Collect(keys[1..], decide).value;
      if Positive(decide)(keys[0]) {
        var c := decide(keys[0]).value.value;
        assert Keys([c] + rest, CandidateKey) == [keys[0]] + Keys(rest, CandidateKey);
      }
    }
  }

  lemma {:induction false} FilterAscends(keys: seq<Key>, p: Key -> bool)
    requires Distinct(keys, Itself) && SortedBy(keys, KeyLeq)
    ensures Distinct(Filter(keys, p), Itself) && SortedBy(Filter(keys, p), KeyLeq)
  {
    if keys != [] {
      FilterAscends(keys[1..], p);
      var rest := Filter(keys[1..], p);
      forall i | 0 <= i < |rest| ensures KeyLeq(keys[0], rest[i]) && Itself(keys[0]) != Itself(rest[i]) {
        assert rest[i] in keys[1..];
        var j :| 0 <= j < |keys[1..]| && keys[1..][j] == rest[i];
        assert keys[j + 1] == rest[i];
      }
    }
  }

  /** The decision for a key is sound and complete for the admission rule. */
  lemma KeyDecided(signals: seq<Signal>, k: Key, scope: Scope, t: Thresholds)
    requires forall s :: s in signals ==> SignalValid(s)
    ensures var e, v := Evidence(signals, k), Decider(signals, scope, t)(k);
            && v.Ok? && (v.value.Some? <==> Admitted(e, t))
            && (v.value.Some? ==>
                  && e != [] && v.value.value == Build(e, scope)
                  && CandidateKey(v.value.value) == k && CandidateValid(v.value.value))
  {
    EvidenceSpec(signals, k);
    if Evidence(signals, k) != [] { GroupDecided(Evidence(signals, k), k, scope, t); }
  }

  lemma AllDecided(signals: seq<Signal>, scope: Scope, t: Thresholds)
    requires forall s :: s in signals ==> SignalValid(s)
    ensures var d := Decider(signals, scope, t);
            forall k :: d(k).Ok? && (d(k).value.Some? ==> CandidateKey(d(k).value.value) == k)
  {
    forall k
      ensures var v := Decider(signals, scope, t)(k); v.Ok? && (v.value.Some? ==> CandidateKey(v.value.value) == k)
    {
      KeyDecided(signals, k, scope, t);
    }
  }

  /** Only a bad threshold raises: on contract-respecting signals the candidate contract is never broken. */
  lemma RaisesIff(signals: seq<Signal>, scope: Scope, t: Thresholds)
    requires forall s :: s in signals ==> SignalValid(s)
    ensures Compute(signals, scope, t).Ok? <==> ThresholdsValid(t)
    ensures Compute(signals, scope, t) == Raised(MinEvidenceNotPositive) <==> t.minEvidence < 1
    ensures Compute(signals, scope, t) == Raised(MinConfidenceOutOfRange) <==>
            t.minEvidence >= 1 && !(0.0 <= t.minConfidence <= 1.0)
  {
    AllDecided(signals, scope, t);
    CollectSpec(SortedKeys(signals), Decider(signals, scope, t));
  }

  lemma PositiveIff(signals: seq<Signal>, k: Key, scope: Scope, t: Thresholds)
    requires forall s :: s in signals ==> SignalValid(s)
    ensures k in SortedKeys(signals) && Positive(Decider(signals, scope, t))(k) <==> Admitted(Evidence(signals, k), t)
  {
    KeyDecided(signals, k, scope, t);
    EvidenceSpec(signals, k);
    SortedKeysSpec(signals);
  }

  /** Initiative before tone before verbosity, and within a kind by value. */
  ghost predicate KeysInOrder(keys: seq<Key>) {
    forall i, j :: 0 <= i < j < |keys| ==>
      && (keys[j].kind == Initiative ==> keys[i].kind == Initiative)
      && (keys[i].kind == Verbosity ==> keys[j].kind == Verbosity)
      && (keys[i].kind == keys[j].kind ==> LexLeq(keys[i].value, keys[j].value))
  }

  /** Admission: a (kind, value) has a candidate exactly when its evidence satisfies the rule; it has at most
      one, and the candidates ascend by key. */
  lemma AdmissionIff(signals: seq<Signal>, scope: Scope, t: Thresholds)
    requires ThresholdsValid(t) && forall s :: s in signals ==> SignalValid(s)
    ensures Compute(signals, scope, t).Ok?
    ensures var keys := Keys(Compute(signals, scope, t).value, CandidateKey);
            && (forall k :: k in keys <==> Admitted(Evidence(signals, k), t))
            && Distinct(keys, Itself) && KeysInOrder(keys)
  {
    var keys, d := SortedKeys(signals), Decider(signals, scope, t);
    SortedKeysSpec(signals);
    AllDecided(signals, scope, t);
    CollectSpec(keys, d);
    FilterAscends(keys, Positive(d));
    forall k ensures k in Filter(keys, Positive(d)) <==> Admitted(Evidence(signals, k), t) {
      PositiveIff(signals, k, scope, t);
    }
    KeysOrdered(Filter(keys, Positive(d)));
  }

  lemma KeysOrdered(keys: seq<Key>)
    requires SortedBy(keys, KeyLeq)
    ensures KeysInOrder(keys)
  {
    assert forall i, j :: 0 <= i < j < |keys| ==> KeyLeq(keys[i], keys[j]);
  }

  ghost function EventsOf(signals: seq<Signal>, k: Key): (r: set<string>) {
    set s | s in signals && Concerns(s, k) :: s.eventId
  }

  lemma EventsNamed(signals: seq<Signal>, k: Key, id: string)
    ensures id in Keys(Evidence(signals, k), EventId) <==> id in EventsOf(signals, k)
  {
    var e, kept := Evidence(signals, k), Filter(signals, HasKey(k));
    EvidenceSpec(signals, k);
    if id in Keys(e, EventId) {
      var i :| 0 <= i < |e| && Keys(e, EventId)[i] == id;
      assert e[i] in e;
    }
    if id in EventsOf(signals, k) {
      var s :| s in signals && Concerns(s, k) && s.eventId == id;
      assert KeyOf(s) == k && s in kept;
      NamedBy(e, kept, id, s);
    }
  }

  lemma NamedBy(e: seq<Signal>, kept: seq<Signal>, id: string, s: Signal)
    requires forall s :: s in e <==> Last(kept, EventId, s.eventId) == Some(s)
    requires s in kept && s.eventId == id
    ensures id in Keys(e, EventId)
  {
    var last := Last(kept, EventId, id).value;
    var i :| 0 <= i < |e| && e[i] == last;
    assert Keys(e, EventId)[i] == id;
  }

  lemma EventsCounted(signals: seq<Signal>, k: Key)
    ensures |Evidence(signals, k)| == |EventsOf(signals, k)|
    ensures forall id :: id in Keys(Evidence(signals, k), EventId) <==> id in EventsOf(signals, k)
  {
    var e := Evidence(signals, k);
    EvidenceSpec(signals, k);
    var ids := Keys(e, EventId);
    forall id ensures id in ids <==> id in EventsOf(signals, k) { EventsNamed(signals, k, id); }
    forall i, j | 0 <= i < j < |ids| ensures ids[i] != ids[j] { assert EventId(e[i]) != EventId(e[j]); }
    DistinctSize(ids, EventsOf(signals, k));
  }

  lemma {:induction false} DistinctSize(ids: seq<string>, all: set<string>)
    requires forall i, j :: 0 <= i < j < |ids| ==> ids[i] != ids[j]
    requires forall id :: id in ids <==> id in all
    ensures |ids| == |all|
  {
    if ids == [] {
      assert all == {};
    } else {
      assert ids[0] in ids;
      DistinctSize(ids[1..], all - {ids[0]});
    }
  }

  lemma BuiltDecision(e: seq<Signal>, scope: Scope)
    requires e != []
    ensures var c := Build(e, scope);
            && (c.decision == Suppressed <==> exists s :: s in e && s.highRisk)
            && (c.highRisk <==> c.decision == Suppressed)
            && (c.reason == HighRiskSuppressed <==> c.decision == Suppressed)
            && (c.reason == ExplicitHasPriority <==> c.decision != Suppressed && HasSource(e, ExplicitFeedback))
            && (c.reason == RepeatedImplicit(|e|) <==>
                c.decision != Suppressed && !HasSource(e, ExplicitFeedback) && HasSource(e, ImplicitRepeatedSignal))
            && (c.reason == BoundedClassifier <==>
                c.decision != Suppressed && !HasSource(e, ExplicitFeedback) && !HasSource(e, ImplicitRepeatedSignal))
  {
    SourceKindsSpec(e);
    var c := Build(e, scope);
    assert c.decision == (if AnyHighRisk(e) then Suppressed else ReviewRequired) && c.reason == CandidateReason(e);
  }

  lemma BuiltMeasures(e: seq<Signal>, scope: Scope)
    requires e != []
    ensures var c := Build(e, scope);
            && c.scope == scope && c.evidenceCount == |e|
            && c.sourceEventIds == Keys(e, EventId) && c.modelMetadata == MergedMetadata(e)
            && c.confidence == MaxOver(e, Confidence) && c.sourceKinds == SourceKinds(e)
  {
  }

  /** The candidate says of the evidence for its key what there is to say. */
  ghost predicate Documents(c: Candidate, signals: seq<Signal>, scope: Scope) {
    var k := CandidateKey(c);
    var e := Evidence(signals, k);
    && c.scope == scope && CandidateValid(c)
    && c.sourceEventIds == Keys(e, EventId) && c.modelMetadata == MergedMetadata(e)
    && c.evidenceCount == |EventsOf(signals, k)|
    && (forall id :: id in c.sourceEventIds <==> id in EventsOf(signals, k))
    && (c.decision == Suppressed <==> exists s :: s in e && s.highRisk)
    && (c.highRisk <==> c.decision == Suppressed)
    && (c.reason == HighRiskSuppressed <==> c.decision == Suppressed)
    && (c.reason == ExplicitHasPriority <==> c.decision != Suppressed && HasSource(e, ExplicitFeedback))
    && (c.reason == RepeatedImplicit(|e|) <==>
        c.decision != Suppressed && !HasSource(e, ExplicitFeedback) && HasSource(e, ImplicitRepeatedSignal))
    && (c.reason == BoundedClassifier <==>
        c.decision != Suppressed && !HasSource(e, ExplicitFeedback) && !HasSource(e, ImplicitRepeatedSignal))
    && InNameOrder(c.sourceKinds) && c.reviewRequired
    && (forall s :: s in e ==> s.confidence <= c.confidence)
    && (exists s :: s in e && s.confidence == c.confidence)
    && (forall x :: x in c.sourceKinds <==> HasSource(e, x))
  }

  /** The contents of a candidate: it counts and names exactly the distinct events of its key, is suppressed
      exactly when one of its signals is high-risk, and carries the greatest confidence and the source kinds
      present. */
  lemma CandidateContents(signals: seq<Signal>, scope: Scope, t: Thresholds, c: Candidate)
    requires ThresholdsValid(t) && forall s :: s in signals ==> SignalValid(s)
    ensures Compute(signals, scope, t).Ok?
    ensures c in Compute(signals, scope, t).value ==> Documents(c, signals, scope)
  {
    AllDecided(signals, scope, t);
    CollectSpec(SortedKeys(signals), Decider(signals, scope, t));
    if c in Compute(signals, scope, t).value {
      KeyDecided(signals, CandidateKey(c), scope, t);
      EventsCounted(signals, CandidateKey(c));
      BuiltDecision(Evidence(signals, CandidateKey(c)), scope);
      BuiltMeasures(Evidence(signals, CandidateKey(c)), scope);
      SourceKindsSpec(Evidence(signals, CandidateKey(c)));
      MaxOverSpec(Evidence(signals, CandidateKey(c)), Confidence);
    }
  }

  /** The merged metadata keeps, for each name, what the latest signal mentioning it says. */
  lemma {:induction false} MetadataSpec(e: seq<Signal>, name: string)
    ensures name in MergedMetadata(e) <==> exists i :: 0 <= i < |e| && name in e[i].modelMetadata
    ensures forall i ::
              && 0 <= i < |e| && name in e[i].modelMetadata
              && (forall j :: i < j < |e| ==> name !in e[j].modelMetadata) ==>
              MergedMetadata(e)[name] == e[i].modelMetadata[name]
  {
    if e == [] {
    } else {
      var front := e[..|e| - 1];
      MetadataSpec(front, name);
      assert forall i :: 0 <= i < |front| ==> front[i] == e[i];
      if i :| 0 <= i < |front| && name in front[i].modelMetadata { assert name in e[i].modelMetadata; }
    }
  }

  /** Within one key, equal event ids are equal signals. */
  ghost predicate Consistent(signals: seq<Signal>) {
    forall a, b :: a in signals && b in signals && KeyOf(a) == KeyOf(b) && a.eventId == b.eventId ==> a == b
  }

  lemma SameKeys(xs: seq<Signal>, ys: seq<Signal>)
    requires forall s :: s in xs <==> s in ys
    ensures SortedKeys(xs) == SortedKeys(ys)
  {
    SortedKeysSpec(xs);
    SortedKeysSpec(ys);
    KeyOrder();
    var a, b := SortedKeys(xs), SortedKeys(ys);
    forall k ensures multiset(a)[k] == multiset(b)[k] {
      DistinctOnce(a, Itself, k);
      DistinctOnce(b, Itself, k);
    }
    assert multiset(a) == multiset(b);
    SortedUnique(a, b, KeyLeq);
  }

  lemma {:induction false} CollectSame(keys: seq<Key>, d: Key -> Verdict, d': Key -> Verdict)
    requires forall k :: k in keys ==> d(k) == d'(k)
    ensures Collect(keys, d) == Collect(keys, d')
  {
    if keys != [] {
      assert keys[0] in keys;
      CollectSame(keys[1..], d, d');
    }
  }

  /** The order and repetition of signals do not matter when equal event ids of a key are equal signals. */
  lemma ComputeDependsOnSet(xs: seq<Signal>, ys: seq<Signal>, scope: Scope, t: Thresholds)
    requires forall s :: s in xs <==> s in ys
    requires Consistent(xs)
    ensures Compute(xs, scope, t) == Compute(ys, scope, t)
  {
    SameKeys(xs, ys);
    SignalOrder();
    forall k ensures Evidence(xs, k) == Evidence(ys, k) {
      DependsOnSet(xs, ys, HasKey(k), EventId, SignalLeq);
    }
    CollectSame(SortedKeys(xs), Decider(xs, scope, t), Decider(ys, scope, t));
  }

  /** Exactly then: the evidence for every key is independent of the order iff equal event ids of a key are
      equal signals. */
  lemma EvidenceOrderIndependentIff(signals: seq<Signal>)
    ensures (forall k :: OrderIndependent(signals, HasKey(k), EventId, SignalLeq)) <==> Consistent(signals)
  {
    SignalOrder();
    forall k
      ensures OrderIndependent(signals, HasKey(k), EventId, SignalLeq) <==>
              Functional(Filter(signals, HasKey(k)), EventId)
    {
      OrderIndependentIff(signals, HasKey(k), EventId, SignalLeq);
    }
    if !Consistent(signals) {
      var a, b :| a in signals && b in signals && KeyOf(a) == KeyOf(b) && a.eventId == b.eventId && a != b;
      var kept := Filter(signals, HasKey(KeyOf(a)));
      assert a in kept && b in kept && EventId(a) == EventId(b);
    }
  }

  // ----- the procedures -------------------------------------------------------------------------------

  method MergeMetadata(e: seq<Signal>) returns (values: map<string, string>)
    ensures values == MergedMetadata(e)
  {
    values := map[];
    var i := 0;
    while i < |e|
      invariant i <= |e| && values == MergedMetadata(e[..i])
    {
      assert e[..i + 1][..i] == e[..i];
      values := values + e[i].modelMetadata;
      i := i + 1;
    }
    assert e[..i] == e;
  }

  method GroupSignals(signals: seq<Signal>) returns (grouped: seq<Group<Key, Signal>>)
    ensures grouped == GroupAll([], KeyOf, signals)
  {
    grouped := [];
    var i := 0;
    while i < |signals|
      invariant i <= |signals| && GroupAll(grouped, KeyOf, signals[i..]) == GroupAll([], KeyOf, signals)
    {
      ghost var rest := signals[i..];
      assert rest[0] == signals[i] && rest[1..] == signals[i + 1..];
      grouped := AddTo(grouped, KeyOf, signals[i]);
      i := i + 1;
    }
    assert signals[i..] == [];
  }

  lemma GroupedEvidence(signals: seq<Signal>, k: Key)
    ensures UniqueSignals(Gathered(Lookup(GroupAll([], KeyOf, signals), GroupKey, k))) == Evidence(signals, k)
  {
    GroupAllSpec([], KeyOf, signals, k);
    MembersAreFiltered(signals, k);
    assert [] + MembersOf(signals, KeyOf, k) == MembersOf(signals, KeyOf, k);
  }

  lemma PrependNothing(r: Outcome<seq<Candidate>, Error>)
    ensures Prepend([], r) == r
  {
    if r.Ok? { assert [] + r.value == r.value; }
  }

  lemma PrependMore(cs: seq<Candidate>, c: Candidate, r: Outcome<seq<Candidate>, Error>)
    ensures Prepend(cs, Prepend([c], r)) == Prepend(cs + [c], r)
  {
    if r.Ok? { assert cs + ([c] + r.value) == (cs + [c]) + r.value; }
  }

  method CollectGroups(keys: seq<Key>, decide: Key -> Verdict) returns (r: Outcome<seq<Candidate>, Error>)
    ensures r == Collect(keys, decide)
  {
    var candidates: seq<Candidate> := [];
    var i := 0;
    assert keys[0..] == keys;
    PrependNothing(Collect(keys, decide));
    while i < |keys|
      invariant i <= |keys|
      invariant Collect(keys, decide) == Prepend(candidates, Collect(keys[i..], decide))
    {
      ghost var rest := keys[i..];
      assert rest[0] == keys[i] && rest[1..] == keys[i + 1..];
      var one := decide(keys[i]);
      if one.Raised? { return Raised(one.error); }
      if one.value.Some? {
        PrependMore(candidates, one.value.value, Collect(rest[1..], decide));
        candidates := candidates + [one.value.value];
      }
      i := i + 1;
    }
    assert keys[i..] == [] && candidates + [] == candidates;
    r := Ok(candidates);
  }

  method ComputeInteractionPolicyCandidates(signals: seq<Signal>, scope: Scope, t: Thresholds)
    returns (r: Outcome<seq<Candidate>, Error>)
    ensures r == Compute(signals, scope, t)
  {
    if t.minEvidence < 1 { return Raised(MinEvidenceNotPositive); }
    if !(0.0 <= t.minConfidence <= 1.0) { return Raised(MinConfidenceOutOfRange); }
    var grouped := GroupSignals(signals);
    var keys := SortBy(Keys(grouped, GroupKey), KeyLeq);
    var decide := (k: Key) => Decide(UniqueSignals(Gathered(Lookup(grouped, GroupKey, k))), scope, t);
    r := CollectGroups(keys, decide);
    forall k ensures decide(k) == Decider(signals, scope, t)(k) { GroupedEvidence(signals, k); }
    CollectSame(keys, decide, Decider(signals, scope, t));
  }
}
