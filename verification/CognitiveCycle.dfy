/** The cognitive cycle: a pipeline of steps over an immutable frame, and the choice of a plan
    (iris/cognitive/cycle/service.py, iris/cognitive/cycle/frame_builder.py, iris/cognitive/policy). */
module CognitiveCycle {
  import opened Prelude
  import opened PyText

  // ----- frames and results ---------------------------------------------------------------------------

  datatype Category = SelfHarm | Abuse | Violence | IllegalOrDangerous | PersonalData | UnknownHighRisk

  datatype Severity = Low | Medium | High

  datatype Directive = AllowSupport | SafeRedirect | Refuse | Block

  datatype SafetyContext = SafetyContext(category: Category, severity: Severity, confidence: real, directive: Directive)

  /** Text of a plan: free, or one of the fixed safety responses, none of which is blank. */
  datatype Text = Free(text: string) | SelfHarmRedirect | DangerRedirect | PersonalDataRefusal | HarmRefusal

  datatype Plan = Plan(intent: string, text: Option<Text>, shouldRespond: bool, priority: int, interruptible: bool)

  datatype Constraint = Constraint(name: string, blocks: bool, context: Option<SafetyContext>)

  datatype Preference = Preference(name: string, priorityDelta: int)

  datatype Observation = ActorMessage | IdleTick | OtherObservation

  /** The part of the workspace frame that policies and selection look at. */
  datatype Frame = Frame(
    observation: Observation,
    text: Option<string>,
    arousal: real,
    valence: real,
    actorLabel: Option<string>,
    familiarity: real,
    contexts: seq<SafetyContext>,
    constraints: seq<Constraint>,
    preferences: seq<Preference>,
    plans: seq<Plan>)

  /** `Recorded` stands for results that touch nothing in this part of the frame: memory retrieval and writing,
      motivation, affect persistence. */
  datatype StepResult =
    | Perception(text: Option<string>)
    | Appraisal(arousal: real, valence: real)
    | BaselineLoad(ok: bool, arousal: real, valence: real)
    | Relationship(actorLabel: Option<string>, familiarity: real)
    | SafetyContexts(contexts: seq<SafetyContext>)
    | Policy(constraints: seq<Constraint>, preferences: seq<Preference>)
    | ActionSelection(plans: seq<Plan>)
    | Recorded
    | Unsupported

  datatype Error = StepFailed | UnsupportedResult

  type Step = Frame -> Outcome<StepResult, Error>

  function Apply(f: Frame, r: StepResult): (o: Outcome<Frame, Error>) {
    match r
    case Perception(text) => Ok(f.(text := text))
    case Appraisal(arousal, valence) => Ok(f.(arousal := arousal, valence := valence))
    case BaselineLoad(ok, arousal, valence) => if ok then Ok(f.(arousal := arousal, valence := valence)) else Ok(f)
    case Relationship(actorLabel, familiarity) => Ok(f.(actorLabel := actorLabel, familiarity := familiarity))
    case SafetyContexts(contexts) => Ok(f.(contexts := contexts))
    case Policy(constraints, preferences) => Ok(f.(constraints := constraints, preferences := preferences))
    case ActionSelection(plans) => Ok(f.(plans := f.plans + plans))
    case Recorded => Ok(f)
    case Unsupported => Raised(UnsupportedResult)
  }

  function StepOnce(f: Frame, step: Step): (o: Outcome<Frame, Error>) {
    var r := step(f);
    if r.Raised? then Raised(r.error) else Apply(f, r.value)
  }

  function RunSteps(f: Frame, steps: seq<Step>): (o: Outcome<Frame, Error>)
    decreases |steps|
  {
    if steps == [] then Ok(f)
    else
      var next := StepOnce(f, steps[0]);
      if next.Raised? then next else RunSteps(next.value, steps[1..])
  }

  lemma {:induction false} RunConcat(f: Frame, a: seq<Step>, b: seq<Step>)
    ensures RunSteps(f, a + b) == (if RunSteps(f, a).Ok? then RunSteps(RunSteps(f, a).value, b) else RunSteps(f, a))
    decreases |a|
  {
    if a == [] {
      assert a + b == b;
    } else {
      assert (a + b)[1..] == a[1..] + b;
      var next := StepOnce(f, a[0]);
      if next.Ok? { RunConcat(next.value, a[1..], b); }
    }
  }

  // ----- the frame a run ends with --------------------------------------------------------------------

  /** The results a run applies, in order. */
  function Applied(f: Frame, steps: seq<Step>): (rs: seq<StepResult>)
    decreases |steps|
  {
    if steps == [] then []
    else
      var next := StepOnce(f, steps[0]);
      if next.Raised? then [] else [steps[0](f).value] + Applied(next.value, steps[1..])
  }

  /** The last result of some sort. */
  function LatestOf(rs: seq<StepResult>, sort: StepResult -> bool): (o: Option<StepResult>)
    ensures o.None? <==> forall r :: r in rs ==> !sort(r)
    ensures o.Some? ==> o.value in rs && sort(o.value)
  {
    if rs == [] then None
    else
      var later := LatestOf(rs[1..], sort);
      if later.Some? then later else if sort(rs[0]) then Some(rs[0]) else None
  }

  function OfPerception(): (p: StepResult -> bool) { (r: StepResult) => r.Perception? }

  function OfAffect(): (p: StepResult -> bool) { (r: StepResult) => r.Appraisal? || (r.BaselineLoad? && r.ok) }

  function OfRelationship(): (p: StepResult -> bool) { (r: StepResult) => r.Relationship? }

  function OfContexts(): (p: StepResult -> bool) { (r: StepResult) => r.SafetyContexts? }

  function OfPolicy(): (p: StepResult -> bool) { (r: StepResult) => r.Policy? }

  /** All plans offered, in order. */
  function Offered(rs: seq<StepResult>): (plans: seq<Plan>) {
    if rs == [] then [] else (if rs[0].ActionSelection? then rs[0].plans else []) + Offered(rs[1..])
  }

  ghost predicate HasAffect(g: Frame, r: StepResult) {
    match r
    case Appraisal(arousal, valence) => g.arousal == arousal && g.valence == valence
    case BaselineLoad(_, arousal, valence) => g.arousal == arousal && g.valence == valence
    case _ => false
  }

  ghost predicate ReflectsInput(f: Frame, g: Frame, rs: seq<StepResult>) {
    var text, affect, relationship := LatestOf(rs, OfPerception()), LatestOf(rs, OfAffect()),
                                      LatestOf(rs, OfRelationship());
    && g.text == (if text.Some? then text.value.text else f.text)
    && (if affect.Some? then HasAffect(g, affect.value) else g.arousal == f.arousal && g.valence == f.valence)
    && g.actorLabel == (if relationship.Some? then relationship.value.actorLabel else f.actorLabel)
    && g.familiarity == (if relationship.Some? then relationship.value.familiarity else f.familiarity)
  }

  ghost predicate ReflectsPolicy(f: Frame, g: Frame, rs: seq<StepResult>) {
    var contexts, policy := LatestOf(rs, OfContexts()), LatestOf(rs, OfPolicy());
    && g.contexts == (if contexts.Some? then contexts.value.contexts else f.contexts)
    && g.constraints == (if policy.Some? then policy.value.constraints else f.constraints)
    && g.preferences == (if policy.Some? then policy.value.preferences else f.preferences)
  }

  /** The latest perception, affect, relationship, contexts and policy decide the frame, and what no result mentions is
      as it was; the plans are those there were and all that were offered. */
  ghost predicate Reflects(f: Frame, g: Frame, rs: seq<StepResult>) {
    && g.observation == f.observation && g.plans == f.plans + Offered(rs)
    && ReflectsInput(f, g, rs) && ReflectsPolicy(f, g, rs)
  }

  /** What the frame is after a run. */
  lemma {:induction false} RunReflects(f: Frame, steps: seq<Step>)
    requires RunSteps(f, steps).Ok?
    ensures |Applied(f, steps)| == |steps| && Reflects(f, RunSteps(f, steps).value, Applied(f, steps))
    decreases |steps|
  {
    if steps == [] {
      assert f.plans + [] == f.plans;
    } else {
      var next := StepOnce(f, steps[0]).value;
      RunReflects(next, steps[1..]);
      ReflectsCons(f, steps[0](f).value, RunSteps(f, steps).value, Applied(next, steps[1..]));
    }
  }

  lemma LatestCons(r: StepResult, rest: seq<StepResult>, sort: StepResult -> bool)
    ensures LatestOf([r] + rest, sort) ==
            if LatestOf(rest, sort).Some? then LatestOf(rest, sort) else if sort(r) then Some(r) else None
  {
    assert ([r] + rest)[1..] == rest;
  }

  lemma ReflectsCons(f: Frame, r: StepResult, g: Frame, rest: seq<StepResult>)
    requires Apply(f, r).Ok? && Reflects(Apply(f, r).value, g, rest)
    ensures Reflects(f, g, [r] + rest)
  {
    InputCons(f, r, g, rest);
    PolicyCons(f, r, g, rest);
    PlansCons(f.plans, r, rest);
    assert Apply(f, r).value.plans == f.plans + if r.ActionSelection? then r.plans else [];
  }

  lemma PlansCons(plans: seq<Plan>, r: StepResult, rest: seq<StepResult>)
    ensures plans + (if r.ActionSelection? then r.plans else []) + Offered(rest) == plans + Offered([r] + rest)
  {
    assert ([r] + rest)[0] == r && ([r] + rest)[1..] == rest;
  }

  lemma InputCons(f: Frame, r: StepResult, g: Frame, rest: seq<StepResult>)
    requires Apply(f, r).Ok? && ReflectsInput(Apply(f, r).value, g, rest)
    ensures ReflectsInput(f, g, [r] + rest)
  {
    LatestCons(r, rest, OfPerception());
    LatestCons(r, rest, OfAffect());
    LatestCons(r, rest, OfRelationship());
  }

  lemma PolicyCons(f: Frame, r: StepResult, g: Frame, rest: seq<StepResult>)
    requires Apply(f, r).Ok? && ReflectsPolicy(Apply(f, r).value, g, rest)
    ensures ReflectsPolicy(f, g, [r] + rest)
  {
    LatestCons(r, rest, OfContexts());
    LatestCons(r, rest, OfPolicy());
  }

  // ----- selection ------------------------------------------------------------------------------------

  /** The first of the plans with the highest priority. */
  ghost predicate FirstBest(plans: seq<Plan>, i: nat) {
    && i < |plans|
    && (forall j :: 0 <= j < |plans| ==> plans[j].priority <= plans[i].priority)
    && (forall j :: 0 <= j < i ==> plans[j].priority < plans[i].priority)
  }

  lemma FirstBestUnique(plans: seq<Plan>, i: nat, j: nat)
    requires FirstBest(plans, i) && FirstBest(plans, j)
    ensures i == j
  {
    assert plans[i].priority == plans[j].priority;
  }

  function BestIndex(plans: seq<Plan>): (i: nat)
    requires plans != []
    ensures i < |plans|
  {
    if |plans| == 1 then 0
    else
      var last := |plans| - 1;
      var i := BestIndex(plans[..last]);
      if plans[last].priority > plans[i].priority then last else i
  }

  lemma {:induction false} BestIsFirst(plans: seq<Plan>)
    requires plans != []
    ensures FirstBest(plans, BestIndex(plans))
  {
    if |plans| > 1 { BestIsFirst(plans[..|plans| - 1]); }
  }

  lemma BestIndexIff(plans: seq<Plan>, i: nat)
    requires plans != []
    ensures BestIndex(plans) == i <==> FirstBest(plans, i)
  {
    BestIsFirst(plans);
    if FirstBest(plans, i) { FirstBestUnique(plans, i, BestIndex(plans)); }
  }

  function Selected(plans: seq<Plan>, fallback: Plan): (p: Plan) {
    if plans == [] then fallback else plans[BestIndex(plans)]
  }

  datatype CycleResult = CycleResult(frame: Frame, selected: Plan)

  /** What a cycle returns: the final frame and the plan selected from it, or the first failure. */
  function RunCycle(f: Frame, steps: seq<Step>, fallback: Plan): (r: Outcome<CycleResult, Error>) {
    var o := RunSteps(f, steps);
    if o.Raised? then Raised(o.error) else Ok(CycleResult(o.value, Selected(o.value.plans, fallback)))
  }

  // ----- the steps ------------------------------------------------------------------------------------

  predicate HasResponse(c: SafetyContext) { c.directive in {SafeRedirect, Refuse} }

  function DirectiveRank(d: Directive): (n: nat) {
    match d
    case Refuse => 3
    case SafeRedirect => 2
    case Block => 0
    case AllowSupport => 0
  }

  function SeverityRank(s: Severity): (n: nat) {
    match s
    case High => 3
    case Medium => 2
    case Low => 1
  }

  /** Strictly lower in precedence: directive, then severity, then confidence. */
  predicate Milder(a: SafetyContext, b: SafetyContext) {
    var da, db := DirectiveRank(a.directive), DirectiveRank(b.directive);
    var sa, sb := SeverityRank(a.severity), SeverityRank(b.severity);
    da < db || (da == db && (sa < sb || (sa == sb && a.confidence < b.confidence)))
  }

  /** `max` over the contexts with a response directive: the first of the strictest. */
  function Strictest(cs: seq<SafetyContext>): (r: Option<SafetyContext>) {
    if cs == [] then None
    else
      var best := Strictest(cs[..|cs| - 1]);
      var c := cs[|cs| - 1];
      if HasResponse(c) && (best.None? || Milder(best.value, c)) then Some(c) else best
  }

  /** To be refused or redirected. */
  ghost predicate Responds(c: SafetyContext) { c.directive == Refuse || c.directive == SafeRedirect }

  ghost predicate Graver(s: Severity, t: Severity) { (s == High && t != High) || (s == Medium && t == Low) }

  /** A refusal before a redirect, then the graver severity, then the greater confidence. */
  ghost predicate Stricter(a: SafetyContext, b: SafetyContext) {
    || (a.directive == Refuse && b.directive == SafeRedirect)
    || (a.directive == b.directive
        && (Graver(a.severity, b.severity) || (a.severity == b.severity && a.confidence > b.confidence)))
  }

  lemma MilderIff(a: SafetyContext, b: SafetyContext)
    requires Responds(a) && Responds(b)
    ensures Milder(a, b) <==> Stricter(b, a)
  {
  }

  /** The place of the strictest context with a response directive, the first on ties. */
  ghost predicate FirstStrictest(cs: seq<SafetyContext>, i: nat) {
    && i < |cs| && HasResponse(cs[i])
    && (forall j :: 0 <= j < |cs| && HasResponse(cs[j]) ==> !Milder(cs[i], cs[j]))
    && (forall j :: 0 <= j < i && HasResponse(cs[j]) ==> Milder(cs[j], cs[i]))
  }

  lemma MilderOrder(a: SafetyContext, b: SafetyContext, c: SafetyContext)
    ensures Milder(a, b) && !Milder(c, b) ==> Milder(a, c)
    ensures !Milder(b, a) && Milder(b, c) ==> Milder(a, c)
  {
  }

  lemma StrictestExtends(front: seq<SafetyContext>, c: SafetyContext, i: nat)
    requires FirstStrictest(front, i)
    ensures HasResponse(c) && Milder(front[i], c) ==> FirstStrictest(front + [c], |front|)
    ensures !(HasResponse(c) && Milder(front[i], c)) ==> FirstStrictest(front + [c], i)
  {
    forall j | 0 <= j < |front| && HasResponse(front[j]) && Milder(front[i], c)
      ensures Milder(front[j], c) && !Milder(c, front[j])
    {
      MilderOrder(front[j], front[i], c);
    }
  }

  /** There is a strictest context exactly when some context has a response directive. */
  lemma {:induction false} StrictestExists(cs: seq<SafetyContext>)
    ensures Strictest(cs).None? <==> forall c :: c in cs ==> !Responds(c)
    ensures Strictest(cs).Some? ==> Responds(Strictest(cs).value) && Strictest(cs).value in cs
  {
    if cs != [] {
      var front, c := cs[..|cs| - 1], cs[|cs| - 1];
      StrictestExists(front);
      assert cs == front + [c];
      assert forall x :: x in cs <==> x in front || x == c;
      assert HasResponse(c) <==> Responds(c);
    }
  }

  /** And it is the first of the strictest: nothing to refuse or redirect is stricter, and what comes before it is
      less strict. */
  lemma StrictestIsFirst(cs: seq<SafetyContext>) returns (i: nat)
    requires Strictest(cs).Some?
    ensures i < |cs| && cs[i] == Strictest(cs).value && Responds(cs[i])
    ensures forall j :: 0 <= j < |cs| && Responds(cs[j]) ==> !Stricter(cs[j], cs[i])
    ensures forall j :: 0 <= j < i && Responds(cs[j]) ==> Stricter(cs[i], cs[j])
  {
    i := StrictestAt(cs);
    forall j | 0 <= j < |cs| && Responds(cs[j]) ensures !Stricter(cs[j], cs[i]) { MilderIff(cs[i], cs[j]); }
    forall j | 0 <= j < i && Responds(cs[j]) ensures Stricter(cs[i], cs[j]) { MilderIff(cs[j], cs[i]); }
  }

  /** So a refusal is never passed over for a redirect. */
  lemma RefusalWins(cs: seq<SafetyContext>)
    requires exists c :: c in cs && Responds(c)
    ensures Strictest(cs).Some?
    ensures Strictest(cs).value.directive == Refuse <==> exists c :: c in cs && c.directive == Refuse
  {
    StrictestExists(cs);
    var i := StrictestIsFirst(cs);
    if c :| c in cs && c.directive == Refuse {
      var j :| 0 <= j < |cs| && cs[j] == c;
      assert !Stricter(cs[j], cs[i]);
    }
  }

  lemma {:induction false} StrictestAt(cs: seq<SafetyContext>) returns (i: nat)
    requires Strictest(cs).Some?
    ensures FirstStrictest(cs, i) && cs[i] == Strictest(cs).value
  {
    var front, c := cs[..|cs| - 1], cs[|cs| - 1];
    assert cs == front + [c];
    if Strictest(front).Some? {
      i := StrictestAt(front);
      StrictestExtends(front, c, i);
      if HasResponse(c) && Milder(front[i], c) { i := |front|; }
    } else {
      StrictestExists(front);
      i := |front|;
      OnlyResponse(front, c);
    }
  }

  lemma OnlyResponse(front: seq<SafetyContext>, c: SafetyContext)
    requires HasResponse(c) && forall x :: x in front ==> !HasResponse(x)
    ensures FirstStrictest(front + [c], |front|)
  {
    assert forall j :: 0 <= j < |front| ==> (front + [c])[j] in front;
  }

  const SAFE_PRIORITY: int := 1000

  function SafetyPlan(c: SafetyContext): (p: Plan) {
    if c.directive == SafeRedirect
    then Plan("safe_redirect", Some(if c.category == SelfHarm then SelfHarmRedirect else DangerRedirect), true,
              SAFE_PRIORITY, false)
    else Plan("safety_refusal", Some(if c.category == PersonalData then PersonalDataRefusal else HarmRefusal), true,
              SAFE_PRIORITY, false)
  }

  function SafetyResponse(f: Frame): (o: Outcome<StepResult, Error>) {
    var c := Strictest(f.contexts);
    Ok(ActionSelection(if c.Some? then [SafetyPlan(c.value)] else []))
  }

  predicate EmptyResponse(p: Plan) {
    p.shouldRespond && (p.text.None? || (p.text.value.Free? && Blank(p.text.value.text)))
  }

  function PlanConstraints(f: Frame): (r: seq<Constraint>) {
    if exists p :: p in f.plans && EmptyResponse(p) then [Constraint("empty_response_candidate", true, None)] else []
  }

  function AffectConstraints(f: Frame): (r: seq<Constraint>) {
    if f.arousal < 0.75 || f.valence > -0.55 then [] else [Constraint("calm_response", false, None)]
  }

  function RelationshipConstraints(f: Frame): (r: seq<Constraint>) {
    if f.actorLabel.None? || f.familiarity >= 0.2 then [] else [Constraint("low_familiarity", false, None)]
  }

  function ContextConstraint(c: SafetyContext): (r: Constraint) {
    match c.directive
    case AllowSupport => Constraint("sensitive_safety_context", false, Some(c))
    case SafeRedirect => Constraint("high_risk_safe_redirect_required", true, Some(c))
    case Refuse => Constraint("high_risk_refusal_required", true, Some(c))
    case Block => Constraint("high_risk_block_required", true, Some(c))
  }

  function ContextConstraints(cs: seq<SafetyContext>): (r: seq<Constraint>)
    ensures |r| == |cs|
    ensures forall i :: 0 <= i < |cs| ==> r[i] == ContextConstraint(cs[i])
  {
    seq(|cs|, i requires 0 <= i < |cs| => ContextConstraint(cs[i]))
  }

  /** `mentions` says whether a text holds one of the self-harm or abuse terms. */
  function NoteConstraints(f: Frame, mentions: string -> bool): (r: seq<Constraint>) {
    if f.text.Some? && mentions(f.text.value) then [Constraint("sensitive_safety_context", false, None)] else []
  }

  function InhibitionConstraints(f: Frame, mentions: string -> bool): (r: seq<Constraint>) {
    var safety := ContextConstraints(f.contexts);
    PlanConstraints(f) + AffectConstraints(f) + RelationshipConstraints(f) +
    (if safety != [] then safety else NoteConstraints(f, mentions))
  }

  predicate AnyNamed(cs: seq<Constraint>, name: string) { exists c :: c in cs && c.name == name }

  predicate AnyBlocks(cs: seq<Constraint>) { exists c :: c in cs && c.blocks }

  function InhibitionResult(f: Frame, mentions: string -> bool): (r: StepResult) {
    var constraints := InhibitionConstraints(f, mentions);
    Policy(constraints, if AnyNamed(constraints, "calm_response") then [Preference("prefer_calm_response", 1)] else [])
  }

  function Inhibition(mentions: string -> bool): (s: Step) { (f: Frame) => Ok(InhibitionResult(f, mentions)) }

  function ProactiveConstraints(f: Frame): (r: seq<Constraint>) {
    if f.observation != IdleTick then []
    else
      (if AnyBlocks(f.constraints) then [Constraint("proactive_no_action", true, None)] else []) +
      (if f.actorLabel.Some? && f.familiarity < 0.2 then [Constraint("proactive_low_familiarity", false, None)]
       else []) +
      (if f.arousal > 0.75 && f.valence < -0.55 then [Constraint("proactive_calm_response", false, None)] else [])
  }

  function ProactivePolicy(f: Frame): (o: Outcome<StepResult, Error>) {
    var added := ProactiveConstraints(f);
    var calm :=
      if AnyNamed(added, "proactive_calm_response") then [Preference("prefer_calm_proactive_talk", 1)] else [];
    Ok(Policy(f.constraints + added, f.preferences + calm))
  }

  /** The chat step, around a generator that may fail, be refused or answer. */
  function Chat(generate: Frame -> Outcome<Option<string>, Error>, priority: int): (s: Step) {
    (f: Frame) =>
      if AnyBlocks(f.constraints) then Ok(ActionSelection([]))
      else if f.observation != ActorMessage || f.text.None? then Ok(ActionSelection([]))
      else
        var g := generate(f);
        if g.Raised? then Raised(g.error)
        else if g.value.None? || Blank(g.value.value) then Ok(ActionSelection([]))
        else Ok(ActionSelection([Plan("respond", Some(Free(g.value.value)), true, priority, true)]))
  }

  // ----- what the policies say ------------------------------------------------------------------------

  /** The plan would answer with nothing to say. */
  ghost predicate Speechless(p: Plan) {
    p.shouldRespond && (p.text.Some? ==> p.text.value.Free? && forall x :: x in p.text.value.text ==> IsSpace(x))
  }

  lemma EmptyIff(p: Plan)
    ensures EmptyResponse(p) <==> Speechless(p)
  {
    if p.text.Some? && p.text.value.Free? { BlankIff(p.text.value.text); }
  }

  /** One of the two or three lists holds a blocking constraint. */
  lemma BlocksConcat(a: seq<Constraint>, b: seq<Constraint>)
    ensures AnyBlocks(a + b) <==> AnyBlocks(a) || AnyBlocks(b)
    ensures forall name :: AnyNamed(a + b, name) <==> AnyNamed(a, name) || AnyNamed(b, name)
  {
    forall c ensures c in a + b <==> c in a || c in b {}
    if AnyBlocks(a) { var c :| c in a && c.blocks; assert c in a + b; }
    if AnyBlocks(b) { var c :| c in b && c.blocks; assert c in a + b; }
    forall name | AnyNamed(a, name) || AnyNamed(b, name) ensures AnyNamed(a + b, name) {
      if AnyNamed(a, name) {
        var c :| c in a && c.name == name;
        assert c in a + b;
      } else {
        var c :| c in b && c.name == name;
        assert c in a + b;
      }
    }
  }

  lemma ContextsBlockIff(cs: seq<SafetyContext>)
    ensures AnyBlocks(ContextConstraints(cs)) <==> exists c :: c in cs && c.directive != AllowSupport
  {
    var ks := ContextConstraints(cs);
    if AnyBlocks(ks) {
      var k :| k in ks && k.blocks;
      var i :| 0 <= i < |ks| && ks[i] == k;
      assert cs[i] in cs && cs[i].directive != AllowSupport;
    }
    if c :| c in cs && c.directive != AllowSupport {
      var i :| 0 <= i < |cs| && cs[i] == c;
      assert ks[i] in ks && ks[i].blocks;
    }
  }

  /** Inhibition blocks the response exactly when a context forbids it or a plan would answer with nothing to say. */
  lemma InhibitionBlocksIff(f: Frame, mentions: string -> bool)
    ensures AnyBlocks(InhibitionConstraints(f, mentions)) <==>
            || (exists c :: c in f.contexts && c.directive != AllowSupport)
            || (exists p :: p in f.plans && Speechless(p))
  {
    var plans, affect, relationship := PlanConstraints(f), AffectConstraints(f), RelationshipConstraints(f);
    var safety := ContextConstraints(f.contexts);
    var last := if safety != [] then safety else NoteConstraints(f, mentions);
    BlocksConcat(plans, affect);
    BlocksConcat(plans + affect, relationship);
    BlocksConcat(plans + affect + relationship, last);
    ContextsBlockIff(f.contexts);
    forall p | p in f.plans ensures EmptyResponse(p) <==> Speechless(p) { EmptyIff(p); }
    assert AnyBlocks(plans) <==> exists p :: p in f.plans && Speechless(p) by {
      if plans != [] { assert plans[0] in plans; }
    }
    assert f.contexts == [] ==> forall c :: c in f.contexts ==> false;
  }

  /** The name of the constraint a context calls for. */
  ghost function NameFor(d: Directive): (name: string) {
    if d == AllowSupport then "sensitive_safety_context"
    else if d == SafeRedirect then "high_risk_safe_redirect_required"
    else if d == Refuse then "high_risk_refusal_required"
    else "high_risk_block_required"
  }

  /** What does not depend on safety: an empty answer, tension, a stranger. */
  ghost function Ordinary(f: Frame): (cs: seq<Constraint>) {
    (if exists p :: p in f.plans && Speechless(p) then [Constraint("empty_response_candidate", true, None)] else []) +
    (if f.arousal >= 0.75 && f.valence <= -0.55 then [Constraint("calm_response", false, None)] else []) +
    (if f.actorLabel.Some? && f.familiarity < 0.2 then [Constraint("low_familiarity", false, None)] else [])
  }

  lemma OrdinaryFirst(f: Frame)
    ensures PlanConstraints(f) + AffectConstraints(f) + RelationshipConstraints(f) == Ordinary(f)
  {
    forall p | p in f.plans ensures EmptyResponse(p) <==> Speechless(p) { EmptyIff(p); }
  }

  lemma ContextListed(cs: seq<SafetyContext>, i: nat)
    requires i < |cs|
    ensures ContextConstraints(cs)[i] ==
            Constraint(NameFor(cs[i].directive), cs[i].directive != AllowSupport, Some(cs[i]))
  {
  }

  /** The inhibition constraints in full: the ordinary ones, and then one for each context in order, or a note on the
      text when there is no context. */
  lemma InhibitionLists(f: Frame, mentions: string -> bool)
    ensures var cs, front := InhibitionConstraints(f, mentions), Ordinary(f);
            && (f.contexts != [] ==>
                  && |cs| == |front| + |f.contexts| && cs[..|front|] == front
                  && forall i :: 0 <= i < |f.contexts| ==>
                       var c := f.contexts[i];
                       cs[|front| + i] == Constraint(NameFor(c.directive), c.directive != AllowSupport, Some(c)))
            && (f.contexts == [] ==>
                  cs == front + if f.text.Some? && mentions(f.text.value)
                                then [Constraint("sensitive_safety_context", false, None)] else [])
  {
    OrdinaryFirst(f);
    forall i | 0 <= i < |f.contexts|
      ensures ContextConstraints(f.contexts)[i] ==
              Constraint(NameFor(f.contexts[i].directive), f.contexts[i].directive != AllowSupport, Some(f.contexts[i]))
    {
      ContextListed(f.contexts, i);
    }
  }

  lemma ContextNames(cs: seq<SafetyContext>)
    ensures !AnyNamed(ContextConstraints(cs), "calm_response")
  {
    forall i | 0 <= i < |cs| ensures ContextConstraints(cs)[i].name != "calm_response" {
      ContextListed(cs, i);
      assert |NameFor(cs[i].directive)| > 13 && |"calm_response"| == 13;
    }
  }

  lemma CalmNamed(f: Frame, mentions: string -> bool)
    ensures AnyNamed(InhibitionConstraints(f, mentions), "calm_response") <==> f.arousal >= 0.75 && f.valence <= -0.55
  {
    var plans, affect, relationship := PlanConstraints(f), AffectConstraints(f), RelationshipConstraints(f);
    var safety := ContextConstraints(f.contexts);
    var last := if safety != [] then safety else NoteConstraints(f, mentions);
    BlocksConcat(plans, affect);
    BlocksConcat(plans + affect, relationship);
    BlocksConcat(plans + affect + relationship, last);
    ContextNames(f.contexts);
    assert |"calm_response"| == 13 && |"sensitive_safety_context"| == 24 && |"low_familiarity"| == 15
        && |"empty_response_candidate"| == 24;
    if affect != [] { assert affect[0] in affect; }
  }

  /** The calm preference comes with the calm constraint. */
  lemma CalmPreferred(f: Frame, mentions: string -> bool)
    ensures InhibitionResult(f, mentions).preferences ==
            if f.arousal >= 0.75 && f.valence <= -0.55 then [Preference("prefer_calm_response", 1)] else []
  {
    CalmNamed(f, mentions);
  }

  /** On an idle tick the proactive policy adds a blocking constraint to a blocked frame, keeps its distance from a
      stranger and stays calm when things are tense; on anything else it adds nothing. */
  lemma ProactiveSays(f: Frame)
    ensures ProactivePolicy(f).Ok? && ProactivePolicy(f).value.Policy?
    ensures var r, tense := ProactivePolicy(f).value, f.arousal > 0.75 && f.valence < -0.55;
            if f.observation != IdleTick then r == Policy(f.constraints, f.preferences)
            else
              && r.constraints == f.constraints +
                 ((if exists c :: c in f.constraints && c.blocks then [Constraint("proactive_no_action", true, None)]
                   else []) +
                  (if f.actorLabel.Some? && f.familiarity < 0.2
                   then [Constraint("proactive_low_familiarity", false, None)] else []) +
                  (if tense then [Constraint("proactive_calm_response", false, None)] else []))
              && r.preferences == f.preferences +
                 (if tense then [Preference("prefer_calm_proactive_talk", 1)] else [])
  {
    var added := ProactiveConstraints(f);
    assert |"proactive_calm_response"| == 23 && |"proactive_low_familiarity"| == 25 && |"proactive_no_action"| == 19;
    if f.observation != IdleTick {
      assert f.constraints + [] == f.constraints && f.preferences + [] == f.preferences;
    } else if f.arousal > 0.75 && f.valence < -0.55 {
      assert added[|added| - 1] in added;
    }
  }

  /** Chat answers exactly an actor's message that is not blocked, with what the generator says unless that is blank. */
  lemma ChatAnswersIff(f: Frame, generate: Frame -> Outcome<Option<string>, Error>, priority: int)
    ensures var o, g := Chat(generate, priority)(f), generate(f);
            var asked := f.observation == ActorMessage && f.text.Some? && forall c :: c in f.constraints ==> !c.blocks;
            && (o.Raised? <==> asked && g.Raised?)
            && (o.Ok? ==>
                  o.value ==
                  ActionSelection(
                    if asked && g.value.Some? && exists x :: x in g.value.value && !IsSpace(x)
                    then [Plan("respond", Some(Free(g.value.value)), true, priority, true)] else []))
  {
    var g := generate(f);
    if g.Ok? && g.value.Some? { BlankIff(g.value.value); }
  }

  // ----- plans only accumulate ------------------------------------------------------------------------

  lemma {:induction false} PlansAccumulate(f: Frame, steps: seq<Step>)
    requires RunSteps(f, steps).Ok?
    ensures f.plans <= RunSteps(f, steps).value.plans
    decreases |steps|
  {
    if steps != [] { PlansAccumulate(StepOnce(f, steps[0]).value, steps[1..]); }
  }

  /** In any pipeline with a safety-response step: if the frame that reaches it has a context to respond to, its
      plan stands at a known place among the final candidates, and it is the one selected exactly when no earlier
      plan has priority 1000 or more and no later plan has more than 1000. */
  lemma SafetyPlanSelectedIff(f: Frame, before: seq<Step>, after: seq<Step>)
    requires RunSteps(f, before).Ok? && Strictest(RunSteps(f, before).value.contexts).Some?
    requires RunSteps(f, before + [SafetyResponse] + after).Ok?
    ensures var reached := RunSteps(f, before).value;
            var plans, at := RunSteps(f, before + [SafetyResponse] + after).value.plans, |reached.plans|;
            && at < |plans| && plans[at] == SafetyPlan(Strictest(reached.contexts).value)
            && (BestIndex(plans) == at <==>
                && (forall j :: 0 <= j < at ==> plans[j].priority < 1000)
                && (forall j :: at < j < |plans| ==> plans[j].priority <= 1000))
  {
    var reached := RunSteps(f, before).value;
    RunConcat(f, before + [SafetyResponse], after);
    RunConcat(f, before, [SafetyResponse]);
    var next := StepOnce(reached, SafetyResponse).value;
    assert [SafetyResponse][1..] == [];
    assert RunSteps(reached, [SafetyResponse]) == RunSteps(next, []) == Ok(next);
    PlansAccumulate(next, after);
    assert next.plans[|reached.plans|] == SafetyPlan(Strictest(reached.contexts).value);
    BestIndexIff(RunSteps(next, after).value.plans, |reached.plans|);
  }

  // ----- blocking is kept -----------------------------------------------------------------------------

  /** A context that forbids an ordinary answer. */
  predicate Forbids(c: SafetyContext) { c.directive != AllowSupport }

  /** The frame holds such a context and a constraint that blocks responses. */
  ghost predicate Guarded(f: Frame) { AnyBlocks(f.constraints) && exists c :: c in f.contexts && Forbids(c) }

  /** On a guarded frame the step does not replace the contexts, keeps a blocking constraint if it sets constraints,
      and offers no plan above the safety priority. */
  ghost predicate HarmlessResult(r: StepResult) {
    && !r.SafetyContexts?
    && (r.Policy? ==> AnyBlocks(r.constraints))
    && (r.ActionSelection? ==> forall i :: 0 <= i < |r.plans| ==> r.plans[i].priority <= SAFE_PRIORITY)
  }

  ghost predicate Harmless(step: Step) {
    forall f :: Guarded(f) && step(f).Ok? ==> HarmlessResult(step(f).value)
  }

  lemma ForbiddenBlocks(f: Frame, mentions: string -> bool, c: SafetyContext)
    requires c in f.contexts && Forbids(c)
    ensures AnyBlocks(InhibitionConstraints(f, mentions))
  {
    var i :| 0 <= i < |f.contexts| && f.contexts[i] == c;
    var safety := ContextConstraints(f.contexts);
    var front := PlanConstraints(f) + AffectConstraints(f) + RelationshipConstraints(f);
    assert safety[i] == ContextConstraint(c) && safety[i] in safety;
    assert InhibitionConstraints(f, mentions) == front + safety;
    assert safety[i] in front + safety;
  }

  /** The policy, safety and chat steps are harmless, chat at whatever priority. */
  lemma KnownStepsHarmless(mentions: string -> bool, generate: Frame -> Outcome<Option<string>, Error>, priority: int)
    ensures Harmless(Inhibition(mentions)) && Harmless(ProactivePolicy) && Harmless(SafetyResponse)
            && Harmless(Chat(generate, priority))
  {
    PoliciesHarmless(mentions);
    assert Harmless(SafetyResponse);
    assert Harmless(Chat(generate, priority));
  }

  lemma PoliciesHarmless(mentions: string -> bool)
    ensures Harmless(Inhibition(mentions)) && Harmless(ProactivePolicy)
  {
    forall f | Guarded(f) ensures HarmlessResult(Inhibition(mentions)(f).value) {
      var c :| c in f.contexts && Forbids(c);
      ForbiddenBlocks(f, mentions, c);
    }
    forall f | Guarded(f) ensures HarmlessResult(ProactivePolicy(f).value) {
      AddedKeepsBlocking(f.constraints, ProactiveConstraints(f));
    }
  }

  lemma AddedKeepsBlocking(cs: seq<Constraint>, added: seq<Constraint>)
    requires AnyBlocks(cs)
    ensures AnyBlocks(cs + added)
  {
    var c :| c in cs && c.blocks;
    assert c in cs + added;
  }

  /** Harmless steps keep a guarded frame guarded and add no plan above the safety priority. */
  lemma {:induction false} GuardKept(f: Frame, steps: seq<Step>)
    requires Guarded(f) && RunSteps(f, steps).Ok? && forall i :: 0 <= i < |steps| ==> Harmless(steps[i])
    ensures var g := RunSteps(f, steps).value;
            && Guarded(g) && g.contexts == f.contexts && f.plans <= g.plans
            && forall j :: |f.plans| <= j < |g.plans| ==> g.plans[j].priority <= SAFE_PRIORITY
    decreases |steps|
  {
    if steps != [] {
      var next := StepOnce(f, steps[0]).value;
      HarmlessStep(f, steps[0]);
      GuardKept(next, steps[1..]);
      var g := RunSteps(f, steps).value;
      forall j | |f.plans| <= j < |g.plans| ensures g.plans[j].priority <= SAFE_PRIORITY {
        if j < |next.plans| { assert g.plans[j] == next.plans[j]; }
      }
    }
  }

  lemma HarmlessStep(f: Frame, step: Step)
    requires Guarded(f) && Harmless(step) && StepOnce(f, step).Ok?
    ensures var next := StepOnce(f, step).value;
            && Guarded(next) && next.contexts == f.contexts && f.plans <= next.plans
            && forall j :: |f.plans| <= j < |next.plans| ==> next.plans[j].priority <= SAFE_PRIORITY
  {
    var r := step(f).value;
    assert HarmlessResult(r);
    if r.ActionSelection? {
      forall j | |f.plans| <= j < |(f.plans + r.plans)| ensures (f.plans + r.plans)[j].priority <= SAFE_PRIORITY {
        assert (f.plans + r.plans)[j] == r.plans[j - |f.plans|];
      }
    }
  }

  /** On a guarded frame the chat step changes nothing, whatever its generator would say. */
  lemma ChatSilent(f: Frame, generate: Frame -> Outcome<Option<string>, Error>, priority: int)
    requires Guarded(f)
    ensures StepOnce(f, Chat(generate, priority)) == Ok(f)
  {
    assert f.plans + [] == f.plans;
  }

  /** The wired core: classification, inhibition and safety response, then feature steps. */
  function Core(before: seq<Step>, classify: Step, mentions: string -> bool, features: seq<Step>): (steps: seq<Step>) {
    before + [classify, Inhibition(mentions), SafetyResponse] + features
  }

  /** The frame after the three core steps. */
  lemma CoreReached(f: Frame, classify: Step, mentions: string -> bool, contexts: seq<SafetyContext>)
    requires classify(f) == Ok(SafetyContexts(contexts))
    requires exists c :: c in contexts && Forbids(c)
    ensures var o := RunSteps(f, [classify, Inhibition(mentions), SafetyResponse]);
            && o.Ok? && Guarded(o.value) && o.value.contexts == contexts
            && o.value.plans ==
               f.plans + (if Strictest(contexts).Some? then [SafetyPlan(Strictest(contexts).value)] else [])
  {
    InhibitionGuards(f.(contexts := contexts), mentions);
    GuardedCore(f, classify, Inhibition(mentions), contexts);
  }

  lemma GuardedCore(f: Frame, classify: Step, inhibit: Step, contexts: seq<SafetyContext>)
    requires classify(f) == Ok(SafetyContexts(contexts))
    requires var o := StepOnce(f.(contexts := contexts), inhibit);
             o.Ok? && Guarded(o.value) && o.value.contexts == contexts && o.value.plans == f.plans
    ensures var o := RunSteps(f, [classify, inhibit, SafetyResponse]);
            && o.Ok? && Guarded(o.value) && o.value.contexts == contexts
            && o.value.plans ==
               f.plans + (if Strictest(contexts).Some? then [SafetyPlan(Strictest(contexts).value)] else [])
  {
    var f2 := StepOnce(f.(contexts := contexts), inhibit).value;
    RunThree(f, classify, inhibit, SafetyResponse, f.(contexts := contexts), f2);
    assert StepOnce(f2, SafetyResponse).value.constraints == f2.constraints;
  }

  lemma InhibitionGuards(f: Frame, mentions: string -> bool)
    requires exists c :: c in f.contexts && Forbids(c)
    ensures var o := StepOnce(f, Inhibition(mentions));
            o.Ok? && Guarded(o.value) && o.value.contexts == f.contexts && o.value.plans == f.plans
  {
    var r := InhibitionResult(f, mentions);
    var c :| c in f.contexts && Forbids(c);
    ForbiddenBlocks(f, mentions, c);
    PolicyGuards(f, r.constraints, r.preferences);
  }

  lemma PolicyGuards(f: Frame, constraints: seq<Constraint>, preferences: seq<Preference>)
    requires AnyBlocks(constraints) && exists c :: c in f.contexts && Forbids(c)
    ensures var o := Apply(f, Policy(constraints, preferences));
            o.Ok? && Guarded(o.value) && o.value.contexts == f.contexts && o.value.plans == f.plans
  {
  }

  lemma RunThree(f: Frame, a: Step, b: Step, c: Step, f1: Frame, f2: Frame)
    requires StepOnce(f, a) == Ok(f1) && StepOnce(f1, b) == Ok(f2)
    ensures RunSteps(f, [a, b, c]) == StepOnce(f2, c)
  {
    var steps := [a, b, c];
    assert steps[1..] == [b, c] && [b, c][1..] == [c] && [c][1..] == [];
    assert RunSteps(f1, [b, c]) == RunSteps(f2, [c]);
  }

  /** In every core pipeline: when classification finds a context to refuse or redirect, the plan selected in the end
      is the safety plan of the strictest context, provided plans made before stay below 1000 and the feature
      steps are harmless. */
  lemma CoreCycleSafe(f: Frame, before: seq<Step>, classify: Step, mentions: string -> bool, features: seq<Step>,
                      contexts: seq<SafetyContext>)
    requires RunSteps(f, before).Ok? && classify(RunSteps(f, before).value) == Ok(SafetyContexts(contexts))
    requires Strictest(contexts).Some?
    requires RunSteps(f, Core(before, classify, mentions, features)).Ok?
    requires forall j :: 0 <= j < |RunSteps(f, before).value.plans| ==>
             RunSteps(f, before).value.plans[j].priority < 1000
    requires forall i :: 0 <= i < |features| ==> Harmless(features[i])
    ensures var plans := RunSteps(f, Core(before, classify, mentions, features)).value.plans;
            var at := |RunSteps(f, before).value.plans|;
            FirstBest(plans, at) && plans[at] == SafetyPlan(Strictest(contexts).value)
  {
    var reached := RunSteps(f, before).value;
    var core := [classify, Inhibition(mentions), SafetyResponse];
    StrictestExists(contexts);
    assert Forbids(Strictest(contexts).value);
    CoreReached(reached, classify, mentions, contexts);
    RunConcat(f, before + core, features);
    RunConcat(f, before, core);
    var middle := RunSteps(reached, core).value;
    GuardKept(middle, features);
    BestInTheMiddle(reached.plans, SafetyPlan(Strictest(contexts).value), middle.plans,
                    RunSteps(middle, features).value.plans);
  }

  /** The fixed answer to a context: a refusal or a redirect in the words for its category, not to be interrupted. */
  ghost predicate AnswersSafely(p: Plan, c: SafetyContext) {
    && p.intent == (if c.directive == Refuse then "safety_refusal" else "safe_redirect")
    && p.text == Some(if c.directive == Refuse && c.category == PersonalData then PersonalDataRefusal
                      else if c.directive == Refuse then HarmRefusal
                      else if c.category == SelfHarm then SelfHarmRedirect else DangerRedirect)
    && p.shouldRespond && !p.interruptible && p.priority == 1000
  }

  lemma SafetyPlanAnswers(c: SafetyContext)
    requires Responds(c)
    ensures AnswersSafely(SafetyPlan(c), c)
    ensures SafetyPlan(c).intent == "safety_refusal" <==> c.directive == Refuse
  {
    assert "safety_refusal"[3] != "safe_redirect"[3] || "safety_refusal"[4] != "safe_redirect"[4];
  }

  /** So that is what the cycle returns, whatever its fallback. */
  lemma CoreCycleSelects(
    f: Frame, before: seq<Step>, classify: Step, mentions: string -> bool, features: seq<Step>,
    contexts: seq<SafetyContext>, fallback: Plan)
    requires RunSteps(f, before).Ok? && classify(RunSteps(f, before).value) == Ok(SafetyContexts(contexts))
    requires exists c :: c in contexts && Responds(c)
    requires RunSteps(f, Core(before, classify, mentions, features)).Ok?
    requires forall j :: 0 <= j < |RunSteps(f, before).value.plans| ==>
             RunSteps(f, before).value.plans[j].priority < 1000
    requires forall i :: 0 <= i < |features| ==> Harmless(features[i])
    ensures var r := RunCycle(f, Core(before, classify, mentions, features), fallback);
            && r.Ok? && Strictest(contexts).Some? && r.value.selected == SafetyPlan(Strictest(contexts).value)
            && AnswersSafely(r.value.selected, Strictest(contexts).value)
            && (r.value.selected.intent == "safety_refusal" <==> exists c :: c in contexts && c.directive == Refuse)
  {
    RefusalWins(contexts);
    StrictestExists(contexts);
    SafetyPlanAnswers(Strictest(contexts).value);
    CoreCycleSafe(f, before, classify, mentions, features, contexts);
    var plans := RunSteps(f, Core(before, classify, mentions, features)).value.plans;
    BestIndexIff(plans, |RunSteps(f, before).value.plans|);
  }

  lemma BestInTheMiddle(early: seq<Plan>, p: Plan, middle: seq<Plan>, plans: seq<Plan>)
    requires middle == early + [p] && middle <= plans && p.priority == SAFE_PRIORITY
    requires forall j :: 0 <= j < |early| ==> early[j].priority < 1000
    requires forall j :: |middle| <= j < |plans| ==> plans[j].priority <= SAFE_PRIORITY
    ensures FirstBest(plans, |early|) && plans[|early|] == p
  {
    assert plans[|early|] == middle[|early|];
    forall j | 0 <= j < |early| ensures plans[j].priority < 1000 { assert plans[j] == middle[j] == early[j]; }
  }

  /** In every core pipeline: when classification finds a context that forbids an answer, a chat step among harmless
      features has no effect at all: the cycle ends as it would without it. */
  lemma ChatHasNoEffect(
    f: Frame, before: seq<Step>, classify: Step, mentions: string -> bool, contexts: seq<SafetyContext>,
    early: seq<Step>, late: seq<Step>, generate: Frame -> Outcome<Option<string>, Error>, priority: int)
    requires RunSteps(f, before).Ok? && classify(RunSteps(f, before).value) == Ok(SafetyContexts(contexts))
    requires exists c :: c in contexts && c.directive != AllowSupport
    requires forall i :: 0 <= i < |early| ==> Harmless(early[i])
    ensures RunSteps(f, Core(before, classify, mentions, early + [Chat(generate, priority)] + late)) ==
            RunSteps(f, Core(before, classify, mentions, early + late))
  {
    var core := [classify, Inhibition(mentions), SafetyResponse];
    var chat := Chat(generate, priority);
    assert exists c :: c in contexts && Forbids(c) by {
      var c :| c in contexts && c.directive != AllowSupport;
      assert Forbids(c);
    }
    CoreReached(RunSteps(f, before).value, classify, mentions, contexts);
    RunConcat(f, before, core);
    RunConcat(f, before + core, early + [chat] + late);
    RunConcat(f, before + core, early + late);
    ChatSkipped(RunSteps(f, before + core).value, early, late, generate, priority);
  }

  lemma ChatSkipped(f: Frame, early: seq<Step>, late: seq<Step>, generate: Frame -> Outcome<Option<string>, Error>,
                    priority: int)
    requires Guarded(f) && forall i :: 0 <= i < |early| ==> Harmless(early[i])
    ensures RunSteps(f, early + [Chat(generate, priority)] + late) == RunSteps(f, early + late)
  {
    var chat := Chat(generate, priority);
    RunConcat(f, early, late);
    RunConcat(f, early + [chat], late);
    RunConcat(f, early, [chat]);
    if RunSteps(f, early).Ok? {
      var g := RunSteps(f, early).value;
      GuardKept(f, early);
      ChatSilent(g, generate, priority);
      assert [chat][1..] == [];
      assert RunSteps(g, [chat]) == RunSteps(g, []);
    }
  }

  /** A context to block silences nothing by itself: a safety plan is made exactly when some context asks for a
      refusal or a redirect, whether or not another one is to be blocked. */
  lemma SafetyPlanIff(f: Frame)
    ensures SafetyResponse(f).value.plans != [] <==> exists c :: c in f.contexts && Responds(c)
  {
    StrictestExists(f.contexts);
  }

  /** A context to block beside one to redirect: the redirect is answered all the same. */
  lemma BlockDoesNotSilence(f: Frame) returns (contexts: seq<SafetyContext>)
    ensures |contexts| == 2 && contexts[0].directive == Block && contexts[1].directive == SafeRedirect
    ensures SafetyResponse(f.(contexts := contexts)) == Ok(ActionSelection([SafetyPlan(contexts[1])]))
  {
    var block := SafetyContext(Violence, High, 1.0, Block);
    var redirect := SafetyContext(SelfHarm, Low, 0.5, SafeRedirect);
    contexts := [block, redirect];
    assert contexts[..1] == [block] && contexts[..1][..0] == [];
    assert Strictest([block]).None?;
  }

  // ----- the cycle ------------------------------------------------------------------------------------

  /** `_select_action_plan` */
  method SelectActionPlan(plans: seq<Plan>, fallback: Plan) returns (selected: Plan)
    ensures selected == Selected(plans, fallback)
    ensures plans == [] ==> selected == fallback
    ensures plans != [] ==> exists i: nat :: FirstBest(plans, i) && selected == plans[i]
  {
    if plans == [] { return fallback; }
    selected := plans[0];
    ghost var at := 0;
    var best := selected.priority;
    var i := 1;
    while i < |plans|
      invariant 1 <= i <= |plans| && at < i && selected == plans[at] && best == selected.priority
      invariant forall j :: 0 <= j < i ==> plans[j].priority <= best
      invariant forall j :: 0 <= j < at ==> plans[j].priority < best
    {
      if plans[i].priority > best {
        selected, best := plans[i], plans[i].priority;
        at := i;
      }
      i := i + 1;
    }
    BestIndexIff(plans, at);
  }

  /** `_constraints_for_candidate_actions` */
  method ConstraintsForCandidateActions(f: Frame) returns (r: seq<Constraint>)
    ensures r == PlanConstraints(f)
  {
    r := [];
    var i := 0;
    while i < |f.plans|
      invariant i <= |f.plans| && r == [] && forall j :: 0 <= j < i ==> !EmptyResponse(f.plans[j])
    {
      if EmptyResponse(f.plans[i]) {
        assert f.plans[i] in f.plans;
        return [Constraint("empty_response_candidate", true, None)];
      }
      i := i + 1;
    }
  }

  /** `PolicyInhibitionStep.run` */
  method RunInhibition(f: Frame, mentions: string -> bool) returns (r: StepResult)
    ensures r == InhibitionResult(f, mentions)
  {
    var constraints := ConstraintsForCandidateActions(f);
    constraints := constraints + AffectConstraints(f);
    constraints := constraints + RelationshipConstraints(f);
    var safety := ContextConstraints(f.contexts);
    if safety != [] {
      constraints := constraints + safety;
    } else {
      constraints := constraints + NoteConstraints(f, mentions);
    }
    var preferences := [];
    if AnyNamed(constraints, "calm_response") { preferences := [Preference("prefer_calm_response", 1)]; }
    r := Policy(constraints, preferences);
  }

  class Cycle {
    const steps: seq<Step>
    const fallback: Plan

    constructor (steps: seq<Step>, fallback: Plan)
      ensures this.steps == steps && this.fallback == fallback
    {
      this.steps := steps;
      this.fallback := fallback;
    }

    /** Runs every step in order and selects a plan from the final frame; the first failure ends the cycle. */
    method Run(initial: Frame) returns (r: Outcome<CycleResult, Error>)
      ensures r == RunCycle(initial, steps, fallback)
    {
      var frame := initial;
      var i := 0;
      assert steps[0..] == steps;
      while i < |steps|
        invariant i <= |steps| && RunSteps(frame, steps[i..]) == RunSteps(initial, steps)
      {
        assert steps[i..][0] == steps[i] && steps[i..][1..] == steps[i + 1..];
        var result := steps[i](frame);
        if result.Raised? { return Raised(result.error); }
        var next := Apply(frame, result.value);
        if next.Raised? { return Raised(next.error); }
        frame := next.value;
        i := i + 1;
      }
      assert steps[i..] == [];
      var selected := SelectActionPlan(frame.plans, fallback);
      r := Ok(CycleResult(frame, selected));
    }
  }
}
