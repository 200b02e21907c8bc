/** The delivery safety gates (iris/safety/delivery_gate.py, iris/safety/policy_engine.py,
    iris/contracts/surface_policy.py). */
module DeliveryGates {
  import opened Prelude
  import opened PyText

  // ----- quiet hours ----------------------------------------------------------------------------------

  /** Microseconds in a day; times of day count from midnight. */
  const DAY: int := 86_400_000_000

  type TimeOfDay = t: int | 0 <= t < DAY witness 0

  /** The zone's offset from UTC at an instant is given by `offset`. */
  datatype QuietHours = QuietHours(enabled: bool, start: TimeOfDay, end: TimeOfDay, offset: int -> int)

  function LocalTime(q: QuietHours, now: int): (t: TimeOfDay) { (now + q.offset(now)) % DAY }

  predicate InWindow(start: TimeOfDay, end: TimeOfDay, current: TimeOfDay) {
    if start < end then start <= current < end else current >= start || current < end
  }

  predicate IsQuiet(q: QuietHours, now: int) { q.enabled && InWindow(q.start, q.end, LocalTime(q, now)) }

  lemma ModUnique(a: int, r: int, k: int)
    requires a == k * DAY + r && 0 <= r < DAY
    ensures a % DAY == r
  {
    assert a % DAY - r == (k - a / DAY) * DAY;
  }

  /** A difference of times of day, around the clock. */
  lemma ClockDifference(a: TimeOfDay, b: TimeOfDay)
    ensures (a - b) % DAY == if a >= b then a - b else a - b + DAY
  {
    if a >= b { ModUnique(a - b, a - b, 0); } else { ModUnique(a - b, a - b + DAY, -1); }
  }

  /** Quiet hours are an arc of the clock: from `start` for `end - start`, around midnight or not; and when both
      ends coincide, the whole clock. */
  lemma QuietIsArc(q: QuietHours, now: int)
    ensures !q.enabled ==> !IsQuiet(q, now)
    ensures q.enabled && q.start != q.end ==>
              (IsQuiet(q, now) <==>
               (now + q.offset(now) - q.start) % 86_400_000_000 < (q.end - q.start) % 86_400_000_000)
    ensures q.enabled && q.start == q.end ==> IsQuiet(q, now)
  {
    var local := now + q.offset(now);
    ClockDifference(LocalTime(q, now), q.start);
    ClockDifference(q.end, q.start);
    var d := (LocalTime(q, now) - q.start) % DAY;
    var k := if LocalTime(q, now) >= q.start then local / DAY else local / DAY - 1;
    assert local - q.start == k * DAY + d;
    ModUnique(local - q.start, d, k);
  }

  /** The wait until quiet hours are over. */
  function Wait(q: QuietHours, now: int): (w: int)
    ensures 0 <= w < DAY
  {
    if IsQuiet(q, now) then (q.end - LocalTime(q, now)) % DAY else 0
  }

  lemma LaterLocal(q: QuietHours, now: int, d: nat)
    requires d < DAY && q.offset(now + d) == q.offset(now)
    ensures var later := LocalTime(q, now) + d; LocalTime(q, now + d) == if later < DAY then later else later - DAY
  {
    var a, l := now + q.offset(now), LocalTime(q, now);
    if l + d < DAY { ModUnique(a + d, l + d, a / DAY); } else { ModUnique(a + d, l + d - DAY, a / DAY + 1); }
  }

  /** Under a steady offset a quiet moment stays quiet for exactly the wait and no longer, unless it is always
      quiet. */
  lemma QuietEnds(q: QuietHours, now: int, d: nat)
    requires q.start != q.end && IsQuiet(q, now) && d <= Wait(q, now)
    requires forall x :: now <= x < now + DAY ==> q.offset(x) == q.offset(now)
    ensures IsQuiet(q, now + d) <==> d < Wait(q, now)
  {
    LaterLocal(q, now, d);
    ClockDifference(q.end, LocalTime(q, now));
  }

  // ----- inputs and decisions -------------------------------------------------------------------------

  datatype Surface = PrivateDirectMessage | PublicChannel | Voice | Avatar | Notification | UnknownSurface

  datatype Target = Target(provider: string, subject: Option<string>, spaceRef: Option<string>, surface: Surface)

  datatype Output = Output(text: Option<string>, interruptible: bool)

  datatype Availability = Unknown | Available | Interruptible | Passive | Busy | Unavailable

  datatype Source = UserInitiated | ProactiveIdleTick

  datatype Severity = LowSeverity | MediumSeverity | HighSeverity

  datatype Risk = LowRisk | MediumRisk | HighRisk

  datatype Context = Context(
    source: Source,
    targetKey: string,
    constraintNames: seq<string>,
    severities: seq<Severity>,
    availability: Option<Availability>,
    inQuietHours: bool,
    recentBlockCount: int)

  datatype Audit = Audit(policy: string, version: string, source: Source, targetKey: string)

  datatype Decision = Decision(allowed: bool, reason: string, risk: Risk, audit: Option<Audit>)

  /** One delivery as the gates see it; availability is the status of the snapshot, if there is one. */
  datatype Request = Request(target: Target, output: Output, availability: Option<Availability>, now: int,
                             context: Option<Context>)

  function Text(s: Option<string>): (r: string) { if s.Some? then s.value else "" }

  function TargetKey(t: Target): (k: string) { t.provider + ":" + Text(t.subject) + ":" + Text(t.spaceRef) }

  predicate Sendable(o: Output) { o.text.Some? && !Blank(o.text.value) }

  function Plain(allowed: bool, reason: string): (d: Decision) { Decision(allowed, reason, LowRisk, None) }

  /** The first reason that is given. */
  function First(a: Option<string>, b: Option<string>): (r: Option<string>) { if a.Some? then a else b }

  function Verdict(reason: Option<string>): (d: Decision) {
    if reason.Some? then Plain(false, reason.value) else Plain(true, "allowed")
  }

  // ----- basic ----------------------------------------------------------------------------------------

  function OutputReason(o: Output): (r: Option<string>) { if Sendable(o) then None else Some("output_not_sendable") }

  function TargetReason(t: Target): (r: Option<string>) {
    if t.provider == "" then Some("missing_provider")
    else if t.subject.None? && t.spaceRef.None? then Some("missing_route")
    else None
  }

  function AvailabilityReason(a: Option<Availability>): (r: Option<string>) {
    if a == Some(Busy) then Some("availability_busy")
    else if a == Some(Unavailable) then Some("availability_unavailable")
    else None
  }

  function QuietReason(q: QuietHours, now: int): (r: Option<string>) {
    if IsQuiet(q, now) then Some("quiet_hours") else None
  }

  function CheckTargetOutput(t: Target, o: Output): (d: Decision) { Verdict(First(OutputReason(o), TargetReason(t))) }

  function BasicCheck(q: QuietHours, r: Request): (d: Decision) {
    var pre := CheckTargetOutput(r.target, r.output);
    if !pre.allowed then pre else Verdict(First(AvailabilityReason(r.availability), QuietReason(q, r.now)))
  }

  // ----- strict ---------------------------------------------------------------------------------------

  datatype Strict = Strict(quiet: QuietHours, repeatedBlockThreshold: int)

  function ProactiveBlock(s: Strict, c: Context): (r: Option<(string, Risk)>) {
    if c.source != ProactiveIdleTick then None
    else if HighSeverity in c.severities then Some(("proactive_high_risk_safety_context", HighRisk))
    else if "sensitive_safety_context" in c.constraintNames then Some(("proactive_sensitive_safety_context", HighRisk))
    else if c.availability == Some(Busy) then Some(("availability_busy", MediumRisk))
    else if c.availability == Some(Unavailable) then Some(("availability_unavailable", MediumRisk))
    else if c.inQuietHours then Some(("quiet_hours", MediumRisk))
    else if c.recentBlockCount >= s.repeatedBlockThreshold then Some(("repeated_recent_blocks", MediumRisk))
    else None
  }

  function EvaluateDelivery(s: Strict, c: Context): (d: Decision) {
    var audit := Some(Audit("strict_delivery", "1", c.source, c.targetKey));
    var block := ProactiveBlock(s, c);
    if block.Some? then Decision(false, block.value.0, block.value.1, audit)
    else Decision(true, "allowed", LowRisk, audit)
  }

  function ContextOf(r: Request): (c: Context) {
    if r.context.Some? then r.context.value else Context(UserInitiated, TargetKey(r.target), [], [], None, false, 0)
  }

  function StrictCheck(s: Strict, r: Request): (d: Decision) {
    var pre := CheckTargetOutput(r.target, r.output);
    var c := ContextOf(r);
    if !pre.allowed then pre
    else if c.source == UserInitiated then BasicCheck(s.quiet, r)
    else EvaluateDelivery(s, c.(availability := r.availability, inQuietHours := IsQuiet(s.quiet, r.now)))
  }

  // ----- production -----------------------------------------------------------------------------------

  datatype SurfacePolicy = SurfacePolicy(
    allowedSurfaces: set<Surface>,
    allowedProviders: set<string>,
    deniedSurfaces: set<Surface>,
    deniedProviders: set<string>)

  datatype UserControl = UserControl(optOut: bool, muted: bool, blocked: bool, interruptionsAllowed: bool)

  datatype VerifierStatus = VerifierAvailable | Warming | VerifierBusy | VerifierUnavailable

  /** The user-control store answers by target key; without a store it answers nothing. The verifier is not
      configured, or has a status. */
  datatype Production = Production(
    strict: Strict,
    surfaces: SurfacePolicy,
    userControl: string -> Option<UserControl>,
    finalVerifier: bool,
    verifier: Option<VerifierStatus>)

  function SurfaceReason(p: SurfacePolicy, surface: Surface, provider: string): (r: Option<string>) {
    if surface in p.deniedSurfaces then Some("surface_denied")
    else if provider in p.deniedProviders then Some("provider_denied")
    else if p.allowedSurfaces != {} && surface !in p.allowedSurfaces then Some("surface_not_allowed")
    else if p.allowedProviders != {} && provider !in p.allowedProviders then Some("provider_not_allowed")
    else None
  }

  function UserControlReason(p: Production, t: Target, o: Output): (r: Option<string>) {
    var state := p.userControl(TargetKey(t));
    if state.None? then None
    else if state.value.optOut then Some("user_opted_out")
    else if state.value.muted then Some("user_muted")
    else if state.value.blocked then Some("user_blocked")
    else if o.interruptible && !state.value.interruptionsAllowed then Some("interruptions_disabled")
    else None
  }

  function VerifierReason(p: Production): (r: Option<string>) {
    if !p.finalVerifier then None
    else match p.verifier
      case None => Some("verifier_not_configured")
      case Some(VerifierAvailable) => None
      case Some(Warming) => Some("verifier_warming")
      case Some(VerifierBusy) => Some("verifier_busy")
      case Some(VerifierUnavailable) => Some("verifier_unavailable")
  }

  function ProductionBlockReason(p: Production, t: Target, o: Output): (r: Option<string>) {
    if t.surface == UnknownSurface then Some("unknown_delivery_surface")
    else
      var violation := SurfaceReason(p.surfaces, t.surface, t.provider);
      if violation.Some? then violation else First(UserControlReason(p, t, o), VerifierReason(p))
  }

  function ProductionCheck(p: Production, r: Request): (d: Decision) {
    var block := ProductionBlockReason(p, r.target, r.output);
    if block.Some? then
      Decision(false, block.value, HighRisk,
               Some(Audit("production_delivery", "2", ContextOf(r).source, TargetKey(r.target))))
    else StrictCheck(p.strict, r)
  }

  // ----- the refinement chain -------------------------------------------------------------------------

  /** What a deliverable request looks like. */
  ghost predicate Deliverable(q: QuietHours, r: Request) {
    && r.output.text.Some? && (exists c :: c in r.output.text.value && !IsSpace(c))
    && r.target.provider != "" && (r.target.subject.Some? || r.target.spaceRef.Some?)
    && r.availability !in {Some(Busy), Some(Unavailable)} && !IsQuiet(q, r.now)
  }

  ghost predicate Proactive(r: Request) { r.context.Some? && r.context.value.source == ProactiveIdleTick }

  /** The name under which user control knows a target. */
  ghost function KnownAs(t: Target): (k: string) {
    t.provider + ":" + (if t.subject.Some? then t.subject.value else "") + ":"
    + (if t.spaceRef.Some? then t.spaceRef.value else "")
  }

  /** What strict asks of a proactive delivery on top. */
  ghost predicate Welcome(s: Strict, r: Request) {
    Proactive(r) ==>
      && (forall x :: x in r.context.value.severities ==> x != HighSeverity)
      && "sensitive_safety_context" !in r.context.value.constraintNames
      && r.context.value.recentBlockCount < s.repeatedBlockThreshold
  }

  /** What production asks on top. */
  ghost predicate Permitted(p: Production, r: Request) {
    && r.target.surface != UnknownSurface
    && r.target.surface !in p.surfaces.deniedSurfaces && r.target.provider !in p.surfaces.deniedProviders
    && (p.surfaces.allowedSurfaces == {} || r.target.surface in p.surfaces.allowedSurfaces)
    && (p.surfaces.allowedProviders == {} || r.target.provider in p.surfaces.allowedProviders)
    && (var u := p.userControl(KnownAs(r.target));
        u.Some? ==>
          && !u.value.optOut && !u.value.muted && !u.value.blocked
          && (r.output.interruptible ==> u.value.interruptionsAllowed))
    && (p.finalVerifier ==> p.verifier == Some(VerifierAvailable))
  }

  lemma BasicExact(q: QuietHours, r: Request)
    ensures BasicCheck(q, r).allowed <==> Deliverable(q, r)
  {
    SendableIff(r.output);
  }

  lemma SendableIff(o: Output)
    ensures Sendable(o) <==> o.text.Some? && exists c :: c in o.text.value && !IsSpace(c)
  {
    if o.text.Some? { BlankIff(o.text.value); }
  }

  lemma StrictExact(s: Strict, r: Request)
    ensures StrictCheck(s, r).allowed <==> BasicCheck(s.quiet, r).allowed && Welcome(s, r)
  {
    BasicExact(s.quiet, r);
    if r.context.Some? {
      assert (forall x :: x in r.context.value.severities ==> x != HighSeverity) <==>
             HighSeverity !in r.context.value.severities;
    }
  }

  lemma PermittedIff(p: Production, r: Request)
    ensures ProductionBlockReason(p, r.target, r.output).None? <==> Permitted(p, r)
  {
    assert TargetKey(r.target) == KnownAs(r.target);
    var u := p.userControl(TargetKey(r.target));
  }

  /** Each gate allows exactly what the gate below allows and its own conditions admit; a caller's claims about
      availability and quiet hours in the context have no say. */
  lemma GatesRefine(p: Production, r: Request)
    ensures BasicCheck(p.strict.quiet, r).allowed <==> Deliverable(p.strict.quiet, r)
    ensures StrictCheck(p.strict, r).allowed <==> BasicCheck(p.strict.quiet, r).allowed && Welcome(p.strict, r)
    ensures ProductionCheck(p, r).allowed <==> StrictCheck(p.strict, r).allowed && Permitted(p, r)
  {
    BasicExact(p.strict.quiet, r);
    StrictExact(p.strict, r);
    PermittedIff(p, r);
  }

  lemma StrictAudit(s: Strict, r: Request)
    ensures var audit := StrictCheck(s, r).audit; audit.Some? ==> audit.value.policy == "strict_delivery"
  {
  }

  /** A production refusal is audited as such at high risk exactly when production's own conditions fail; else
      the decision is strict's, unchanged. */
  lemma ProductionDecides(p: Production, r: Request)
    ensures Permitted(p, r) ==> ProductionCheck(p, r) == StrictCheck(p.strict, r)
    ensures !Permitted(p, r) ==> !ProductionCheck(p, r).allowed && ProductionCheck(p, r).risk == HighRisk
    ensures (ProductionCheck(p, r).audit.Some?
             && ProductionCheck(p, r).audit.value.policy == "production_delivery") <==> !Permitted(p, r)
    ensures !Permitted(p, r) ==>
              ProductionCheck(p, r).audit ==
              Some(Audit("production_delivery", "2", if Proactive(r) then ProactiveIdleTick else UserInitiated,
                         KnownAs(r.target)))
  {
    assert TargetKey(r.target) == KnownAs(r.target);
    PermittedIff(p, r);
    StrictAudit(p.strict, r);
    assert "strict_delivery"[0] != "production_delivery"[0];
  }

  // ----- reasons --------------------------------------------------------------------------------------

  /** A condition and the reason given when it fails. */
  datatype Check = Check(holds: bool, reason: string)

  ghost function FirstFailing(checks: seq<Check>): (r: Option<string>) {
    if checks == [] then None else if !checks[0].holds then Some(checks[0].reason) else FirstFailing(checks[1..])
  }

  lemma {:induction false} FailingConcat(a: seq<Check>, b: seq<Check>)
    ensures FirstFailing(a + b) == First(FirstFailing(a), FirstFailing(b))
  {
    if a == [] {
      assert a + b == b;
    } else {
      assert (a + b)[1..] == a[1..] + b;
      FailingConcat(a[1..], b);
    }
  }

  ghost function SurfaceChecks(p: SurfacePolicy, t: Target): (cs: seq<Check>) {
    [Check(t.surface != UnknownSurface, "unknown_delivery_surface"),
     Check(t.surface !in p.deniedSurfaces, "surface_denied"),
     Check(t.provider !in p.deniedProviders, "provider_denied"),
     Check(p.allowedSurfaces == {} || t.surface in p.allowedSurfaces, "surface_not_allowed"),
     Check(p.allowedProviders == {} || t.provider in p.allowedProviders, "provider_not_allowed")]
  }

  ghost function ControlChecks(p: Production, t: Target, o: Output): (cs: seq<Check>) {
    var u := p.userControl(KnownAs(t));
    [Check(u.Some? ==> !u.value.optOut, "user_opted_out"),
     Check(u.Some? ==> !u.value.muted, "user_muted"),
     Check(u.Some? ==> !u.value.blocked, "user_blocked"),
     Check(u.Some? && o.interruptible ==> u.value.interruptionsAllowed, "interruptions_disabled")]
  }

  ghost function VerifierChecks(p: Production): (cs: seq<Check>) {
    [Check(p.finalVerifier ==> p.verifier.Some?, "verifier_not_configured"),
     Check(p.finalVerifier ==> p.verifier != Some(Warming), "verifier_warming"),
     Check(p.finalVerifier ==> p.verifier != Some(VerifierBusy), "verifier_busy"),
     Check(p.finalVerifier ==> p.verifier != Some(VerifierUnavailable), "verifier_unavailable")]
  }

  ghost function RouteChecks(t: Target, o: Output): (cs: seq<Check>) {
    [Check(o.text.Some? && exists c :: c in o.text.value && !IsSpace(c), "output_not_sendable"),
     Check(t.provider != "", "missing_provider"),
     Check(t.subject.Some? || t.spaceRef.Some?, "missing_route")]
  }

  ghost function SafetyChecks(r: Request): (cs: seq<Check>) {
    if !Proactive(r) then []
    else
      [Check(HighSeverity !in r.context.value.severities, "proactive_high_risk_safety_context"),
       Check("sensitive_safety_context" !in r.context.value.constraintNames, "proactive_sensitive_safety_context")]
  }

  ghost function MomentChecks(q: QuietHours, r: Request): (cs: seq<Check>) {
    [Check(r.availability != Some(Busy), "availability_busy"),
     Check(r.availability != Some(Unavailable), "availability_unavailable"),
     Check(!IsQuiet(q, r.now), "quiet_hours")]
  }

  ghost function RepeatChecks(s: Strict, r: Request): (cs: seq<Check>) {
    if !Proactive(r) then []
    else [Check(r.context.value.recentBlockCount < s.repeatedBlockThreshold, "repeated_recent_blocks")]
  }

  /** Everything the production gate checks, in its order. */
  ghost function AllChecks(p: Production, r: Request): (cs: seq<Check>) {
    SurfaceChecks(p.surfaces, r.target) + (ControlChecks(p, r.target, r.output) + (VerifierChecks(p) +
    (RouteChecks(r.target, r.output) + (SafetyChecks(r) + (MomentChecks(p.strict.quiet, r) +
    RepeatChecks(p.strict, r))))))
  }

  lemma {:induction false} FailingUnfold(c: Check, rest: seq<Check>)
    ensures FirstFailing([c] + rest) == if !c.holds then Some(c.reason) else FirstFailing(rest)
  {
    assert ([c] + rest)[1..] == rest;
  }

  lemma Failing2(a: Check, b: Check)
    ensures FirstFailing([a, b]) == if !a.holds then Some(a.reason) else if !b.holds then Some(b.reason) else None
  {
    FailingUnfold(a, [b]);
    FailingUnfold(b, []);
    assert [a, b] == [a] + [b] && [b] == [b] + [];
  }

  lemma Failing3(a: Check, b: Check, c: Check)
    ensures FirstFailing([a, b, c]) == if !a.holds then Some(a.reason) else FirstFailing([b, c])
  {
    FailingUnfold(a, [b, c]);
    assert [a, b, c] == [a] + [b, c];
    Failing2(b, c);
  }

  lemma Failing4(a: Check, b: Check, c: Check, d: Check)
    ensures FirstFailing([a, b, c, d]) == if !a.holds then Some(a.reason) else FirstFailing([b, c, d])
  {
    FailingUnfold(a, [b, c, d]);
    assert [a, b, c, d] == [a] + [b, c, d];
  }

  lemma SurfaceFails(p: SurfacePolicy, t: Target)
    ensures FirstFailing(SurfaceChecks(p, t)) ==
            if t.surface == UnknownSurface then Some("unknown_delivery_surface")
            else SurfaceReason(p, t.surface, t.provider)
  {
    var cs := SurfaceChecks(p, t);
    FailingUnfold(cs[0], cs[1..]);
    assert cs == [cs[0]] + cs[1..] && cs[1..] == [cs[1], cs[2], cs[3], cs[4]];
    Failing4(cs[1], cs[2], cs[3], cs[4]);
    Failing3(cs[2], cs[3], cs[4]);
    Failing2(cs[3], cs[4]);
  }

  lemma ControlFails(p: Production, t: Target, o: Output)
    ensures FirstFailing(ControlChecks(p, t, o)) == UserControlReason(p, t, o)
  {
    assert TargetKey(t) == KnownAs(t);
    var cs := ControlChecks(p, t, o);
    assert cs == [cs[0], cs[1], cs[2], cs[3]];
    Failing4(cs[0], cs[1], cs[2], cs[3]);
    Failing3(cs[1], cs[2], cs[3]);
    Failing2(cs[2], cs[3]);
  }

  lemma VerifierFails(p: Production)
    ensures FirstFailing(VerifierChecks(p)) == VerifierReason(p)
  {
    var cs := VerifierChecks(p);
    assert cs == [cs[0], cs[1], cs[2], cs[3]];
    Failing4(cs[0], cs[1], cs[2], cs[3]);
    Failing3(cs[1], cs[2], cs[3]);
    Failing2(cs[2], cs[3]);
  }

  lemma RouteFails(t: Target, o: Output)
    ensures FirstFailing(RouteChecks(t, o)) == First(OutputReason(o), TargetReason(t))
  {
    SendableIff(o);
    var cs := RouteChecks(t, o);
    assert cs == [cs[0], cs[1], cs[2]];
    Failing3(cs[0], cs[1], cs[2]);
    Failing2(cs[1], cs[2]);
  }

  lemma MomentFails(q: QuietHours, r: Request)
    ensures FirstFailing(MomentChecks(q, r)) == First(AvailabilityReason(r.availability), QuietReason(q, r.now))
  {
    var cs := MomentChecks(q, r);
    assert cs == [cs[0], cs[1], cs[2]];
    Failing3(cs[0], cs[1], cs[2]);
    Failing2(cs[1], cs[2]);
  }

  lemma ProactiveFails(s: Strict, r: Request)
    ensures FirstFailing(SafetyChecks(r) + (MomentChecks(s.quiet, r) + RepeatChecks(s, r))) ==
            if !Proactive(r) then First(AvailabilityReason(r.availability), QuietReason(s.quiet, r.now))
            else
              var c := r.context.value.(availability := r.availability, inQuietHours := IsQuiet(s.quiet, r.now));
              var b := ProactiveBlock(s, c);
              if b.Some? then Some(b.value.0) else None
  {
    MomentFails(s.quiet, r);
    FailingConcat(MomentChecks(s.quiet, r), RepeatChecks(s, r));
    FailingConcat(SafetyChecks(r), MomentChecks(s.quiet, r) + RepeatChecks(s, r));
    if Proactive(r) {
      var cs, ds := SafetyChecks(r), RepeatChecks(s, r);
      assert cs == [cs[0], cs[1]];
      Failing2(cs[0], cs[1]);
      FailingUnfold(ds[0], []);
      assert ds == [ds[0]] + [];
    }
  }

  /** The production gate gives the reason of the first condition that fails, in the order of all its checks, and
      allows when none does. */
  lemma ReasonIsFirstFailing(p: Production, r: Request)
    ensures var d, failing := ProductionCheck(p, r), FirstFailing(AllChecks(p, r));
            && (d.allowed <==> failing.None?)
            && d.reason == if failing.Some? then failing.value else "allowed"
  {
    SurfaceFails(p.surfaces, r.target);
    ControlFails(p, r.target, r.output);
    VerifierFails(p);
    RouteFails(r.target, r.output);
    ProactiveFails(p.strict, r);
    var rest := SafetyChecks(r) + (MomentChecks(p.strict.quiet, r) + RepeatChecks(p.strict, r));
    var route := RouteChecks(r.target, r.output) + rest;
    FailingConcat(RouteChecks(r.target, r.output), rest);
    FailingConcat(VerifierChecks(p), route);
    FailingConcat(ControlChecks(p, r.target, r.output), VerifierChecks(p) + route);
    var control := ControlChecks(p, r.target, r.output) + (VerifierChecks(p) + route);
    FailingConcat(SurfaceChecks(p.surfaces, r.target), control);
  }

  /** A proactive delivery that reaches strict's own checks is refused at high risk for a safety context and at medium
      risk for any other reason. */
  lemma ProactiveRisk(s: Strict, r: Request)
    requires Proactive(r) && CheckTargetOutput(r.target, r.output).allowed
    ensures var d, c := StrictCheck(s, r), r.context.value;
            && d.audit == Some(Audit("strict_delivery", "1", ProactiveIdleTick, c.targetKey))
            && (d.risk == HighRisk <==>
                HighSeverity in c.severities || "sensitive_safety_context" in c.constraintNames)
            && (d.risk == LowRisk <==> d.allowed)
  {
  }
}
