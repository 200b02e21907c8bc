/** The model-call budget gate and its request-local scopes (iris/runtime/model_call_budget.py). */
module ModelCallBudget {
  import opened Prelude

  datatype CallKind = LargeLlm | SmallClassifier | Embedding | Reranker | BackgroundLlm

  datatype CallSite =
    | UserResponseHotPath
    | EventReaction
    | Proactive
    | MemoryExtraction
    | Reflection
    | RelationshipUpdate
    | InteractionPolicyCandidate
    | RuntimeLearningHook

  datatype Decision = Accept | Escalate | Fallback | Defer | Deny

  datatype FallbackBehavior = DeterministicBaseline | NoOp | DeferCall | EnqueueBackground | Reject

  datatype Reason =
    | BudgetDisabled
    | EnqueueOnlySite
    | LowConfidenceEscalation
    | LowConfidenceFallback
    | KindNotEnabled
    | WithinBudget
    | BudgetExceeded

  datatype Descriptor = Descriptor(kind: CallKind, site: CallSite, confidence: real, highRisk: bool, uncertain: bool)

  datatype Result = Result(decision: Decision, reason: Reason, confidence: real, fallback: Option<FallbackBehavior>)

  datatype Budget = Budget(
    largeLlm: int,
    smallClassifier: int,
    embedding: int,
    reranker: int,
    backgroundLlm: int,
    confidenceThreshold: real,
    lowConfidenceFallback: FallbackBehavior,
    highRiskEscalation: bool,
    uncertainEscalation: bool,
    enqueueOnly: bool)

  datatype Config = Config(enabled: bool, budgets: CallSite -> Budget)

  datatype Key = Key(site: CallSite, kind: CallKind)

  type Counters = map<Key, nat>

  function KeyOf(d: Descriptor): (k: Key) { Key(d.site, d.kind) }

  function Used(c: Counters, k: Key): (n: nat) { if k in c then c[k] else 0 }

  function Record(c: Counters, d: Descriptor): (r: Counters) { c[KeyOf(d) := Used(c, KeyOf(d)) + 1] }

  function MaxCalls(b: Budget, kind: CallKind): (n: int) {
    match kind
    case LargeLlm => b.largeLlm
    case SmallClassifier => b.smallClassifier
    case Embedding => b.embedding
    case Reranker => b.reranker
    case BackgroundLlm => b.backgroundLlm
  }

  /** `_limit_for_kind`: no limit is set for a kind that is not enabled. */
  function LimitForKind(b: Budget, kind: CallKind): (n: Option<int>) {
    if MaxCalls(b, kind) <= 0 then None else Some(MaxCalls(b, kind))
  }

  function LowConfidenceResult(d: Descriptor, b: Budget): (r: Result) {
    if (d.highRisk && b.highRiskEscalation) || (d.uncertain && b.uncertainEscalation)
    then Result(Escalate, LowConfidenceEscalation, d.confidence, None)
    else Result(Fallback, Reason.LowConfidenceFallback, d.confidence, Some(b.lowConfidenceFallback))
  }

  function PreBudget(cfg: Config, d: Descriptor): (r: Option<Result>) {
    var b := cfg.budgets(d.site);
    if !cfg.enabled then Some(Result(Accept, BudgetDisabled, d.confidence, None))
    else if b.enqueueOnly && d.kind == LargeLlm
    then Some(Result(Deny, EnqueueOnlySite, d.confidence, Some(b.lowConfidenceFallback)))
    else if d.confidence < b.confidenceThreshold then Some(LowConfidenceResult(d, b))
    else if LimitForKind(b, d.kind).None?
    then Some(Result(Fallback, KindNotEnabled, d.confidence, Some(b.lowConfidenceFallback)))
    else None
  }

  function Decide(cfg: Config, c: Counters, d: Descriptor): (r: Result) {
    var b, pre := cfg.budgets(d.site), PreBudget(cfg, d);
    if pre.Some? then pre.value
    else
      var limit := LimitForKind(b, d.kind);
      if limit.Some? && Used(c, KeyOf(d)) < limit.value then Result(Accept, WithinBudget, d.confidence, None)
      else Result(Fallback, BudgetExceeded, d.confidence, Some(b.lowConfidenceFallback))
  }

  function Accepted(r: Result): (b: bool) { r.decision == Accept }

  /** The counters after a call. */
  function Charge(cfg: Config, c: Counters, d: Descriptor): (r: Counters) {
    if Accepted(Decide(cfg, c, d)) then Record(c, d) else c
  }

  // ----- traces of nested scopes ----------------------------------------------------------------------

  /** What a request does: calls, and blocks run under a scope of their own. */
  datatype Trace = End | Call(d: Descriptor, rest: Trace) | Scoped(body: Trace, rest: Trace)

  datatype Log = Closed | Called(d: Descriptor, result: Result, rest: Log) | Nested(body: Log, rest: Log)

  datatype Execution = Execution(counters: Counters, log: Log)

  /** A scope starts with nothing used, and its counters are gone when it is left. */
  function Execute(cfg: Config, c: Counters, t: Trace): (x: Execution)
    decreases t
  {
    match t
    case End => Execution(c, Closed)
    case Call(d, rest) =>
      var x := Execute(cfg, Charge(cfg, c, d), rest);
      Execution(x.counters, Called(d, Decide(cfg, c, d), x.log))
    case Scoped(body, rest) =>
      var x := Execute(cfg, c, rest);
      Execution(x.counters, Nested(Execute(cfg, map[], body).log, x.log))
  }

  /** Passing the checks that come before the count. */
  predicate Passes(cfg: Config, d: Descriptor) {
    var b := cfg.budgets(d.site);
    && cfg.enabled && !(b.enqueueOnly && d.kind == LargeLlm)
    && d.confidence >= b.confidenceThreshold
    && (match d.kind
        case LargeLlm => b.largeLlm > 0
        case SmallClassifier => b.smallClassifier > 0
        case Embedding => b.embedding > 0
        case Reranker => b.reranker > 0
        case BackgroundLlm => b.backgroundLlm > 0)
  }

  /** The number of calls of a kind that a budget allows is the field of that kind. */
  ghost predicate Allows(b: Budget, kind: CallKind, n: int) {
    && (kind == LargeLlm ==> n == b.largeLlm)
    && (kind == SmallClassifier ==> n == b.smallClassifier)
    && (kind == Embedding ==> n == b.embedding)
    && (kind == Reranker ==> n == b.reranker)
    && (kind == BackgroundLlm ==> n == b.backgroundLlm)
  }

  lemma LimitAllowed(cfg: Config, k: Key)
    ensures Allows(cfg.budgets(k.site), k.kind, Limit(cfg, k))
  {
  }

  /** What the gate answers. Disabled, it accepts everything. Enabled, it denies a large model at an enqueue-only site,
      escalates low confidence where risk or doubt allow it, accepts a passing call within the limit of its kind, and
      answers all others with a fallback; a fallback behaviour comes with exactly the refusals. */
  lemma DecisionExact(cfg: Config, c: Counters, d: Descriptor, limit: int)
    requires Allows(cfg.budgets(d.site), d.kind, limit)
    ensures var r, b := Decide(cfg, c, d), cfg.budgets(d.site);
            var enqueued, doubtful := b.enqueueOnly && d.kind == LargeLlm, d.confidence < b.confidenceThreshold;
            var used := if Key(d.site, d.kind) in c then c[Key(d.site, d.kind)] else 0;
            && (!cfg.enabled ==> r == Result(Accept, BudgetDisabled, d.confidence, None))
            && (cfg.enabled ==>
                  && (r.decision == Accept <==> !enqueued && !doubtful && used < limit)
                  && (r.decision == Deny <==> enqueued)
                  && (r.decision == Escalate <==>
                      && !enqueued && doubtful
                      && ((d.highRisk && b.highRiskEscalation) || (d.uncertain && b.uncertainEscalation)))
                  && r.decision != Defer
                  && r.fallback == (if r.decision in {Accept, Escalate} then None else Some(b.lowConfidenceFallback))
                  && r.confidence == d.confidence
                  && r.reason == (if r.decision == Accept then WithinBudget
                                  else if r.decision == Deny then EnqueueOnlySite
                                  else if r.decision == Escalate then LowConfidenceEscalation
                                  else if doubtful then Reason.LowConfidenceFallback
                                  else if limit <= 0 then KindNotEnabled else BudgetExceeded))
  {
  }

  function Limit(cfg: Config, k: Key): (n: int) { MaxCalls(cfg.budgets(k.site), k.kind) }

  /** What is left of a limit. */
  function Left(cfg: Config, k: Key, used: nat): (n: nat) {
    if used < Limit(cfg, k) then Limit(cfg, k) - used else 0
  }

  function Min(a: nat, b: nat): (m: nat) { if a <= b then a else b }

  /** The call is of that kind at that site. */
  predicate On(d: Descriptor, k: Key) { d.site == k.site && d.kind == k.kind }

  /** Calls on `k` made directly in a scope that pass the checks. */
  function PassingIn(cfg: Config, t: Trace, k: Key): (n: nat) {
    match t
    case End => 0
    case Call(d, rest) => (if On(d, k) && Passes(cfg, d) then 1 else 0) + PassingIn(cfg, rest, k)
    case Scoped(_, rest) => PassingIn(cfg, rest, k)
  }

  function AcceptedIn(log: Log, k: Key): (n: nat) {
    match log
    case Closed => 0
    case Called(d, r, rest) => (if On(d, k) && Accepted(r) then 1 else 0) + AcceptedIn(rest, k)
    case Nested(_, rest) => AcceptedIn(rest, k)
  }

  /** With the gate enabled a scope accepts, for each site and kind, exactly as many calls as pass the checks, up
      to what is left of the limit; and it counts what it accepts. */
  lemma {:induction false} AcceptedExactly(cfg: Config, c: Counters, t: Trace, k: Key)
    requires cfg.enabled
    ensures var x := Execute(cfg, c, t);
            && AcceptedIn(x.log, k) == Min(Left(cfg, k, Used(c, k)), PassingIn(cfg, t, k))
            && Used(x.counters, k) == Used(c, k) + AcceptedIn(x.log, k)
    decreases t
  {
    match t
    case End =>
    case Call(d, rest) => AcceptedExactly(cfg, Charge(cfg, c, d), rest, k);
    case Scoped(_, rest) => AcceptedExactly(cfg, c, rest, k);
  }

  /** From an empty scope: per site, the accepted calls of each kind are the passing ones, up to the budget's number for
      that kind. */
  lemma KindCaps(cfg: Config, t: Trace, site: CallSite, kind: CallKind, limit: int)
    requires cfg.enabled && Allows(cfg.budgets(site), kind, limit)
    ensures var k := Key(site, kind);
            var n, passing := AcceptedIn(Execute(cfg, map[], t).log, k), PassingIn(cfg, t, k);
            n <= passing && (limit > 0 ==> n <= limit) && (limit <= 0 ==> n == 0) && (n < passing ==> n == limit)
  {
    AcceptedExactly(cfg, map[], t, Key(site, kind));
    LimitAllowed(cfg, Key(site, kind));
    if limit <= 0 { NonePass(cfg, t, Key(site, kind)); }
  }

  lemma {:induction false} NonePass(cfg: Config, t: Trace, k: Key)
    requires Limit(cfg, k) <= 0
    ensures PassingIn(cfg, t, k) == 0
    decreases t
  {
    match t
    case End =>
    case Call(_, rest) => NonePass(cfg, rest, k);
    case Scoped(_, rest) => NonePass(cfg, rest, k);
  }

  /** The same, said of every scope opened anywhere in the trace. */
  ghost predicate EveryScopeExact(cfg: Config, t: Trace, log: Log, k: Key) {
    match t
    case End => log.Closed?
    case Call(_, rest) => log.Called? && EveryScopeExact(cfg, rest, log.rest, k)
    case Scoped(body, rest) =>
      && log.Nested?
      && AcceptedIn(log.body, k) == Min(Left(cfg, k, 0), PassingIn(cfg, body, k))
      && EveryScopeExact(cfg, body, log.body, k) && EveryScopeExact(cfg, rest, log.rest, k)
  }

  lemma {:induction false} ScopesExact(cfg: Config, c: Counters, t: Trace, k: Key)
    requires cfg.enabled
    ensures EveryScopeExact(cfg, t, Execute(cfg, c, t).log, k)
    decreases t
  {
    match t
    case End =>
    case Call(d, rest) => ScopesExact(cfg, Charge(cfg, c, d), rest, k);
    case Scoped(body, rest) =>
      AcceptedExactly(cfg, map[], body, k);
      ScopesExact(cfg, map[], body, k);
      ScopesExact(cfg, c, rest, k);
  }

  /** A disabled gate accepts everything, and still counts it. */
  lemma {:induction false} DisabledAcceptsAll(cfg: Config, c: Counters, t: Trace, k: Key)
    requires !cfg.enabled
    ensures var x := Execute(cfg, c, t);
            AcceptedIn(x.log, k) == CallsIn(x.log, k) && Used(x.counters, k) == Used(c, k) + CallsIn(x.log, k)
    decreases t
  {
    match t
    case End =>
    case Call(d, rest) => DisabledAcceptsAll(cfg, Charge(cfg, c, d), rest, k);
    case Scoped(_, rest) => DisabledAcceptsAll(cfg, c, rest, k);
  }

  function CallsIn(log: Log, k: Key): (n: nat) {
    match log
    case Closed => 0
    case Called(d, _, rest) => (if On(d, k) then 1 else 0) + CallsIn(rest, k)
    case Nested(_, rest) => CallsIn(rest, k)
  }

  // ----- first come, first served ---------------------------------------------------------------------

  /** The calls made directly in a scope, in order, with their results. */
  function Direct(log: Log): (r: seq<(Descriptor, Result)>) {
    match log
    case Closed => []
    case Called(d, r, rest) => [(d, r)] + Direct(rest)
    case Nested(_, rest) => Direct(rest)
  }

  function PassingBefore(cfg: Config, calls: seq<(Descriptor, Result)>, i: nat, k: Key): (n: nat)
    requires i <= |calls|
  {
    if i == 0 then 0
    else (if KeyOf(calls[0].0) == k && Passes(cfg, calls[0].0) then 1 else 0) + PassingBefore(cfg, calls[1..], i - 1, k)
  }

  /** A call is accepted exactly when it passes the checks and fewer passing calls on its key came before it in
      its scope than the limit had left: refused and escalated calls cost nothing. */
  lemma {:induction false} AcceptedIff(cfg: Config, c: Counters, t: Trace, i: nat)
    requires cfg.enabled && i < |Direct(Execute(cfg, c, t).log)|
    ensures var calls := Direct(Execute(cfg, c, t).log);
            var d := calls[i].0;
            Accepted(calls[i].1) <==>
              Passes(cfg, d) && PassingBefore(cfg, calls, i, KeyOf(d)) < Left(cfg, KeyOf(d), Used(c, KeyOf(d)))
    decreases t
  {
    match t
    case End =>
    case Call(d, rest) =>
      var x := Execute(cfg, Charge(cfg, c, d), rest);
      assert Direct(Execute(cfg, c, t).log)[1..] == Direct(x.log);
      if i > 0 { AcceptedIff(cfg, Charge(cfg, c, d), rest, i - 1); }
    case Scoped(_, rest) => AcceptedIff(cfg, c, rest, i);
  }

  // ----- independence of keys -------------------------------------------------------------------------

  /** The trace with only its calls on `k`. */
  function OnlyKey(t: Trace, k: Key): (r: Trace) {
    match t
    case End => End
    case Call(d, rest) => if KeyOf(d) == k then Call(d, OnlyKey(rest, k)) else OnlyKey(rest, k)
    case Scoped(body, rest) => Scoped(OnlyKey(body, k), OnlyKey(rest, k))
  }

  function OnlyKeyLog(log: Log, k: Key): (r: Log) {
    match log
    case Closed => Closed
    case Called(d, x, rest) => if KeyOf(d) == k then Called(d, x, OnlyKeyLog(rest, k)) else OnlyKeyLog(rest, k)
    case Nested(body, rest) => Nested(OnlyKeyLog(body, k), OnlyKeyLog(rest, k))
  }

  /** Every result for a key is what it would be had the calls on all other keys not been made. */
  lemma {:induction false} KeysIndependent(cfg: Config, c: Counters, c': Counters, t: Trace, k: Key)
    requires Used(c, k) == Used(c', k)
    ensures Execute(cfg, c', OnlyKey(t, k)).log == OnlyKeyLog(Execute(cfg, c, t).log, k)
    decreases t
  {
    match t
    case End =>
    case Call(d, rest) =>
      if KeyOf(d) == k {
        KeysIndependent(cfg, Charge(cfg, c, d), Charge(cfg, c', d), rest, k);
      } else {
        KeysIndependent(cfg, Charge(cfg, c, d), c', rest, k);
      }
    case Scoped(body, rest) =>
      KeysIndependent(cfg, map[], map[], body, k);
      KeysIndependent(cfg, c, c', rest, k);
  }

  // ----- inner scopes are invisible outside -----------------------------------------------------------

  function Flat(t: Trace): (r: Trace) {
    match t
    case End => End
    case Call(d, rest) => Call(d, Flat(rest))
    case Scoped(_, rest) => Flat(rest)
  }

  /** Leaving an inner scope restores the outer counters exactly: without the inner scopes the outer one ends
      with the same counters and has given the same results. */
  lemma {:induction false} InnerScopesInvisible(cfg: Config, c: Counters, t: Trace)
    ensures Execute(cfg, c, Flat(t)).counters == Execute(cfg, c, t).counters
    ensures Direct(Execute(cfg, c, Flat(t)).log) == Direct(Execute(cfg, c, t).log)
    decreases t
  {
    match t
    case End =>
    case Call(d, rest) => InnerScopesInvisible(cfg, Charge(cfg, c, d), rest);
    case Scoped(_, rest) => InnerScopesInvisible(cfg, c, rest);
  }

  // ----- the objects ----------------------------------------------------------------------------------

  class BudgetScope {
    var counters: Counters

    constructor ()
      ensures counters == map[]
    {
      counters := map[];
    }
  }

  /** The context variable holding the current scope. */
  class BudgetContext {
    var current: BudgetScope?

    /** What has been used so far; no scope counts as an empty one. */
    ghost function Value(): (c: Counters)
      reads this, current
    {
      if current == null then map[] else current.counters
    }

    constructor ()
      ensures current == null && Value() == map[]
    {
      current := null;
    }

    /** `_scope`: the current scope, created implicitly when there is none. */
    method Scope() returns (s: BudgetScope)
      modifies this
      ensures current == s && s.counters == old(Value())
      ensures if old(current) == null then fresh(s) else s == old(current)
    {
      if current == null {
        var created := new BudgetScope();
        current := created;
      }
      s := current;
    }

    method CheckAndRecord(cfg: Config, d: Descriptor) returns (r: Result)
      modifies this, current
      ensures r == Decide(cfg, old(Value()), d)
      ensures Value() == Charge(cfg, old(Value()), d)
      ensures current == old(current) || (old(current) == null && fresh(current))
    {
      var b := cfg.budgets(d.site);
      var pre := PreBudget(cfg, d);
      if pre.Some? {
        r := pre.value;
      } else {
        var limit := LimitForKind(b, d.kind);
        var s := Scope();
        if limit.Some? && Used(s.counters, KeyOf(d)) < limit.value {
          r := Result(Accept, WithinBudget, d.confidence, None);
        } else {
          r := Result(Fallback, BudgetExceeded, d.confidence, Some(b.lowConfidenceFallback));
        }
      }
      if r.decision == Accept {
        var s := Scope();
        s.counters := Record(s.counters, d);
      }
    }

    /** A whole trace, each block under `bind_model_call_budget_scope`: the variable is set to a new scope and reset
        to the previous one afterwards. Nothing but the scope current at the start is changed. */
    method Run(cfg: Config, t: Trace) returns (log: Log)
      modifies this, current
      ensures log == Execute(cfg, old(Value()), t).log
      ensures Value() == Execute(cfg, old(Value()), t).counters
      ensures current == old(current) || (old(current) == null && fresh(current))
      decreases t
    {
      match t
      case End =>
        log := Closed;
      case Call(d, rest) =>
        var r := CheckAndRecord(cfg, d);
        var after := Run(cfg, rest);
        log := Called(d, r, after);
      case Scoped(body, rest) =>
        var token := current;
        current := new BudgetScope();
        var inner := Run(cfg, body);
        current := token;
        var after := Run(cfg, rest);
        log := Nested(inner, after);
    }
  }
}
