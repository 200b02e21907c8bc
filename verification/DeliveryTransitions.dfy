/** The backend-independent state transitions of a delivery envelope
    (iris/contracts/delivery_transitions.py). */
module DeliveryTransitions {
  import opened Prelude

  type Time = real

  datatype DeliveryStatus = Pending | Leased | Succeeded | FailedPermanent | Cancelled | Blocked {
    predicate Terminal() { !Pending? && !Leased? }
  }

  datatype ActionStatus = ActionSucceeded | ActionFailed | ActionCancelled | ActionBlocked

  datatype ActionResult = ActionResult(
    actionId: string,
    correlationId: string,
    status: ActionStatus,
    externalMessageId: Option<string>,
    errorReason: Option<string>)

  datatype AppAction = NoAction(actionId: string) | SendMessage(actionId: string, text: string)

  datatype DeliveryTarget = DeliveryTarget(provider: string, sessionId: string)

  datatype DeliveryEnvelope = DeliveryEnvelope(
    deliveryId: string,
    action: AppAction,
    target: DeliveryTarget,
    status: DeliveryStatus,
    createdAt: Time,
    updatedAt: Time,
    notBefore: Option<Time>,
    attempts: int,
    maxAttempts: int,
    idempotencyKey: string,
    leaseId: Option<string>,
    leaseExpiresAt: Option<Time>,
    blockedReason: Option<string>,
    lastErrorReason: Option<string>,
    sourceObservationId: Option<string>)

  datatype DeliveryError = AlreadyTerminal | NotLeased | LeaseMismatch

  /** `_require_reportable_lease`: the expiry of the lease is not consulted. */
  function ReportError(item: DeliveryEnvelope, leaseId: Option<string>): (e: Option<DeliveryError>) {
    if item.status.Terminal() then Some(AlreadyTerminal)
    else if item.status != Leased then Some(NotLeased)
    else if item.leaseId != leaseId then Some(LeaseMismatch)
    else None
  }

  function StatusOfAction(status: ActionStatus): (s: DeliveryStatus)
    ensures s.Terminal()
  {
    match status
    case ActionSucceeded => Succeeded
    case ActionCancelled => Cancelled
    case ActionBlocked => Blocked
    case ActionFailed => FailedPermanent
  }

  function CompleteDelivery(item: DeliveryEnvelope, leaseId: Option<string>, result: ActionResult, completedAt: Time)
    : (r: Outcome<DeliveryEnvelope, DeliveryError>)
  {
    var e := ReportError(item, leaseId);
    if e.Some? then Raised(e.value)
    else Ok(item.(status := StatusOfAction(result.status), updatedAt := completedAt,
                  leaseId := None, leaseExpiresAt := None, lastErrorReason := result.errorReason))
  }

  function ReleaseDelivery(item: DeliveryEnvelope, leaseId: Option<string>, retryAfter: Time,
                           result: ActionResult, releasedAt: Time)
    : (r: Outcome<DeliveryEnvelope, DeliveryError>)
  {
    var e := ReportError(item, leaseId);
    if e.Some? then Raised(e.value)
    else if item.attempts >= item.maxAttempts then
      Ok(item.(status := FailedPermanent, updatedAt := releasedAt,
               leaseId := None, leaseExpiresAt := None, lastErrorReason := result.errorReason))
    else
      Ok(item.(status := Pending, updatedAt := releasedAt, notBefore := Some(retryAfter),
               leaseId := None, leaseExpiresAt := None, lastErrorReason := result.errorReason))
  }

  function FailExhaustedDelivery(item: DeliveryEnvelope, failedAt: Time, reason: string): (r: DeliveryEnvelope) {
    item.(status := FailedPermanent, updatedAt := failedAt,
          leaseId := None, leaseExpiresAt := None, lastErrorReason := Some(reason))
  }

  function LeaseDelivery(item: DeliveryEnvelope, leaseId: string, leasedAt: Time, leaseSeconds: real,
                         notBefore: Option<Time>): (r: DeliveryEnvelope)
  {
    item.(status := Leased, updatedAt := leasedAt, notBefore := notBefore, attempts := item.attempts + 1,
          leaseId := Some(leaseId), leaseExpiresAt := Some(leasedAt + leaseSeconds))
  }

  predicate IsDeliveryDue(item: DeliveryEnvelope, now: Time) {
    if item.status.Terminal() then false
    else if item.notBefore.Some? && item.notBefore.value > now then false
    else if item.status == Pending then true
    else item.leaseExpiresAt.Some? && item.leaseExpiresAt.value <= now
  }

  /** How the outbox handles one due item: lease it while attempts remain, otherwise give up. */
  function PollItem(item: DeliveryEnvelope, now: Time, leaseId: string, leaseSeconds: real): (r: DeliveryEnvelope) {
    if !IsDeliveryDue(item, now) then item
    else if item.attempts >= item.maxAttempts then FailExhaustedDelivery(item, now, "max_attempts_exceeded")
    else LeaseDelivery(item, leaseId, now, leaseSeconds, item.notBefore)
  }

  /** A report: completion, or release for retry when `retryAfter` is given. */
  function ReportItem(item: DeliveryEnvelope, leaseId: Option<string>, result: ActionResult, at: Time,
                      retryAfter: Option<Time>): (r: Outcome<DeliveryEnvelope, DeliveryError>)
  {
    match retryAfter
    case None => CompleteDelivery(item, leaseId, result, at)
    case Some(t) => ReleaseDelivery(item, leaseId, t, result, at)
  }

  /** The broker's routing: only a FAILED result is released for a retry after the back-off. */
  function BrokerRetry(result: ActionResult, reportedAt: Time, backoff: real): (r: Option<Time>) {
    if result.status == ActionFailed then Some(reportedAt + backoff) else None
  }

  /** What never changes while a delivery is worked off. */
  ghost predicate SameIdentity(a: DeliveryEnvelope, b: DeliveryEnvelope) {
    && a.deliveryId == b.deliveryId && a.action == b.action && a.target == b.target
    && a.createdAt == b.createdAt && a.maxAttempts == b.maxAttempts
    && a.idempotencyKey == b.idempotencyKey && a.sourceObservationId == b.sourceObservationId
    && a.blockedReason == b.blockedReason
  }

  /** Shape of every envelope a run can reach. */
  ghost predicate WellFormed(item: DeliveryEnvelope) {
    && (item.status == Leased <==> item.leaseId.Some?)
    && (item.status == Leased <==> item.leaseExpiresAt.Some?)
    && 0 <= item.attempts <= item.maxAttempts
    && (item.status == Pending ==> item.attempts < item.maxAttempts)
  }

  ghost predicate Initial(item: DeliveryEnvelope) {
    && item.status == Pending && item.attempts == 0 && item.maxAttempts >= 1
    && item.leaseId.None? && item.leaseExpiresAt.None?
  }

  /** The status in which an action leaves a delivery for good. */
  ghost predicate Final(s: DeliveryStatus, a: ActionStatus) {
    && (s == Succeeded <==> a == ActionSucceeded)
    && (s == Cancelled <==> a == ActionCancelled)
    && (s == Blocked <==> a == ActionBlocked)
    && (s == FailedPermanent <==> a == ActionFailed)
  }

  /** A report changes the item exactly when the item is leased under the reported id; the lease is
      given up, the attempt is not refunded, and a released item is retried exactly while attempts
      remain. */
  lemma ReportEffect(item: DeliveryEnvelope, leaseId: Option<string>, result: ActionResult, at: Time,
                     retryAfter: Option<Time>)
    requires WellFormed(item)
    ensures var r := ReportItem(item, leaseId, result, at, retryAfter);
            && (r.Ok? <==> item.leaseId.Some? && leaseId == item.leaseId)
            && (r == Raised(AlreadyTerminal) <==> item.status.Terminal())
            && (r == Raised(NotLeased) <==> item.status == Pending)
            && (r == Raised(LeaseMismatch) <==> item.status == Leased && leaseId != item.leaseId)
            && (r.Ok? ==>
                  && WellFormed(r.value) && SameIdentity(item, r.value)
                  && r.value.leaseId.None? && r.value.attempts == item.attempts
                  && r.value.updatedAt == at && r.value.lastErrorReason == result.errorReason
                  && (r.value.status == Pending <==> retryAfter.Some? && item.attempts < item.maxAttempts)
                  && (retryAfter.None? ==> Final(r.value.status, result.status) && r.value.notBefore == item.notBefore)
                  && (retryAfter.Some? && r.value.status != Pending ==> r.value.status == FailedPermanent)
                  && (r.value.status == Pending ==>
                        forall now :: IsDeliveryDue(r.value, now) <==> retryAfter.value <= now))
  {
  }

  /** A poll leaves an item alone until it is due; then it leases it, under the given id and for exactly the given
      time, or gives up for good exactly when no attempt is left. */
  lemma PollEffect(item: DeliveryEnvelope, now: Time, leaseId: string, leaseSeconds: real)
    requires WellFormed(item)
    ensures var r := PollItem(item, now, leaseId, leaseSeconds);
            && WellFormed(r) && SameIdentity(item, r)
            && (!IsDeliveryDue(item, now) ==> r == item)
            && (IsDeliveryDue(item, now) ==>
                  r.updatedAt == now && (r.status == FailedPermanent <==> item.attempts == item.maxAttempts))
            && (r.status == FailedPermanent && r != item ==>
                  r.lastErrorReason == Some("max_attempts_exceeded") && r.attempts == item.attempts)
            && (IsDeliveryDue(item, now) && r.status != FailedPermanent ==>
                  && r.status == Leased && r.leaseId == Some(leaseId) && r.attempts == item.attempts + 1
                  && r.lastErrorReason == item.lastErrorReason && r.notBefore == item.notBefore
                  && forall t :: now <= t ==> (IsDeliveryDue(r, t) <==> now + leaseSeconds <= t))
  {
  }

  /** Through the broker, a finished delivery carries the status of the reported action. */
  lemma BrokerReportStatus(item: DeliveryEnvelope, result: ActionResult, at: Time, backoff: real)
    requires WellFormed(item) && item.status == Leased
    ensures var r := ReportItem(item, item.leaseId, result, at, BrokerRetry(result, at, backoff));
            && r.Ok?
            && (r.value.status == Pending <==> result.status == ActionFailed && item.attempts < item.maxAttempts)
            && (r.value.status == Pending ==> forall now :: IsDeliveryDue(r.value, now) <==> at + backoff <= now)
            && (r.value.status != Pending ==> Final(r.value.status, result.status))
  {
  }

  /** The first instant from which the item can be polled. */
  ghost function DueFrom(item: DeliveryEnvelope): (t: Option<Time>)
    requires WellFormed(item) && !item.status.Terminal()
  {
    match (item.notBefore, item.leaseExpiresAt)
    case (None, e) => e
    case (nb, None) => nb
    case (Some(a), Some(b)) => Some(if a < b then b else a)
  }

  /** Every live item is due from some instant onward, and at no instant before. */
  lemma EventuallyDue(item: DeliveryEnvelope, now: Time)
    requires WellFormed(item) && !item.status.Terminal()
    ensures IsDeliveryDue(item, now) <==> (DueFrom(item).Some? ==> DueFrom(item).value <= now)
  {
  }
}

/** Runs of one delivery item: polls and reports in any order. */
module DeliveryRuns {
  import opened Prelude
  import opened DeliveryTransitions

  datatype Step =
    | Poll(now: Time, leaseId: string, leaseSeconds: real)
    | Report(reported: Option<string>, result: ActionResult, at: Time, retryAfter: Option<Time>)

  function Next(item: DeliveryEnvelope, step: Step): (r: DeliveryEnvelope) {
    match step
    case Poll(now, leaseId, leaseSeconds) => PollItem(item, now, leaseId, leaseSeconds)
    case Report(leaseId, result, at, retryAfter) =>
      var r := ReportItem(item, leaseId, result, at, retryAfter);
      if r.Ok? then r.value else item
  }

  function Run(item: DeliveryEnvelope, steps: seq<Step>): (r: DeliveryEnvelope)
    decreases |steps|
  {
    if steps == [] then item else Run(Next(item, steps[0]), steps[1..])
  }

  ghost predicate Accepts(item: DeliveryEnvelope, step: Step) {
    step.Report? && ReportItem(item, step.reported, step.result, step.at, step.retryAfter).Ok?
  }

  ghost predicate Leases(item: DeliveryEnvelope, step: Step) {
    step.Poll? && IsDeliveryDue(item, step.now) && item.attempts < item.maxAttempts
  }

  ghost predicate GivesUp(item: DeliveryEnvelope, step: Step) {
    step.Poll? && IsDeliveryDue(item, step.now) && item.attempts >= item.maxAttempts
  }

  /** The state before step `i`. */
  ghost function Before(item: DeliveryEnvelope, steps: seq<Step>, i: nat): (r: DeliveryEnvelope)
    requires i <= |steps|
  {
    Run(item, steps[..i])
  }

  /** Lease ids are never reused along the run. */
  ghost predicate FreshLeaseIds(steps: seq<Step>) {
    forall i, j :: 0 <= i < j < |steps| && steps[i].Poll? && steps[j].Poll? ==> steps[i].leaseId != steps[j].leaseId
  }

  ghost predicate ClockMonotone(steps: seq<Step>) {
    forall i, j :: 0 <= i < j < |steps| && steps[i].Poll? && steps[j].Poll? ==> steps[i].now <= steps[j].now
  }

  lemma NextKeeps(item: DeliveryEnvelope, step: Step)
    requires WellFormed(item)
    ensures WellFormed(Next(item, step)) && SameIdentity(item, Next(item, step))
    ensures item.status.Terminal() ==> Next(item, step) == item
    ensures Next(item, step).attempts == item.attempts + (if Leases(item, step) then 1 else 0)
  {
    if step.Report? { ReportEffect(item, step.reported, step.result, step.at, step.retryAfter); }
  }

  ghost function CountLeases(item: DeliveryEnvelope, steps: seq<Step>): (n: nat)
    decreases |steps|
  {
    if steps == [] then 0
    else (if Leases(item, steps[0]) then 1 else 0) + CountLeases(Next(item, steps[0]), steps[1..])
  }

  /** Steps that do something: leases, accepted reports and giving up. */
  ghost function CountEffective(item: DeliveryEnvelope, steps: seq<Step>): (n: nat)
    decreases |steps|
  {
    if steps == [] then 0
    else
      (if Effective(item, steps[0]) then 1 else 0)
      + CountEffective(Next(item, steps[0]), steps[1..])
  }

  ghost function Rank(item: DeliveryEnvelope): (n: int) {
    if item.status.Terminal() then 0
    else 2 * (item.maxAttempts - item.attempts) + (if item.status == Leased then 1 else 0)
  }

  /** A step that is not one of the three effective kinds leaves the item untouched. */
  lemma IdleStep(item: DeliveryEnvelope, step: Step)
    requires WellFormed(item)
    ensures Effective(item, step) ==> Rank(Next(item, step)) < Rank(item)
    ensures !Effective(item, step) ==> Next(item, step) == item
  {
  }

  lemma {:induction false} EffectiveWithinRank(item: DeliveryEnvelope, steps: seq<Step>)
    requires WellFormed(item)
    ensures WellFormed(Run(item, steps)) && SameIdentity(item, Run(item, steps))
    ensures CountEffective(item, steps) + Rank(Run(item, steps)) <= Rank(item)
    ensures Run(item, steps).attempts == item.attempts + CountLeases(item, steps)
    ensures 0 <= Rank(Run(item, steps))
    decreases |steps|
  {
    if steps == [] {
    } else {
      NextKeeps(item, steps[0]);
      IdleStep(item, steps[0]);
      EffectiveWithinRank(Next(item, steps[0]), steps[1..]);
    }
  }

  /** Every run from a fresh item does at most `2 * maxAttempts` effective steps, keeps the envelope
      well formed, and counts its leases in `attempts`. */
  lemma BoundedRuns(item: DeliveryEnvelope, steps: seq<Step>)
    requires Initial(item)
    ensures var last := Run(item, steps);
            && WellFormed(last) && SameIdentity(item, last)
            && last.attempts == CountLeases(item, steps) <= item.maxAttempts
            && CountEffective(item, steps) <= 2 * item.maxAttempts
  {
    EffectiveWithinRank(item, steps);
  }

  lemma {:induction false} TerminalAbsorbing(item: DeliveryEnvelope, steps: seq<Step>)
    requires WellFormed(item) && item.status.Terminal()
    ensures Run(item, steps) == item && CountEffective(item, steps) == 0
    decreases |steps|
  {
    if steps == [] {
    } else {
      NextKeeps(item, steps[0]);
      IdleStep(item, steps[0]);
      TerminalAbsorbing(item, steps[1..]);
    }
  }

  lemma {:induction false} RunConcat(item: DeliveryEnvelope, a: seq<Step>, b: seq<Step>)
    ensures Run(item, a + b) == Run(Run(item, a), b)
    decreases |a|
  {
    if a == [] {
      assert a + b == b;
    } else {
      assert (a + b)[1..] == a[1..] + b;
      RunConcat(Next(item, a[0]), a[1..], b);
    }
  }

  lemma BeforeNext(item: DeliveryEnvelope, steps: seq<Step>, i: nat)
    requires i < |steps|
    ensures Before(item, steps, i + 1) == Next(Before(item, steps, i), steps[i])
  {
    assert steps[..i + 1] == steps[..i] + [steps[i]];
    RunConcat(item, steps[..i], [steps[i]]);
    assert [steps[i]][1..] == [];
  }

  lemma BeforeWellFormed(item: DeliveryEnvelope, steps: seq<Step>, i: nat)
    requires WellFormed(item) && i <= |steps|
    ensures WellFormed(Before(item, steps, i))
  {
    EffectiveWithinRank(item, steps[..i]);
  }

  /** An id the item does not hold, and that no later poll issues, is refused from then on. */
  lemma {:induction false} RefusedForever(item: DeliveryEnvelope, steps: seq<Step>, id: string, i: nat, j: nat)
    requires WellFormed(item) && i <= j <= |steps|
    requires Before(item, steps, i).leaseId != Some(id)
    requires forall k :: i <= k < j && steps[k].Poll? ==> steps[k].leaseId != id
    ensures Before(item, steps, j).leaseId != Some(id)
    ensures j < |steps| && steps[j].Report? && steps[j].reported == Some(id) ==>
              !Accepts(Before(item, steps, j), steps[j])
    decreases j - i
  {
    if i < j {
      BeforeNext(item, steps, i);
      RefusedForever(item, steps, id, i + 1, j);
    }
  }

  /** Fencing: once lease `id`, issued by poll `i`, has been reported, re-leased or the item has become
      terminal by step `k`, every later report under `id` is refused. */
  lemma LeaseFencing(item: DeliveryEnvelope, steps: seq<Step>, i: nat, k: nat, j: nat)
    requires WellFormed(item) && FreshLeaseIds(steps)
    requires i < k < j < |steps| && Leases(Before(item, steps, i), steps[i])
    requires steps[j].Report? && steps[j].reported == Some(steps[i].leaseId)
    requires var at := Before(item, steps, k);
             || (Accepts(at, steps[k]) && steps[k].reported == Some(steps[i].leaseId))
             || Leases(at, steps[k])
             || Next(at, steps[k]).status.Terminal()
    ensures !Accepts(Before(item, steps, j), steps[j])
  {
    var id := steps[i].leaseId;
    BeforeWellFormed(item, steps, k);
    BeforeNext(item, steps, k);
    NextKeeps(Before(item, steps, k), steps[k]);
    assert Before(item, steps, k + 1).leaseId != Some(id);
    RefusedForever(item, steps, id, k + 1, j);
  }

  ghost predicate Effective(item: DeliveryEnvelope, step: Step) {
    Leases(item, step) || Accepts(item, step) || GivesUp(item, step)
  }

  /** A report under the id issued by poll `i` is accepted, however late, exactly when nothing happened
      to the item in between. */
  lemma {:induction false} AcceptedIffUntouched(item: DeliveryEnvelope, steps: seq<Step>, i: nat, j: nat)
    requires WellFormed(item) && FreshLeaseIds(steps) && i < j < |steps|
    requires Leases(Before(item, steps, i), steps[i])
    requires steps[j].Report? && steps[j].reported == Some(steps[i].leaseId)
    ensures Accepts(Before(item, steps, j), steps[j]) <==>
            forall k :: i < k < j ==> !Effective(Before(item, steps, k), steps[k])
  {
    var id := steps[i].leaseId;
    if k :| i < k < j && Effective(Before(item, steps, k), steps[k]) {
      BeforeWellFormed(item, steps, k);
      BeforeNext(item, steps, k);
      RefusedForever(item, steps, id, k + 1, j);
    } else {
      BeforeNext(item, steps, i);
      Untouched(item, steps, i + 1, j);
    }
  }

  lemma {:induction false} Untouched(item: DeliveryEnvelope, steps: seq<Step>, i: nat, j: nat)
    requires WellFormed(item) && i <= j <= |steps|
    requires forall k :: i <= k < j ==> !Effective(Before(item, steps, k), steps[k])
    ensures Before(item, steps, j) == Before(item, steps, i)
    decreases j
  {
    if i < j {
      Untouched(item, steps, i, j - 1);
      BeforeNext(item, steps, j - 1);
      BeforeWellFormed(item, steps, j - 1);
      IdleStep(Before(item, steps, j - 1), steps[j - 1]);
    }
  }

  /** No lease id has two accepted reports. */
  lemma AtMostOneAcceptedReport(item: DeliveryEnvelope, steps: seq<Step>, k: nat, j: nat)
    requires Initial(item) && FreshLeaseIds(steps) && k < j < |steps|
    requires Accepts(Before(item, steps, k), steps[k])
    requires steps[j].Report? && steps[j].reported == steps[k].reported
    ensures !Accepts(Before(item, steps, j), steps[j])
  {
    BeforeWellFormed(item, steps, k);
    var at := Before(item, steps, k);
    ReportEffect(at, steps[k].reported, steps[k].result, steps[k].at, steps[k].retryAfter);
    var id := at.leaseId.value;
    var i := IssuedBy(item, steps, k, id);
    BeforeNext(item, steps, k);
    RefusedForever(item, steps, id, k + 1, j);
  }

  /** A held lease id was issued by an earlier poll. */
  lemma {:induction false} IssuedBy(item: DeliveryEnvelope, steps: seq<Step>, k: nat, id: string) returns (i: nat)
    requires Initial(item) && k <= |steps| && Before(item, steps, k).leaseId == Some(id)
    ensures i < k && steps[i].Poll? && steps[i].leaseId == id && Leases(Before(item, steps, i), steps[i])
  {
    assert k > 0 by { assert steps[..0] == []; }
    BeforeNext(item, steps, k - 1);
    BeforeWellFormed(item, steps, k - 1);
    if Before(item, steps, k - 1).leaseId == Some(id) && !Leases(Before(item, steps, k - 1), steps[k - 1]) {
      i := IssuedBy(item, steps, k - 1, id);
    } else {
      i := k - 1;
    }
  }

  /** While no report is accepted, a held lease keeps its expiry until the next lease. */
  lemma {:induction false} LeaseHeld(item: DeliveryEnvelope, steps: seq<Step>, i: nat, j: nat)
    requires WellFormed(item) && ClockMonotone(steps) && i < j < |steps|
    requires Leases(Before(item, steps, i), steps[i])
    requires forall k :: i < k < j ==> !Accepts(Before(item, steps, k), steps[k])
    ensures var at := Before(item, steps, j);
            at.status.Terminal() ||
            (at.status == Leased && at.leaseExpiresAt.Some? &&
             (at.leaseExpiresAt == Some(steps[i].now + steps[i].leaseSeconds) ||
              forall k :: j <= k < |steps| && steps[k].Poll? ==> steps[i].now + steps[i].leaseSeconds <= steps[k].now))
    decreases j
  {
    BeforeNext(item, steps, j - 1);
    if i < j - 1 {
      LeaseHeld(item, steps, i, j - 1);
      var at := Before(item, steps, j - 1);
      BeforeWellFormed(item, steps, j - 1);
      IdleStep(at, steps[j - 1]);
      NextKeeps(at, steps[j - 1]);
    }
  }

  /** Two leases with no accepted report between them have disjoint validity windows. */
  lemma DisjointWindows(item: DeliveryEnvelope, steps: seq<Step>, i: nat, j: nat)
    requires WellFormed(item) && ClockMonotone(steps) && i < j < |steps|
    requires Leases(Before(item, steps, i), steps[i]) && Leases(Before(item, steps, j), steps[j])
    requires forall k :: i < k < j ==> !Accepts(Before(item, steps, k), steps[k])
    ensures steps[i].now + steps[i].leaseSeconds <= steps[j].now
  {
    LeaseHeld(item, steps, i, j);
  }
}
