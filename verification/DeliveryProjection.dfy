/** One delivery within a run of the whole outbox: the acts that concern it are a run of that item alone. */
module DeliveryProjection {
  import opened Prelude
  import opened DeliveryTransitions
  import opened DeliveryLedger
  import Runs = DeliveryRuns

  /** The run does not store the delivery anew. */
  ghost predicate NeverStored(acts: seq<Act>, d: string) {
    forall i :: 0 <= i < |acts| && acts[i].Store? ==> acts[i].envelope.deliveryId != d
  }

  /** What an act means for a delivery: a step when a poll finds it due or a report moves it, and nothing else. */
  function StepOf(l: Ledger, act: Act, d: string): (own: seq<Runs.Step>)
    requires d in l.items
  {
    match act
    case Store(_) => []
    case Poll(x, now, leaseSeconds) =>
      if x == d && IsDeliveryDue(l.items[d], now) then [Runs.Poll(now, LeaseName(l.counter + 1), leaseSeconds)] else []
    case Report(x, reported, result, at, retryAfter) =>
      if x == d && Moves(l, act) then [Runs.Report(reported, result, at, retryAfter)] else []
  }

  /** The steps of a delivery in a run of the outbox. */
  function StepsOf(l: Ledger, acts: seq<Act>, d: string): (steps: seq<Runs.Step>)
    requires d in l.items
    decreases |acts|
  {
    if acts == [] then [] else StepOf(l, acts[0], d) + StepsOf(Next(l, acts[0]), acts[1..], d)
  }

  /** The number of acts that alter a delivery. */
  function Changes(l: Ledger, acts: seq<Act>, d: string): (n: nat)
    requires d in l.items
    decreases |acts|
  {
    if acts == [] then 0
    else
      var next := Next(l, acts[0]);
      (if next.items[d] != l.items[d] then 1 else 0) + Changes(next, acts[1..], d)
  }

  /** The number of leases granted on a delivery. */
  function GrantsOn(l: Ledger, acts: seq<Act>, d: string): (n: nat)
    decreases |acts|
  {
    if acts == [] then 0
    else
      (if acts[0].Poll? && acts[0].delivery == d && Grants(l, acts[0]) then 1 else 0)
      + GrantsOn(Next(l, acts[0]), acts[1..], d)
  }

  lemma ActEffect(l: Ledger, act: Act, d: string)
    requires d in l.items && (act.Store? ==> act.envelope.deliveryId != d)
    ensures |StepOf(l, act, d)| <= 1
    ensures d in Next(l, act).items && Next(l, act).items[d] == Runs.Run(l.items[d], StepOf(l, act, d))
    ensures StepOf(l, act, d) == [] <==> Next(l, act).items[d] == l.items[d]
    ensures StepOf(l, act, d) != [] ==> Runs.Effective(l.items[d], StepOf(l, act, d)[0])
  {
    var own := StepOf(l, act, d);
    if own != [] { assert own[1..] == []; }
  }

  lemma NeverStoredTail(acts: seq<Act>, d: string)
    requires acts != [] && NeverStored(acts, d)
    ensures NeverStored(acts[1..], d) && (acts[0].Store? ==> acts[0].envelope.deliveryId != d)
  {
  }

  /** A run of the outbox, seen from a delivery it does not store anew: the item moves by exactly its own steps, each
      of which alters it. */
  lemma {:induction false} ProjectionOf(l: Ledger, acts: seq<Act>, d: string)
    requires d in l.items && NeverStored(acts, d)
    ensures d in Run(l, acts).items && Run(l, acts).items[d] == Runs.Run(l.items[d], StepsOf(l, acts, d))
    ensures Changes(l, acts, d) == |StepsOf(l, acts, d)| == Runs.CountEffective(l.items[d], StepsOf(l, acts, d))
    decreases |acts|
  {
    if acts != [] {
      var next, own := Next(l, acts[0]), StepOf(l, acts[0], d);
      NeverStoredTail(acts, d);
      ActEffect(l, acts[0], d);
      ProjectionOf(next, acts[1..], d);
      StepsCons(l.items[d], own, StepsOf(next, acts[1..], d));
    }
  }

  lemma StepsCons(item: DeliveryEnvelope, own: seq<Runs.Step>, rest: seq<Runs.Step>)
    requires |own| <= 1 && (own != [] ==> Runs.Effective(item, own[0]))
    ensures Runs.Run(item, own + rest) == Runs.Run(Runs.Run(item, own), rest)
    ensures Runs.CountEffective(item, own + rest) == |own| + Runs.CountEffective(Runs.Run(item, own), rest)
  {
    if own == [] {
      assert own + rest == rest;
    } else {
      assert own[1..] == [] && (own + rest)[1..] == rest;
      assert Runs.Run(item, own) == Runs.Next(item, own[0]);
    }
  }

  lemma {:induction false} StepsConcat(l: Ledger, a: seq<Act>, b: seq<Act>, d: string)
    requires d in l.items
    ensures Run(l, a + b) == Run(Run(l, a), b)
    ensures d in Run(l, a).items && StepsOf(l, a + b, d) == StepsOf(l, a, d) + StepsOf(Run(l, a), b, d)
    decreases |a|
  {
    if a == [] {
      assert a + b == b;
      assert [] + StepsOf(l, b, d) == StepsOf(l, b, d);
    } else {
      assert (a + b)[1..] == a[1..] + b;
      StepsConcat(Next(l, a[0]), a[1..], b, d);
    }
  }

  /** After every prefix of the run the delivery is where the same prefix of its own steps leads. */
  lemma {:induction false} Projection(l: Ledger, acts: seq<Act>, d: string, n: nat)
    requires d in l.items && NeverStored(acts, d) && n <= |acts|
    ensures d in Run(l, acts[..n]).items
    ensures var steps, k := StepsOf(l, acts, d), Changes(l, acts[..n], d);
            && k <= |steps| && steps[..k] == StepsOf(l, acts[..n], d)
            && Run(l, acts[..n]).items[d] == Runs.Before(l.items[d], steps, k)
  {
    NeverStoredPrefix(acts, d, n);
    ProjectionOf(l, acts[..n], d);
    StepsPrefix(l, acts, d, n);
  }

  lemma NeverStoredPrefix(acts: seq<Act>, d: string, n: nat)
    requires NeverStored(acts, d) && n <= |acts|
    ensures NeverStored(acts[..n], d)
  {
  }

  lemma {:induction false} StepsPrefix(l: Ledger, acts: seq<Act>, d: string, n: nat)
    requires d in l.items && n <= |acts|
    ensures var own, steps := StepsOf(l, acts[..n], d), StepsOf(l, acts, d); |own| <= |steps| && steps[..|own|] == own
  {
    StepsConcat(l, acts[..n], acts[n..], d);
    assert acts[..n] + acts[n..] == acts;
  }

  // ----- the bound ------------------------------------------------------------------------------------

  /** Whatever else the outbox does, and whatever it holds otherwise: a fresh delivery that is not stored anew is
      altered by at most twice `maxAttempts` acts. */
  lemma {:induction false} EveryDeliveryBounded(l: Ledger, acts: seq<Act>, d: string)
    requires d in l.items && NeverStored(acts, d) && Initial(l.items[d])
    ensures Changes(l, acts, d) <= 2 * l.items[d].maxAttempts
    ensures d in Run(l, acts).items && WellFormed(Run(l, acts).items[d])
    ensures Run(l, acts).items[d].attempts == GrantsOn(l, acts, d) <= l.items[d].maxAttempts
  {
    ProjectionOf(l, acts, d);
    Runs.BoundedRuns(l.items[d], StepsOf(l, acts, d));
    AttemptsCountGrants(l, acts, d);
  }

  lemma {:induction false} AttemptsCountGrants(l: Ledger, acts: seq<Act>, d: string)
    requires d in l.items && NeverStored(acts, d)
    ensures d in Run(l, acts).items && Run(l, acts).items[d].attempts == l.items[d].attempts + GrantsOn(l, acts, d)
    decreases |acts|
  {
    if acts != [] {
      NeverStoredTail(acts, d);
      AttemptsCountGrants(Next(l, acts[0]), acts[1..], d);
    }
  }

  // ----- fresh lease ids ------------------------------------------------------------------------------

  ghost predicate FreshBeyond(counter: nat, steps: seq<Runs.Step>) {
    && Runs.FreshLeaseIds(steps)
    && forall i :: 0 <= i < |steps| && steps[i].Poll? ==> !Issued(counter, steps[i].leaseId)
  }

  lemma FreshCons(counter: nat, counter': nat, own: seq<Runs.Step>, rest: seq<Runs.Step>)
    requires counter <= counter' && FreshBeyond(counter', rest) && |own| <= 1
    requires |own| == 1 && own[0].Poll? ==>
               own[0].leaseId == LeaseName(counter + 1) && (counter' == counter + 1 || rest == [])
    ensures FreshBeyond(counter, own + rest)
  {
    IssuedGrows(counter, counter');
    FreshName(counter);
    var steps := own + rest;
    forall i | 0 <= i < |steps| && steps[i].Poll? ensures !Issued(counter, steps[i].leaseId) {
      if i >= |own| { assert steps[i] == rest[i - |own|]; }
    }
  }

  lemma {:induction false} TerminalHasNoSteps(l: Ledger, acts: seq<Act>, d: string)
    requires d in l.items && NeverStored(acts, d) && l.items[d].status.Terminal()
    ensures StepsOf(l, acts, d) == []
    decreases |acts|
  {
    if acts != [] {
      NeverStoredTail(acts, d);
      ActEffect(l, acts[0], d);
      TerminalHasNoSteps(Next(l, acts[0]), acts[1..], d);
    }
  }

  /** The steps of a delivery use lease ids of their own, none of them issued before the run. */
  lemma {:induction false} StepsFresh(l: Ledger, acts: seq<Act>, d: string)
    requires d in l.items && NeverStored(acts, d)
    ensures FreshBeyond(l.counter, StepsOf(l, acts, d))
    decreases |acts|
  {
    if acts != [] {
      var next, own := Next(l, acts[0]), StepOf(l, acts[0], d);
      NeverStoredTail(acts, d);
      ActEffect(l, acts[0], d);
      StepsFresh(next, acts[1..], d);
      if next.items[d].status.Terminal() { TerminalHasNoSteps(next, acts[1..], d); }
      FreshCons(l.counter, next.counter, own, StepsOf(next, acts[1..], d));
    }
  }

  // ----- leases over runs of the outbox ---------------------------------------------------------------

  /** A lease is held exactly until something happens to its delivery. */
  lemma {:induction false} HeldIffUntouched(l: Ledger, acts: seq<Act>, d: string)
    requires d in l.items && NeverStored(acts, d) && WellFormed(l.items[d])
    requires l.items[d].leaseId.Some? && Issued(l.counter, l.items[d].leaseId.value)
    ensures d in Run(l, acts).items && WellFormed(Run(l, acts).items[d])
    ensures Run(l, acts).items[d].leaseId == l.items[d].leaseId <==> Changes(l, acts, d) == 0
  {
    ProjectionOf(l, acts, d);
    Runs.EffectiveWithinRank(l.items[d], StepsOf(l, acts, d));
    StepsFresh(l, acts, d);
    if StepsOf(l, acts, d) != [] {
      FirstEffective(l, acts, d);
      ReleasedForGood(l.items[d], StepsOf(l, acts, d), l.items[d].leaseId.value);
    }
  }

  /** A lease once given up never comes back when later polls use other ids. */
  lemma {:induction false} ReleasedForGood(item: DeliveryEnvelope, steps: seq<Runs.Step>, id: string)
    requires WellFormed(item) && item.leaseId == Some(id) && steps != [] && Runs.Effective(item, steps[0])
    requires forall i :: 0 <= i < |steps| && steps[i].Poll? ==> steps[i].leaseId != id
    ensures Runs.Run(item, steps).leaseId != Some(id)
  {
    var step := steps[0];
    if step.Report? { ReportEffect(item, step.reported, step.result, step.at, step.retryAfter); }
    Runs.BeforeNext(item, steps, 0);
    assert steps[..0] == [] && steps[..|steps|] == steps;
    Runs.RefusedForever(item, steps, id, 1, |steps|);
  }

  lemma {:induction false} FirstEffective(l: Ledger, acts: seq<Act>, d: string)
    requires d in l.items && NeverStored(acts, d) && StepsOf(l, acts, d) != []
    ensures Runs.Effective(l.items[d], StepsOf(l, acts, d)[0])
    decreases |acts|
  {
    NeverStoredTail(acts, d);
    ActEffect(l, acts[0], d);
    if StepOf(l, acts[0], d) == [] {
      FirstEffective(Next(l, acts[0]), acts[1..], d);
      assert StepsOf(l, acts, d) == [] + StepsOf(Next(l, acts[0]), acts[1..], d);
    }
  }

  /** Only a report that moves the delivery is recorded in its history. */
  lemma {:induction false} HistoryUntouched(l: Ledger, acts: seq<Act>, d: string)
    requires d in l.items && NeverStored(acts, d) && Changes(l, acts, d) == 0
    ensures d in Run(l, acts).items && Run(l, acts).items[d] == l.items[d]
    ensures Run(l, acts).History(d) == l.History(d)
    decreases |acts|
  {
    if acts != [] {
      NeverStoredTail(acts, d);
      ActEffect(l, acts[0], d);
      HistoryUntouched(Next(l, acts[0]), acts[1..], d);
    }
  }

  /** So a report that would move a delivery now moves it later exactly when nothing has happened to the delivery
      meanwhile, whatever else the outbox does and holds. */
  lemma {:induction false} LateReportIff(l: Ledger, acts: seq<Act>, report: Act)
    requires report.Report? && Moves(l, report) && NeverStored(acts, report.delivery)
    requires WellFormed(l.items[report.delivery]) && report.reported.Some? && Issued(l.counter, report.reported.value)
    ensures Moves(Run(l, acts), report) <==> Changes(l, acts, report.delivery) == 0
  {
    var d, later := report.delivery, Run(l, acts);
    ReportEffect(l.items[d], report.reported, report.result, report.at, report.retryAfter);
    HeldIffUntouched(l, acts, d);
    ReportEffect(later.items[d], report.reported, report.result, report.at, report.retryAfter);
    if Changes(l, acts, d) == 0 { HistoryUntouched(l, acts, d); }
  }

  /** The next act appends its own step. */
  lemma {:induction false} StepsSnoc(l: Ledger, acts: seq<Act>, d: string, i: nat)
    requires d in l.items && i < |acts|
    ensures d in Run(l, acts[..i]).items
    ensures StepsOf(l, acts[..i + 1], d) == StepsOf(l, acts[..i], d) + StepOf(Run(l, acts[..i]), acts[i], d)
  {
    StepsConcat(l, acts[..i], [acts[i]], d);
    assert acts[..i] + [acts[i]] == acts[..i + 1];
    assert StepsOf(Run(l, acts[..i]), [acts[i]], d) == StepOf(Run(l, acts[..i]), acts[i], d) + [];
  }

  lemma SliceOf<T>(all: seq<T>, before: seq<T>, own: seq<T>)
    requires |before + own| <= |all| && all[..|before + own|] == before + own
    ensures all[|before|..|before| + |own|] == own
  {
    assert (before + own)[|before|..] == own;
  }

  /** The step an act contributes, at its place among the steps. */
  lemma {:induction false} StepAt(l: Ledger, acts: seq<Act>, d: string, i: nat)
    requires d in l.items && NeverStored(acts, d) && i < |acts|
    ensures d in Run(l, acts[..i]).items
    ensures var steps, k := StepsOf(l, acts, d), Changes(l, acts[..i], d);
            var own := StepOf(Run(l, acts[..i]), acts[i], d);
            && k + |own| <= |steps| && steps[k..k + |own|] == own
            && Run(l, acts[..i]).items[d] == Runs.Before(l.items[d], steps, k)
            && Changes(l, acts[..i + 1], d) == k + |own|
  {
    StepsSnoc(l, acts, d, i);
    Projection(l, acts, d, i);
    Projection(l, acts, d, i + 1);
    NeverStoredPrefix(acts, d, i + 1);
    ProjectionOf(l, acts[..i + 1], d);
    SliceOf(StepsOf(l, acts, d), StepsOf(l, acts[..i], d), StepOf(Run(l, acts[..i]), acts[i], d));
  }

  /** The act behind a step. */
  lemma {:induction false} ActAt(l: Ledger, acts: seq<Act>, d: string, k: nat) returns (i: nat)
    requires d in l.items && NeverStored(acts, d) && k < |StepsOf(l, acts, d)|
    ensures i < |acts| && Changes(l, acts[..i], d) == k && d in Run(l, acts[..i]).items
    ensures StepOf(Run(l, acts[..i]), acts[i], d) == [StepsOf(l, acts, d)[k]]
    decreases |acts|
  {
    ProjectionOf(l, acts, d);
    var n := |acts| - 1;
    var front := acts[..n];
    Projection(l, acts, d, n);
    if k < Changes(l, front, d) {
      ProjectionOf(l, front, d);
      i := ActAt(l, front, d, k);
      assert front[..i] == acts[..i];
    } else {
      i := n;
      StepAt(l, acts, d, n);
      assert acts[..n + 1] == acts;
      ActEffect(Run(l, acts[..n]), acts[n], d);
    }
  }

  lemma {:induction false} ChangesGrow(l: Ledger, acts: seq<Act>, d: string, i: nat, j: nat)
    requires d in l.items && NeverStored(acts, d) && i <= j <= |acts|
    ensures Changes(l, acts[..i], d) <= Changes(l, acts[..j], d)
  {
    Projection(l, acts[..j], d, i);
    assert acts[..j][..i] == acts[..i];
    ProjectionOf(l, acts[..j], d);
  }

  /** The polls of a delivery come in order of their clock. */
  ghost predicate PollClock(acts: seq<Act>, d: string) {
    forall i, j :: 0 <= i < j < |acts| && PollsOn(acts[i], d) && PollsOn(acts[j], d) ==> acts[i].now <= acts[j].now
  }

  predicate PollsOn(act: Act, d: string) { act.Poll? && act.delivery == d }

  lemma {:induction false} StepClock(l: Ledger, acts: seq<Act>, d: string)
    requires d in l.items && NeverStored(acts, d) && PollClock(acts, d)
    ensures Runs.ClockMonotone(StepsOf(l, acts, d))
  {
    var steps := StepsOf(l, acts, d);
    forall p, q | 0 <= p < q < |steps| && steps[p].Poll? && steps[q].Poll? ensures steps[p].now <= steps[q].now {
      var i := ActAt(l, acts, d, p);
      var j := ActAt(l, acts, d, q);
      if j <= i { ChangesGrow(l, acts, d, j, i); }
      assert PollsOn(acts[i], d) && PollsOn(acts[j], d);
    }
  }

  /** The act grants a lease on the delivery at its place in the run. */
  ghost predicate GrantsAt(l: Ledger, acts: seq<Act>, d: string, i: nat)
    requires i < |acts|
  {
    PollsOn(acts[i], d) && Grants(Run(l, acts[..i]), acts[i])
  }

  /** Over a run of the outbox with a non-decreasing clock, two leases of one delivery with no accepted report between
      them have disjoint validity windows. */
  lemma {:induction false} LeaseWindowsDisjoint(l: Ledger, acts: seq<Act>, d: string, i: nat, j: nat)
    requires d in l.items && NeverStored(acts, d) && WellFormed(l.items[d]) && PollClock(acts, d)
    requires i < j < |acts| && GrantsAt(l, acts, d, i) && GrantsAt(l, acts, d, j)
    requires forall m :: i < m < j && acts[m].Report? && acts[m].delivery == d ==> !Moves(Run(l, acts[..m]), acts[m])
    ensures acts[i].now + acts[i].leaseSeconds <= acts[j].now
  {
    var item, steps := l.items[d], StepsOf(l, acts, d);
    var p, q := Changes(l, acts[..i], d), Changes(l, acts[..j], d);
    StepAt(l, acts, d, i);
    StepAt(l, acts, d, j);
    ChangesGrow(l, acts, d, i + 1, j);
    StepClock(l, acts, d);
    assert steps[p] == steps[p..p + 1][0] && steps[q] == steps[q..q + 1][0];
    forall k | p < k < q ensures !Runs.Accepts(Runs.Before(item, steps, k), steps[k]) {
      NoReportBetween(l, acts, d, i, j, k);
    }
    Runs.DisjointWindows(item, steps, p, q);
  }

  lemma {:induction false} NoReportBetween(l: Ledger, acts: seq<Act>, d: string, i: nat, j: nat, k: nat)
    requires d in l.items && NeverStored(acts, d) && i < j < |acts| && k < |StepsOf(l, acts, d)|
    requires Changes(l, acts[..i], d) < k < Changes(l, acts[..j], d)
    requires forall m :: i < m < j && acts[m].Report? && acts[m].delivery == d ==> !Moves(Run(l, acts[..m]), acts[m])
    ensures !StepsOf(l, acts, d)[k].Report?
  {
    var m := ActAt(l, acts, d, k);
    if m <= i { ChangesGrow(l, acts, d, m, i); }
    if j <= m { ChangesGrow(l, acts, d, j, m); }
  }
}
