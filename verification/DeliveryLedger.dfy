/** The lease protocol over many deliveries, one atomic action at a time: what the in-memory and the
    durable outbox have in common. */
module DeliveryLedger {
  import opened Prelude
  import opened DeliveryTransitions
  import Runs = DeliveryRuns

  datatype Fingerprint = Fingerprint(
    deliveryId: string,
    leaseId: Option<string>,
    actionId: string,
    correlationId: string,
    status: ActionStatus,
    externalMessageId: Option<string>,
    errorReason: Option<string>)

  function FingerprintOf(d: string, leaseId: Option<string>, result: ActionResult): (f: Fingerprint) {
    Fingerprint(d, leaseId, result.actionId, result.correlationId, result.status, result.externalMessageId,
                result.errorReason)
  }

  datatype ReportOutcome = Idempotent | Conflict | New

  predicate LeaseIn(history: set<Fingerprint>, leaseId: Option<string>) {
    exists f :: f in history && f.leaseId == leaseId
  }

  function ClassifyReport(history: set<Fingerprint>, current: Fingerprint): (r: ReportOutcome) {
    if current in history then Idempotent
    else if LeaseIn(history, current.leaseId) then Conflict
    else New
  }

  function Decimal(n: nat): (s: string)
    ensures s != []
  {
    if n < 10 then [('0' as int + n) as char] else Decimal(n / 10) + [('0' as int + n % 10) as char]
  }

  function LeaseName(n: nat): (s: string) { "lease-" + Decimal(n) }

  lemma {:induction false} DecimalInjective(m: nat, n: nat)
    requires Decimal(m) == Decimal(n)
    ensures m == n
  {
    var a, b := Decimal(m), Decimal(n);
    assert a[|a| - 1] == b[|b| - 1];
    assert m % 10 == n % 10;
    if m >= 10 && n >= 10 {
      assert a[..|a| - 1] == Decimal(m / 10) && b[..|b| - 1] == Decimal(n / 10);
      DecimalInjective(m / 10, n / 10);
    }
  }

  lemma LeaseNamesDiffer(m: nat, n: nat)
    requires LeaseName(m) == LeaseName(n)
    ensures m == n
  {
    assert Decimal(m) == LeaseName(m)[6..] && Decimal(n) == LeaseName(n)[6..];
    DecimalInjective(m, n);
  }

  datatype Ledger = Ledger(
    items: map<string, DeliveryEnvelope>,
    reports: map<string, set<Fingerprint>>,
    counter: nat)
  {
    function History(d: string): (h: set<Fingerprint>) { if d in reports then reports[d] else {} }
  }

  datatype Act =
    | Store(envelope: DeliveryEnvelope)
    | Poll(delivery: string, now: Time, leaseSeconds: real)
    | Report(delivery: string, reported: Option<string>, result: ActionResult, at: Time, retryAfter: Option<Time>)

  predicate Moves(l: Ledger, act: Act)
    requires act.Report?
  {
    && act.delivery in l.items
    && ClassifyReport(l.History(act.delivery), FingerprintOf(act.delivery, act.reported, act.result)) == New
    && ReportItem(l.items[act.delivery], act.reported, act.result, act.at, act.retryAfter).Ok?
  }

  predicate Grants(l: Ledger, act: Act)
    requires act.Poll?
  {
    && act.delivery in l.items
    && IsDeliveryDue(l.items[act.delivery], act.now)
    && l.items[act.delivery].attempts < l.items[act.delivery].maxAttempts
  }

  function Next(l: Ledger, act: Act): (r: Ledger) {
    match act
    case Store(e) => l.(items := l.items[e.deliveryId := e])
    case Poll(d, now, leaseSeconds) =>
      if d !in l.items then l
      else l.(items := l.items[d := PollItem(l.items[d], now, LeaseName(l.counter + 1), leaseSeconds)],
              counter := if Grants(l, act) then l.counter + 1 else l.counter)
    case Report(d, reported, result, at, retryAfter) =>
      if Moves(l, act)
      then l.(items := l.items[d := ReportItem(l.items[d], reported, result, at, retryAfter).value],
              reports := l.reports[d := l.History(d) + {FingerprintOf(d, reported, result)}])
      else l
  }

  function Run(l: Ledger, acts: seq<Act>): (r: Ledger)
    decreases |acts|
  {
    if acts == [] then l else Run(Next(l, acts[0]), acts[1..])
  }

  /** An envelope that may be stored: well formed, and if it claims a lease, one that was issued, that no other
      delivery holds and that has not been reported. */
  ghost predicate Admissible(l: Ledger, e: DeliveryEnvelope) {
    && WellFormed(e)
    && (e.leaseId.Some? ==>
          && Issued(l.counter, e.leaseId.value) && !LeaseIn(l.History(e.deliveryId), e.leaseId)
          && forall d :: d in l.items && d != e.deliveryId ==> l.items[d].leaseId != e.leaseId)
  }

  ghost predicate Disciplined(l: Ledger, act: Act) { act.Store? ==> Admissible(l, act.envelope) }

  ghost predicate DisciplinedRun(l: Ledger, acts: seq<Act>)
    decreases |acts|
  {
    acts == [] || (Disciplined(l, acts[0]) && DisciplinedRun(Next(l, acts[0]), acts[1..]))
  }

  ghost predicate Issued(counter: nat, id: string) {
    exists k :: 1 <= k <= counter && id == LeaseName(k)
  }

  ghost predicate ItemsOk(l: Ledger) {
    forall d :: d in l.items ==>
      && WellFormed(l.items[d]) && l.items[d].deliveryId == d
      && (l.items[d].leaseId.Some? ==> Issued(l.counter, l.items[d].leaseId.value))
  }

  /** No lease is held by two deliveries. */
  ghost predicate LeasesExclusive(l: Ledger) {
    forall d, e :: d in l.items && e in l.items && d != e ==>
      l.items[d].leaseId.None? || l.items[d].leaseId != l.items[e].leaseId
  }

  /** A reported lease is spent: it was issued, has one recorded report, and its item no longer holds it. */
  ghost predicate ReportsOk(l: Ledger) {
    forall d :: d in l.reports ==> d in l.items && HistoryOk(l, d, l.reports[d])
  }

  ghost predicate HistoryOk(l: Ledger, d: string, history: set<Fingerprint>)
    requires d in l.items
  {
    && (forall f :: f in history ==>
          && f.deliveryId == d && f.leaseId.Some? && Issued(l.counter, f.leaseId.value)
          && l.items[d].leaseId != f.leaseId)
    && (forall f, g :: f in history && g in history && f.leaseId == g.leaseId ==> f == g)
  }

  ghost predicate Inv(l: Ledger) { ItemsOk(l) && LeasesExclusive(l) && ReportsOk(l) }

  lemma FreshName(counter: nat)
    ensures !Issued(counter, LeaseName(counter + 1))
    ensures Issued(counter + 1, LeaseName(counter + 1))
  {
    if Issued(counter, LeaseName(counter + 1)) {
      var k :| 1 <= k <= counter && LeaseName(counter + 1) == LeaseName(k);
      LeaseNamesDiffer(counter + 1, k);
    }
  }

  lemma IssuedGrows(m: nat, n: nat)
    requires m <= n
    ensures forall id :: Issued(m, id) ==> Issued(n, id)
  {
    forall id | Issued(m, id) ensures Issued(n, id) {
      var k :| 1 <= k <= m && id == LeaseName(k);
    }
  }

  lemma PollKeepsItems(l: Ledger, act: Act)
    requires ItemsOk(l) && act.Poll?
    ensures ItemsOk(Next(l, act))
    ensures act.delivery in l.items ==>
              var before, after := l.items[act.delivery].leaseId, Next(l, act).items[act.delivery].leaseId;
              after == before || after.None? || !Issued(l.counter, after.value)
  {
    var l' := Next(l, act);
    FreshName(l.counter);
    IssuedGrows(l.counter, l'.counter);
    if act.delivery in l.items {
      Runs.NextKeeps(l.items[act.delivery], Runs.Poll(act.now, LeaseName(l.counter + 1), act.leaseSeconds));
    }
  }

  lemma PollKeepsInv(l: Ledger, act: Act)
    requires Inv(l) && act.Poll?
    ensures Inv(Next(l, act))
  {
    var l' := Next(l, act);
    PollKeepsItems(l, act);
    IssuedGrows(l.counter, l'.counter);
    assert LeasesExclusive(l');
    forall d | d in l'.reports ensures d in l'.items && HistoryOk(l', d, l'.reports[d]) {
      assert HistoryOk(l, d, l.reports[d]);
    }
  }

  lemma ReportKeepsInv(l: Ledger, act: Act)
    requires Inv(l) && act.Report?
    ensures Inv(Next(l, act))
  {
    if Moves(l, act) {
      var l' := Next(l, act);
      var d := act.delivery;
      ReportEffect(l.items[d], act.reported, act.result, act.at, act.retryAfter);
      forall e | e in l'.reports ensures e in l'.items && HistoryOk(l', e, l'.reports[e]) {
        if e in l.reports { assert HistoryOk(l, e, l.reports[e]); }
      }
    }
  }

  /** Storing keeps the invariant exactly for admissible envelopes. */
  lemma StoreKeepsInvIff(l: Ledger, e: DeliveryEnvelope)
    requires Inv(l)
    ensures Inv(Next(l, Store(e))) <==> Admissible(l, e)
  {
    var l' := Next(l, Store(e));
    if Admissible(l, e) {
      forall d | d in l'.reports ensures d in l'.items && HistoryOk(l', d, l'.reports[d]) {
        assert HistoryOk(l, d, l.reports[d]);
      }
    }
    if Inv(l') { StoredAdmissible(l, e); }
  }

  lemma StoredAdmissible(l: Ledger, e: DeliveryEnvelope)
    requires Inv(Next(l, Store(e)))
    ensures Admissible(l, e)
  {
    var l' := Next(l, Store(e));
    assert l'.items[e.deliveryId] == e && forall d :: d in l.items && d != e.deliveryId ==> l'.items[d] == l.items[d];
    if e.deliveryId in l'.reports { assert HistoryOk(l', e.deliveryId, l'.reports[e.deliveryId]); }
  }

  /** A fresh envelope is always admissible, also under a used id. */
  lemma InitialAdmissible(l: Ledger, e: DeliveryEnvelope)
    requires Initial(e)
    ensures Admissible(l, e)
  {
  }

  lemma NextKeepsInv(l: Ledger, act: Act)
    requires Inv(l)
    ensures Inv(Next(l, act)) <==> Disciplined(l, act)
  {
    match act
    case Store(e) => StoreKeepsInvIff(l, e);
    case Poll(_, _, _) => PollKeepsInv(l, act);
    case Report(_, _, _, _, _) => ReportKeepsInv(l, act);
  }

  lemma {:induction false} RunKeepsInv(l: Ledger, acts: seq<Act>)
    requires Inv(l) && DisciplinedRun(l, acts)
    ensures Inv(Run(l, acts))
    decreases |acts|
  {
    if acts == [] {
    } else {
      NextKeepsInv(l, acts[0]);
      RunKeepsInv(Next(l, acts[0]), acts[1..]);
    }
  }

  lemma RunPrefix(l: Ledger, acts: seq<Act>, n: nat)
    requires 1 <= n <= |acts|
    ensures Run(l, acts[..n]) == Run(Next(l, acts[0]), acts[1..][..n - 1])
  {
    assert acts[..n][0] == acts[0] && acts[..n][1..] == acts[1..][..n - 1];
  }

  /** The invariant holds after every prefix of a run. */
  ghost predicate InvThroughout(l: Ledger, acts: seq<Act>) {
    forall n :: 0 <= n <= |acts| ==> Inv(Run(l, acts[..n]))
  }

  lemma InvThroughoutCons(l: Ledger, acts: seq<Act>)
    requires Inv(l) && acts != []
    ensures InvThroughout(l, acts) <==> InvThroughout(Next(l, acts[0]), acts[1..])
  {
    assert acts[..0] == [];
    forall n | 1 <= n <= |acts| ensures Inv(Run(l, acts[..n])) <==> Inv(Run(Next(l, acts[0]), acts[1..][..n - 1])) {
      RunPrefix(l, acts, n);
    }
    if InvThroughout(l, acts) {
      forall n | 0 <= n <= |acts[1..]| ensures Inv(Run(Next(l, acts[0]), acts[1..][..n])) {
        assert Inv(Run(l, acts[..n + 1]));
      }
    }
  }

  /** Whatever is enqueued, polled and reported, in whatever order: the invariant holds all the way exactly when
      every stored envelope is admissible at its moment. */
  lemma {:induction false} InvariantIff(l: Ledger, acts: seq<Act>)
    requires Inv(l)
    ensures InvThroughout(l, acts) <==> DisciplinedRun(l, acts)
    decreases |acts|
  {
    if acts == [] {
      assert forall n :: 0 <= n <= |acts| ==> acts[..n] == [];
    } else {
      NextKeepsInv(l, acts[0]);
      InvThroughoutCons(l, acts);
      if Inv(Next(l, acts[0])) {
        InvariantIff(Next(l, acts[0]), acts[1..]);
      } else {
        assert acts[1..][..0] == [];
        assert !Inv(Run(Next(l, acts[0]), acts[1..][..0]));
      }
    }
  }

  lemma {:induction false} HistoryGrows(l: Ledger, acts: seq<Act>, d: string)
    ensures l.History(d) <= Run(l, acts).History(d)
    ensures l.counter <= Run(l, acts).counter
    ensures d in l.items ==> d in Run(l, acts).items
    decreases |acts|
  {
    if acts == [] {
    } else {
      HistoryGrows(Next(l, acts[0]), acts[1..], d);
    }
  }

  /** What a reporter sees. */
  datatype Reply = Accepted(item: DeliveryEnvelope) | Repeated(item: DeliveryEnvelope) | NotFound
                 | Conflicting | Refused(cause: DeliveryError)

  function ReplyTo(l: Ledger, act: Act): (r: Reply)
    requires act.Report?
  {
    if act.delivery !in l.items then NotFound
    else match ClassifyReport(l.History(act.delivery), FingerprintOf(act.delivery, act.reported, act.result))
      case Idempotent => Repeated(l.items[act.delivery])
      case Conflict => Conflicting
      case New =>
        var r := ReportItem(l.items[act.delivery], act.reported, act.result, act.at, act.retryAfter);
        if r.Raised? then Refused(r.error) else Accepted(r.value)
  }

  /** The report is recorded, and is the only one recorded for its lease. */
  ghost predicate OnlyReport(l: Ledger, f: Fingerprint) {
    && f.deliveryId in l.items && f in l.History(f.deliveryId)
    && forall g :: g in l.History(f.deliveryId) && g.leaseId == f.leaseId ==> g == f
  }

  lemma {:induction false} OnlyReportKept(l: Ledger, acts: seq<Act>, f: Fingerprint)
    requires OnlyReport(l, f)
    ensures OnlyReport(Run(l, acts), f)
    decreases |acts|
  {
    if acts != [] { OnlyReportKept(Next(l, acts[0]), acts[1..], f); }
  }

  /** Exactly-once reporting. Once `first` has moved a delivery, then after any further activity whatsoever, be it that
      the delivery is stored again under the same lease, every report for the same delivery and lease leaves the ledger
      alone: a report of the same result, whatever its time and retry, is answered with the current item, and a result
      that differs in any field is a conflict. */
  lemma {:induction false} ReportsExactlyOnce(l: Ledger, first: Act, acts: seq<Act>, again: Act)
    requires first.Report? && Moves(l, first)
    requires again.Report? && again.delivery == first.delivery && again.reported == first.reported
    ensures var later := Run(Next(l, first), acts);
            && Next(later, again) == later
            && first.delivery in later.items
            && ReplyTo(later, again) ==
               if again.result == first.result then Repeated(later.items[first.delivery]) else Conflicting
  {
    var f := FingerprintOf(first.delivery, first.reported, first.result);
    assert OnlyReport(Next(l, first), f);
    OnlyReportKept(Next(l, first), acts, f);
  }

  /** In every reachable ledger a report moves an item exactly when the item holds the reported lease,
      and a lease that is held has no recorded report yet. */
  lemma MovesIffHolds(l: Ledger, act: Act)
    requires Inv(l) && act.Report?
    ensures Moves(l, act) <==>
            act.delivery in l.items && act.reported.Some? && l.items[act.delivery].leaseId == act.reported
  {
    if act.delivery in l.items {
      ReportEffect(l.items[act.delivery], act.reported, act.result, act.at, act.retryAfter);
      if act.delivery in l.reports { assert HistoryOk(l, act.delivery, l.reports[act.delivery]); }
    }
  }

  /** The result was reported for this delivery under this lease. */
  ghost predicate Reported(l: Ledger, d: string, lease: Option<string>, result: ActionResult) {
    exists f :: f in l.History(d) && f.leaseId == lease && f.deliveryId == d && f.actionId == result.actionId
                && f.correlationId == result.correlationId && f.status == result.status
                && f.externalMessageId == result.externalMessageId && f.errorReason == result.errorReason
  }

  /** What a reporter is told in every reachable ledger, case by case. */
  lemma ReplyExact(l: Ledger, act: Act)
    requires Inv(l) && act.Report?
    ensures var r, known := ReplyTo(l, act), act.delivery in l.items;
            && (r.NotFound? <==> !known)
            && (r.Accepted? <==> known && act.reported.Some? && l.items[act.delivery].leaseId == act.reported)
            && (r.Repeated? <==> known && Reported(l, act.delivery, act.reported, act.result))
            && (r.Repeated? ==> r.item == l.items[act.delivery])
            && (r.Conflicting? <==>
                known && !Reported(l, act.delivery, act.reported, act.result)
                && exists f :: f in l.History(act.delivery) && f.leaseId == act.reported)
            && (r.Accepted? ==> Next(l, act).items == l.items[act.delivery := r.item])
            && (!r.Accepted? ==> Next(l, act) == l)
            && (r.Refused? ==>
                  && (r.cause == AlreadyTerminal <==> l.items[act.delivery].status.Terminal())
                  && (r.cause == NotLeased <==> l.items[act.delivery].status == Pending))
  {
    MovesIffHolds(l, act);
    if act.delivery in l.items {
      ReportEffect(l.items[act.delivery], act.reported, act.result, act.at, act.retryAfter);
      var f := FingerprintOf(act.delivery, act.reported, act.result);
      assert Reported(l, act.delivery, act.reported, act.result) <==> f in l.History(act.delivery) by {
        if Reported(l, act.delivery, act.reported, act.result) {
          var g :| g in l.History(act.delivery) && g.leaseId == act.reported && g.deliveryId == act.delivery
                   && g.actionId == act.result.actionId && g.correlationId == act.result.correlationId
                   && g.status == act.result.status && g.externalMessageId == act.result.externalMessageId
                   && g.errorReason == act.result.errorReason;
          assert g == f;
        }
      }
    }
  }

  /** Leases granted at different moments of one run carry different ids, whichever items they are for. */
  lemma GrantsDiffer(l: Ledger, a: Act, acts: seq<Act>, b: Act)
    requires a.Poll? && Grants(l, a)
    requires var later := Run(Next(l, a), acts); b.Poll? && Grants(later, b)
    ensures var later := Run(Next(l, a), acts);
            Next(l, a).items[a.delivery].leaseId != Next(later, b).items[b.delivery].leaseId
  {
    var later := Run(Next(l, a), acts);
    HistoryGrows(Next(l, a), acts, a.delivery);
    if LeaseName(l.counter + 1) == LeaseName(later.counter + 1) {
      LeaseNamesDiffer(l.counter + 1, later.counter + 1);
    }
  }

  /** The delivery is there and unchanged after every prefix of a run. */
  ghost predicate KeptThroughout(l: Ledger, acts: seq<Act>, d: string, e: DeliveryEnvelope) {
    forall n :: 0 <= n <= |acts| ==> d in Run(l, acts[..n]).items && Run(l, acts[..n]).items[d] == e
  }

  /** No act stores something else under the id. */
  ghost predicate NeverReplaced(acts: seq<Act>, d: string, e: DeliveryEnvelope) {
    forall i :: 0 <= i < |acts| && acts[i].Store? && acts[i].envelope.deliveryId == d ==> acts[i].envelope == e
  }

  lemma KeptThroughoutCons(l: Ledger, acts: seq<Act>, d: string, e: DeliveryEnvelope)
    requires acts != [] && d in l.items && l.items[d] == e
    ensures KeptThroughout(l, acts, d, e) <==> KeptThroughout(Next(l, acts[0]), acts[1..], d, e)
  {
    assert acts[..0] == [];
    forall n | 1 <= n <= |acts| ensures Run(l, acts[..n]) == Run(Next(l, acts[0]), acts[1..][..n - 1]) {
      RunPrefix(l, acts, n);
    }
    if KeptThroughout(l, acts, d, e) {
      forall n | 0 <= n <= |acts[1..]|
        ensures var l' := Run(Next(l, acts[0]), acts[1..][..n]); d in l'.items && l'.items[d] == e
      {
        assert d in Run(l, acts[..n + 1]).items;
      }
    }
  }

  /** A finished delivery stays as it is through a run exactly when the run stores nothing else under its id; no
      poll, no report and no discipline of other deliveries matters. */
  lemma {:induction false} TerminalKeptIff(l: Ledger, acts: seq<Act>, d: string)
    requires d in l.items && l.items[d].status.Terminal()
    ensures KeptThroughout(l, acts, d, l.items[d]) <==> NeverReplaced(acts, d, l.items[d])
    decreases |acts|
  {
    var e := l.items[d];
    if acts == [] {
      assert forall n :: 0 <= n <= |acts| ==> acts[..n] == [];
    } else {
      var l' := Next(l, acts[0]);
      KeptThroughoutCons(l, acts, d, e);
      if acts[0].Store? && acts[0].envelope.deliveryId == d && acts[0].envelope != e {
        assert acts[1..][..0] == [];
        assert Run(l', acts[1..][..0]).items[d] != e;
      } else {
        TerminalKeptIff(l', acts[1..], d);
        assert NeverReplaced(acts, d, e) <==> NeverReplaced(acts[1..], d, e) by {
          assert acts == [acts[0]] + acts[1..];
        }
      }
    }
  }

  /** The outbox keys deduplication on the idempotency key only, so a second envelope under a used id and a new key
      puts a finished delivery back to work: enqueue, lease, report success, enqueue again. */
  lemma ReusedIdRevives() returns (acts: seq<Act>)
    ensures |acts| == 4 && acts[0].Store? && acts[1].Poll? && acts[2].Report? && acts[3].Store?
    ensures DisciplinedRun(Ledger(map[], map[], 0), acts)
    ensures var e, again := acts[0].envelope, acts[3].envelope;
            && Initial(e) && Initial(again)
            && e.deliveryId == again.deliveryId && e.idempotencyKey != again.idempotencyKey
            && (var done := Run(Ledger(map[], map[], 0), acts[..3]).items;
                e.deliveryId in done && done[e.deliveryId].status == Succeeded)
            && (var after := Run(Ledger(map[], map[], 0), acts).items;
                e.deliveryId in after && IsDeliveryDue(after[e.deliveryId], 2.0))
  {
    var e := DeliveryEnvelope("d", SendMessage("a", "hi"), DeliveryTarget("p", "s"), Pending, 0.0, 0.0, None, 0, 1,
                              "k1", None, None, None, None, None);
    var again := e.(idempotencyKey := "k2");
    var l0 := Ledger(map[], map[], 0);
    var a0, a1 := Store(e), Poll("d", 0.0, 10.0);
    var a2 := Report("d", Some(LeaseName(1)), ActionResult("a", "c", ActionSucceeded, None, None), 1.0, None);
    var l1 := Next(l0, a0);
    var l2 := Next(l1, a1);
    var l3 := Next(l2, a2);
    assert l3.items["d"].status == Succeeded;
    acts := [a0, a1, a2, Store(again)];
    InitialAdmissible(l0, e);
    InitialAdmissible(l3, again);
    FourActs(l0, acts, l1, l2, l3);
  }

  lemma ActCons(l: Ledger, a: Act, rest: seq<Act>)
    ensures Run(l, [a] + rest) == Run(Next(l, a), rest)
    ensures DisciplinedRun(l, [a] + rest) <==> Disciplined(l, a) && DisciplinedRun(Next(l, a), rest)
  {
    assert ([a] + rest)[1..] == rest;
  }

  lemma FourActs(l0: Ledger, acts: seq<Act>, l1: Ledger, l2: Ledger, l3: Ledger)
    requires |acts| == 4 && l1 == Next(l0, acts[0]) && l2 == Next(l1, acts[1]) && l3 == Next(l2, acts[2])
    requires Disciplined(l0, acts[0]) && Disciplined(l1, acts[1]) && Disciplined(l2, acts[2])
             && Disciplined(l3, acts[3])
    ensures Run(l0, acts[..3]) == l3 && Run(l0, acts) == Next(l3, acts[3]) && DisciplinedRun(l0, acts)
  {
    var a, b, c, d := acts[0], acts[1], acts[2], acts[3];
    ActCons(l3, d, []);
    ActCons(l2, c, [d]);
    ActCons(l1, b, [c] + [d]);
    ActCons(l0, a, [b] + ([c] + [d]));
    ActCons(l2, c, []);
    ActCons(l1, b, [c]);
    ActCons(l0, a, [b] + [c]);
    assert [d] + [] == [d] && [c] + [] == [c];
    assert acts == [a] + ([b] + ([c] + [d])) && acts[..3] == [a] + ([b] + [c]);
  }
}
