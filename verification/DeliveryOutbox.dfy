/** The process-local outbox (iris/runtime/delivery/in_memory.py). Its operations are acts of the
    delivery ledger, so every run of the outbox has the ledger's guarantees. */
module DeliveryOutbox {
  import opened Prelude
  import opened Ordering
  import opened Counting
  import opened KeyedSeq
  import opened DeliveryTransitions
  import opened DeliveryLedger
  import Runs = DeliveryRuns

  datatype OutboxError =
    | NoActionNotDeliverable | IdempotencyKeyRequired | DepthExceeded
    | DeliveryNotFound | ReportConflict | ReportRefused(cause: DeliveryError)

  function DeliveryId(e: DeliveryEnvelope): (id: string) { e.deliveryId }

  predicate EnvelopeLeq(a: DeliveryEnvelope, b: DeliveryEnvelope) {
    a.createdAt < b.createdAt || (a.createdAt == b.createdAt && LexLeq(a.deliveryId, b.deliveryId))
  }

  predicate Active(e: DeliveryEnvelope, provider: string) {
    e.target.provider == provider && !e.status.Terminal()
  }

  function ActiveCount(items: seq<DeliveryEnvelope>, provider: string): (n: nat) {
    if items == [] then 0
    else (if Active(items[0], provider) then 1 else 0) + ActiveCount(items[1..], provider)
  }

  predicate Eligible(item: DeliveryEnvelope, provider: string, now: Time) {
    item.target.provider == provider && IsDeliveryDue(item, now)
  }

  ghost predicate Covers(l: Ledger, queue: seq<DeliveryEnvelope>) {
    forall i :: 0 <= i < |queue| ==> queue[i].deliveryId in l.items
  }

  /** The polling loop over the sorted snapshot `queue`, having already collected `due`. */
  ghost function PollLoop(l: Ledger, queue: seq<DeliveryEnvelope>, provider: string, now: Time, maxItems: int,
                          leaseSeconds: real, due: seq<DeliveryEnvelope>): (r: (Ledger, seq<DeliveryEnvelope>))
    requires Covers(l, queue)
    decreases |queue|
  {
    if queue == [] || |due| >= maxItems then (l, due)
    else if !Eligible(queue[0], provider, now) then PollLoop(l, queue[1..], provider, now, maxItems, leaseSeconds, due)
    else
      var l' := Next(l, Poll(queue[0].deliveryId, now, leaseSeconds));
      var leased := l'.items[queue[0].deliveryId];
      PollLoop(l', queue[1..], provider, now, maxItems, leaseSeconds,
               if leased.status == Leased then due + [leased] else due)
  }

  /** The queue is what the ledger holds, each delivery once. */
  ghost predicate Snapshot(l: Ledger, queue: seq<DeliveryEnvelope>) {
    && Covers(l, queue) && Distinct(queue, DeliveryId)
    && forall i :: 0 <= i < |queue| ==> l.items[queue[i].deliveryId] == queue[i]
  }

  predicate Grantable(item: DeliveryEnvelope, provider: string, now: Time) {
    Eligible(item, provider, now) && item.attempts < item.maxAttempts
  }

  /** The current versions of the deliveries in `queue` that a poll could lease. */
  ghost function Granted(l: Ledger, queue: seq<DeliveryEnvelope>, provider: string,
                         now: Time): (r: seq<DeliveryEnvelope>)
    requires Covers(l, queue)
  {
    if queue == [] then []
    else (if Grantable(queue[0], provider, now) then [l.items[queue[0].deliveryId]] else [])
         + Granted(l, queue[1..], provider, now)
  }

  /** How much of the queue a poll with `room` free places works through. */
  ghost function Cut(queue: seq<DeliveryEnvelope>, provider: string, now: Time, room: int): (n: nat)
    ensures n <= |queue|
  {
    if queue == [] || room <= 0 then 0
    else 1 + Cut(queue[1..], provider, now, if Grantable(queue[0], provider, now) then room - 1 else room)
  }

  /** One delivery polled if it is eligible. */
  ghost function Polled(l: Ledger, item: DeliveryEnvelope, provider: string, now: Time, leaseSeconds: real)
    : (r: Ledger)
  {
    if Eligible(item, provider, now) then Next(l, Poll(item.deliveryId, now, leaseSeconds)) else l
  }

  /** Polling every eligible delivery of `queue`, without a limit. */
  ghost function PollAll(l: Ledger, queue: seq<DeliveryEnvelope>, provider: string, now: Time,
                         leaseSeconds: real): (r: Ledger)
    decreases |queue|
  {
    if queue == [] then l
    else PollAll(Polled(l, queue[0], provider, now, leaseSeconds), queue[1..], provider, now, leaseSeconds)
  }

  lemma SnapshotTail(l: Ledger, queue: seq<DeliveryEnvelope>, now: Time, leaseSeconds: real)
    requires Snapshot(l, queue) && queue != []
    ensures Snapshot(l, queue[1..])
    ensures var l1 := Next(l, Poll(queue[0].deliveryId, now, leaseSeconds));
            && Snapshot(l1, queue[1..])
            && l1.items.Keys == l.items.Keys
            && l1.items[queue[0].deliveryId] == PollItem(queue[0], now, LeaseName(l.counter + 1), leaseSeconds)
  {
    forall i | 0 <= i < |queue[1..]| ensures queue[1..][i].deliveryId != queue[0].deliveryId {
      assert DeliveryId(queue[0]) != DeliveryId(queue[i + 1]);
    }
  }

  /** Deliveries outside the queue are not touched. */
  lemma {:induction false} PollAllElsewhere(l: Ledger, queue: seq<DeliveryEnvelope>, provider: string, now: Time,
                                            leaseSeconds: real, d: string)
    requires forall i :: 0 <= i < |queue| ==> queue[i].deliveryId != d
    ensures d in PollAll(l, queue, provider, now, leaseSeconds).items <==> d in l.items
    ensures d in l.items ==> PollAll(l, queue, provider, now, leaseSeconds).items[d] == l.items[d]
    decreases |queue|
  {
    if queue != [] {
      var l1 := Polled(l, queue[0], provider, now, leaseSeconds);
      assert queue[0].deliveryId != d;
      PollAllElsewhere(l1, queue[1..], provider, now, leaseSeconds, d);
    }
  }

  /** Each delivery in the queue is polled with a lease id of its own if eligible, and left alone if not. */
  lemma {:induction false} PollAllPointwise(l: Ledger, queue: seq<DeliveryEnvelope>, provider: string, now: Time,
                                            leaseSeconds: real, i: nat) returns (id: string)
    requires Snapshot(l, queue) && i < |queue|
    ensures var r := PollAll(l, queue, provider, now, leaseSeconds);
            && queue[i].deliveryId in r.items && !Issued(l.counter, id)
            && r.items[queue[i].deliveryId] ==
               if queue[i].target.provider == provider && IsDeliveryDue(queue[i], now)
               then PollItem(queue[i], now, id, leaseSeconds) else queue[i]
    decreases |queue|
  {
    SnapshotTail(l, queue, now, leaseSeconds);
    var l1 := Polled(l, queue[0], provider, now, leaseSeconds);
    if i == 0 {
      id := LeaseName(l.counter + 1);
      FreshName(l.counter);
      forall j | 0 <= j < |queue[1..]| ensures queue[1..][j].deliveryId != queue[0].deliveryId {
        assert DeliveryId(queue[0]) != DeliveryId(queue[j + 1]);
      }
      PollAllElsewhere(l1, queue[1..], provider, now, leaseSeconds, queue[0].deliveryId);
    } else {
      id := PollAllPointwise(l1, queue[1..], provider, now, leaseSeconds, i - 1);
      IssuedGrows(l.counter, l1.counter);
    }
  }

  lemma PollUnfold(l: Ledger, queue: seq<DeliveryEnvelope>, provider: string, now: Time, maxItems: int,
                   leaseSeconds: real, due: seq<DeliveryEnvelope>) returns (l1: Ledger, first: seq<DeliveryEnvelope>)
    requires Snapshot(l, queue) && queue != [] && |due| < maxItems
    ensures l1 == Polled(l, queue[0], provider, now, leaseSeconds)
    ensures Snapshot(l1, queue[1..]) && queue[0].deliveryId in l1.items
    ensures first == if Grantable(queue[0], provider, now) then [l1.items[queue[0].deliveryId]] else []
    ensures PollLoop(l, queue, provider, now, maxItems, leaseSeconds, due) ==
            PollLoop(l1, queue[1..], provider, now, maxItems, leaseSeconds, due + first)
  {
    SnapshotTail(l, queue, now, leaseSeconds);
    l1 := Polled(l, queue[0], provider, now, leaseSeconds);
    first := if Grantable(queue[0], provider, now) then [l1.items[queue[0].deliveryId]] else [];
    assert due + [] == due;
  }

  /** The loop works through exactly `served` and returns the leases it could grant there, in order. */
  ghost predicate Serves(l: Ledger, queue: seq<DeliveryEnvelope>, provider: string, now: Time, maxItems: int,
                         leaseSeconds: real, due: seq<DeliveryEnvelope>, served: seq<DeliveryEnvelope>)
    requires Snapshot(l, queue)
  {
    var after := PollAll(l, served, provider, now, leaseSeconds);
    && Covers(after, served)
    && PollLoop(l, queue, provider, now, maxItems, leaseSeconds, due) ==
        (after, due + Granted(after, served, provider, now))
  }

  lemma CutStep(queue: seq<DeliveryEnvelope>, provider: string, now: Time, room: int)
    requires queue != [] && room > 0
    ensures var cut := Cut(queue, provider, now, room);
            var rest := if Grantable(queue[0], provider, now) then room - 1 else room;
            && cut >= 1 && Cut(queue[1..], provider, now, rest) == cut - 1
            && queue[..cut] != [] && queue[..cut][0] == queue[0] && queue[..cut][1..] == queue[1..][..cut - 1]
  {
  }

  lemma ServesStep(l: Ledger, queue: seq<DeliveryEnvelope>, provider: string, now: Time, maxItems: int,
                   leaseSeconds: real,
                   due: seq<DeliveryEnvelope>, served: seq<DeliveryEnvelope>, l1: Ledger, first: seq<DeliveryEnvelope>)
    requires Snapshot(l, queue) && served <= queue && served != [] && queue[0].deliveryId in l1.items
             && Snapshot(l1, queue[1..])
    requires l1 == Polled(l, queue[0], provider, now, leaseSeconds)
    requires first == if Grantable(queue[0], provider, now) then [l1.items[queue[0].deliveryId]] else []
    requires PollLoop(l, queue, provider, now, maxItems, leaseSeconds, due) ==
             PollLoop(l1, queue[1..], provider, now, maxItems, leaseSeconds, due + first)
    requires Serves(l1, queue[1..], provider, now, maxItems, leaseSeconds, due + first, served[1..])
    ensures Serves(l, queue, provider, now, maxItems, leaseSeconds, due, served)
  {
    var after := PollAll(l1, served[1..], provider, now, leaseSeconds);
    ServedFirst(l, l1, queue, served, provider, now, leaseSeconds);
    var rest := Granted(after, served[1..], provider, now);
    assert (due + first) + rest == due + (first + rest);
  }

  /** What one poll does to the whole outbox: it works through the queue in order, up to the cut; the
      returned leases are exactly the deliveries it could lease, in that order. */
  lemma {:induction false} PollServesInOrder(l: Ledger, queue: seq<DeliveryEnvelope>, provider: string, now: Time,
                                             maxItems: int, leaseSeconds: real, due: seq<DeliveryEnvelope>)
    requires Snapshot(l, queue)
    ensures Serves(l, queue, provider, now, maxItems, leaseSeconds, due,
                   queue[..Cut(queue, provider, now, maxItems - |due|)])
    decreases |queue|
  {
    var served := queue[..Cut(queue, provider, now, maxItems - |due|)];
    if queue == [] || |due| >= maxItems {
      assert served == [] && due + Granted(l, served, provider, now) == due;
    } else {
      var l1, first := PollUnfold(l, queue, provider, now, maxItems, leaseSeconds, due);
      CutStep(queue, provider, now, maxItems - |due|);
      PollServesInOrder(l1, queue[1..], provider, now, maxItems, leaseSeconds, due + first);
      ServesStep(l, queue, provider, now, maxItems, leaseSeconds, due, served, l1, first);
    }
  }

  lemma ServedFirst(l: Ledger, l1: Ledger, queue: seq<DeliveryEnvelope>, served: seq<DeliveryEnvelope>,
                    provider: string,
                    now: Time, leaseSeconds: real)
    requires Snapshot(l, queue) && served <= queue && served != [] && queue[0].deliveryId in l1.items
    requires l1 == Polled(l, queue[0], provider, now, leaseSeconds)
    requires Covers(PollAll(l1, served[1..], provider, now, leaseSeconds), served[1..])
    ensures var after := PollAll(l1, served[1..], provider, now, leaseSeconds);
            && after == PollAll(l, served, provider, now, leaseSeconds) && Covers(after, served)
            && Granted(after, served, provider, now) ==
               (if Grantable(queue[0], provider, now) then [l1.items[queue[0].deliveryId]] else [])
               + Granted(after, served[1..], provider, now)
  {
    forall j | 0 <= j < |served[1..]| ensures served[1..][j].deliveryId != queue[0].deliveryId {
      assert DeliveryId(queue[0]) != DeliveryId(queue[j + 1]);
    }
    PollAllElsewhere(l1, served[1..], provider, now, leaseSeconds, queue[0].deliveryId);
    var after := PollAll(l1, served[1..], provider, now, leaseSeconds);
    forall j | 0 <= j < |served| ensures served[j].deliveryId in after.items {
      if j > 0 { assert served[1..][j - 1] == served[j]; }
    }
  }

  /** The poll hands out at most `room` leases and stops before the end of the queue only when full. */
  lemma {:induction false} CutFills(l: Ledger, queue: seq<DeliveryEnvelope>, provider: string, now: Time, room: int)
    requires Covers(l, queue) && 0 <= room
    ensures var cut := Cut(queue, provider, now, room);
            && |Granted(l, queue[..cut], provider, now)| <= room
            && (cut < |queue| ==> |Granted(l, queue[..cut], provider, now)| == room)
  {
    var cut := Cut(queue, provider, now, room);
    if queue == [] || room <= 0 {
      assert queue[..cut] == [];
    } else {
      CutFills(l, queue[1..], provider, now, if Grantable(queue[0], provider, now) then room - 1 else room);
      assert queue[..cut][1..] == queue[1..][..cut - 1];
    }
  }

  lemma {:induction false} PollAllIsRun(l: Ledger, queue: seq<DeliveryEnvelope>, provider: string, now: Time,
                                        leaseSeconds: real) returns (acts: seq<Act>)
    ensures PollAll(l, queue, provider, now, leaseSeconds) == Run(l, acts)
    ensures DisciplinedRun(l, acts)
    decreases |queue|
  {
    if queue == [] {
      acts := [];
    } else if Eligible(queue[0], provider, now) {
      var act := Poll(queue[0].deliveryId, now, leaseSeconds);
      var rest := PollAllIsRun(Next(l, act), queue[1..], provider, now, leaseSeconds);
      acts := [act] + rest;
      assert acts[1..] == rest;
    } else {
      acts := PollAllIsRun(l, queue[1..], provider, now, leaseSeconds);
    }
  }

  lemma EnvelopeOrder()
    ensures TotalPreorder(EnvelopeLeq)
    ensures forall a, b :: EnvelopeLeq(a, b) && EnvelopeLeq(b, a) ==> DeliveryId(a) == DeliveryId(b)
  {
    LexOrder();
  }

  /** The due queue: every delivery once, by creation time and then id. */
  lemma QueueInOrder(items: seq<DeliveryEnvelope>)
    requires Distinct(items, DeliveryId)
    ensures var queue := SortBy(items, EnvelopeLeq);
            && Distinct(queue, DeliveryId) && (forall e :: e in queue <==> e in items)
            && forall i, j :: 0 <= i < j < |queue| ==>
                 && queue[i].createdAt <= queue[j].createdAt
                 && (queue[i].createdAt == queue[j].createdAt ==> LexLeq(queue[i].deliveryId, queue[j].deliveryId))
  {
    EnvelopeOrder();
    SortBySorted(items, EnvelopeLeq);
    SortByDistinct(items, EnvelopeLeq, DeliveryId);
    forall e ensures e in SortBy(items, EnvelopeLeq) <==> e in items { SortByElements(items, EnvelopeLeq, e); }
    var queue := SortBy(items, EnvelopeLeq);
    assert forall i, j :: 0 <= i < j < |queue| ==> EnvelopeLeq(queue[i], queue[j]);
  }

  lemma SnapshotOfSorted(items: seq<DeliveryEnvelope>, l: Ledger)
    requires Distinct(items, DeliveryId) && l.items == View(items, DeliveryId)
    ensures Snapshot(l, SortBy(items, EnvelopeLeq))
    ensures forall d :: d in l.items ==> l.items[d].deliveryId == d && l.items[d] in SortBy(items, EnvelopeLeq)
  {
    var queue := SortBy(items, EnvelopeLeq);
    SortByDistinct(items, EnvelopeLeq, DeliveryId);
    forall i | 0 <= i < |queue| ensures queue[i].deliveryId in l.items && l.items[queue[i].deliveryId] == queue[i] {
      SortByElements(items, EnvelopeLeq, queue[i]);
      ViewElements(items, DeliveryId, queue[i]);
    }
    forall d | d in l.items ensures l.items[d].deliveryId == d && l.items[d] in queue {
      ViewLookup(items, DeliveryId, d);
      SortByElements(items, EnvelopeLeq, l.items[d]);
    }
  }

  lemma {:induction false} ActiveCountUpdate(items: seq<DeliveryEnvelope>, i: nat, e: DeliveryEnvelope,
                                             provider: string)
    requires i < |items|
    ensures ActiveCount(items[i := e], provider) ==
            ActiveCount(items, provider) - (if Active(items[i], provider) then 1 else 0)
                + (if Active(e, provider) then 1 else 0)
  {
    if i == 0 {
      assert items[0 := e][1..] == items[1..];
    } else {
      assert items[i := e][1..] == items[1..][i - 1 := e];
      ActiveCountUpdate(items[1..], i - 1, e, provider);
    }
  }

  lemma {:induction false} ActiveCountAppend(items: seq<DeliveryEnvelope>, e: DeliveryEnvelope, provider: string)
    ensures ActiveCount(items + [e], provider) == ActiveCount(items, provider) + (if Active(e, provider) then 1 else 0)
  {
    if items == [] {
      assert ([] + [e])[1..] == [];
    } else {
      assert (items + [e])[1..] == items[1..] + [e];
      ActiveCountAppend(items[1..], e, provider);
    }
  }

  /** A delivery of the provider that is neither finished nor given up. */
  ghost function LiveFor(provider: string): (p: DeliveryEnvelope -> bool) {
    (e: DeliveryEnvelope) => e.target.provider == provider && (e.status == Pending || e.status == Leased)
  }

  lemma {:induction false} ActiveCountIs(items: seq<DeliveryEnvelope>, provider: string)
    ensures ActiveCount(items, provider) == Count(items, LiveFor(provider))
  {
    if items != [] { ActiveCountIs(items[1..], provider); }
  }

  /** Storing an item costs its provider at most one place; moving an existing one costs nothing unless a
      finished delivery is revived or the provider changes. */
  lemma ActiveCountPut(items: seq<DeliveryEnvelope>, e: DeliveryEnvelope, provider: string)
    requires Distinct(items, DeliveryId)
    ensures ActiveCount(Put(items, DeliveryId, e), provider) <=
            ActiveCount(items, provider) + (if Active(e, provider) then 1 else 0)
    ensures e.deliveryId in View(items, DeliveryId)
            && (Active(e, provider) ==> Active(View(items, DeliveryId)[e.deliveryId], provider)) ==>
              ActiveCount(Put(items, DeliveryId, e), provider) <= ActiveCount(items, provider)
  {
    var i := Find(items, DeliveryId, e.deliveryId);
    ViewLookup(items, DeliveryId, e.deliveryId);
    if i < |items| { ActiveCountUpdate(items, i, e, provider); } else { ActiveCountAppend(items, e, provider); }
  }

  lemma ActiveCountsFall(items: seq<DeliveryEnvelope>, before: DeliveryEnvelope, e: DeliveryEnvelope)
    requires Distinct(items, DeliveryId) && e.deliveryId in View(items, DeliveryId)
             && View(items, DeliveryId)[e.deliveryId] == before
    requires forall p :: Active(e, p) ==> Active(before, p)
    ensures forall p :: ActiveCount(Put(items, DeliveryId, e), p) <= ActiveCount(items, p)
  {
    forall p ensures ActiveCount(Put(items, DeliveryId, e), p) <= ActiveCount(items, p) { ActiveCountPut(items, e, p); }
  }

  class InMemoryDeliveryOutbox {
    const maxDepth: Option<int>
    var items: seq<DeliveryEnvelope>
    var idempotencyIndex: map<string, string>
    var reportIndex: map<string, set<Fingerprint>>
    var leaseCounter: nat

    ghost predicate Valid()
      reads this
    {
      && Distinct(items, DeliveryId)
      && forall k :: k in idempotencyIndex ==> idempotencyIndex[k] in View(items, DeliveryId)
    }

    ghost function State(): (l: Ledger)
      reads this
    {
      Ledger(View(items, DeliveryId), reportIndex, leaseCounter)
    }

    constructor (maxDepth: Option<int>)
      ensures Valid() && Inv(State()) && State() == Ledger(map[], map[], 0)
      ensures idempotencyIndex == map[] && this.maxDepth == maxDepth
    {
      this.maxDepth := maxDepth;
      items, idempotencyIndex, reportIndex, leaseCounter := [], map[], map[], 0;
    }

    /** Repeating an idempotency key returns what the first call stored and changes nothing. */
    method Enqueue(envelope: DeliveryEnvelope) returns (r: Outcome<DeliveryEnvelope, OutboxError>)
      requires Valid()
      modifies this`items, this`idempotencyIndex
      ensures Valid()
      ensures r.Raised? ==> State() == old(State()) && idempotencyIndex == old(idempotencyIndex)
      ensures r == Raised(NoActionNotDeliverable) <==> envelope.action.NoAction?
      ensures r == Raised(IdempotencyKeyRequired) <==> !envelope.action.NoAction? && envelope.idempotencyKey == ""
      ensures envelope.idempotencyKey in old(idempotencyIndex) && r.Ok? ==>
                && State() == old(State()) && idempotencyIndex == old(idempotencyIndex)
                && r.value == old(State()).items[old(idempotencyIndex)[envelope.idempotencyKey]]
      ensures envelope.idempotencyKey !in old(idempotencyIndex) && r.Ok? ==>
                && State() == Next(old(State()), Store(envelope)) && r.value == envelope
                && idempotencyIndex == old(idempotencyIndex)[envelope.idempotencyKey := envelope.deliveryId]
      ensures r == Raised(DepthExceeded) <==>
                && !envelope.action.NoAction? && envelope.idempotencyKey != ""
                && envelope.idempotencyKey !in old(idempotencyIndex)
                && maxDepth.Some? && ActiveCount(old(items), envelope.target.provider) >= maxDepth.value
      ensures old(Inv(State())) && r.Ok? && envelope.idempotencyKey !in old(idempotencyIndex) ==>
                (Inv(State()) <==> Admissible(old(State()), envelope))
      ensures r.Ok? || r.error in {NoActionNotDeliverable, IdempotencyKeyRequired, DepthExceeded}
      ensures forall p :: maxDepth.Some? && ActiveCount(old(items), p) <= maxDepth.value ==>
                ActiveCount(items, p) <= maxDepth.value
    {
      if envelope.action.NoAction? { return Raised(NoActionNotDeliverable); }
      if envelope.idempotencyKey == "" { return Raised(IdempotencyKeyRequired); }
      if envelope.idempotencyKey in idempotencyIndex {
        var existing := Get(idempotencyIndex[envelope.idempotencyKey]);
        return existing;
      }
      var full := IsDepthExceeded(envelope.target.provider);
      if full { return Raised(DepthExceeded); }
      ViewPut(items, DeliveryId, envelope);
      if Inv(State()) { StoreKeepsInvIff(State(), envelope); }
      forall p ensures ActiveCount(Put(items, DeliveryId, envelope), p) <=
                       ActiveCount(items, p) + (if Active(envelope, p) then 1 else 0) {
        ActiveCountPut(items, envelope, p);
      }
      items := Put(items, DeliveryId, envelope);
      idempotencyIndex := idempotencyIndex[envelope.idempotencyKey := envelope.deliveryId];
      r := Ok(envelope);
    }

    method IsDepthExceeded(provider: string) returns (full: bool)
      ensures full <==> maxDepth.Some? && ActiveCount(items, provider) >= maxDepth.value
      ensures full <==> maxDepth.Some? && |Places(items, LiveFor(provider))| >= maxDepth.value
    {
      ActiveCountIs(items, provider);
      CountIs(items, LiveFor(provider));
      if maxDepth.None? { return false; }
      var n, i := 0, 0;
      while i < |items|
        invariant i <= |items|
        invariant n + ActiveCount(items[i..], provider) == ActiveCount(items, provider)
      {
        assert items[i..][1..] == items[i + 1..];
        if items[i].target.provider == provider && !items[i].status.Terminal() { n := n + 1; }
        i := i + 1;
      }
      full := n >= maxDepth.value;
    }

    method Get(deliveryId: string) returns (r: Outcome<DeliveryEnvelope, OutboxError>)
      requires Valid()
      ensures r == if deliveryId in State().items then Ok(State().items[deliveryId]) else Raised(DeliveryNotFound)
      ensures r.Ok? ==> r.value.deliveryId == deliveryId
    {
      ViewLookup(items, DeliveryId, deliveryId);
      var i := Find(items, DeliveryId, deliveryId);
      if i < |items| { r := Ok(items[i]); } else { r := Raised(DeliveryNotFound); }
    }

    /** Leases due deliveries of one provider, oldest first. */
    method LeaseDue(provider: string, now: Time, maxItems: int, leaseSeconds: real) returns (due: seq<DeliveryEnvelope>)
      requires Valid()
      modifies this`items, this`leaseCounter
      ensures Valid() && (old(Inv(State())) ==> Inv(State()))
      ensures Snapshot(old(State()), SortBy(old(items), EnvelopeLeq))
      ensures (State(), due) ==
              PollLoop(old(State()), SortBy(old(items), EnvelopeLeq), provider, now, maxItems, leaseSeconds, [])
      ensures forall p :: ActiveCount(items, p) <= ActiveCount(old(items), p)
    {
      var queue := SortBy(items, EnvelopeLeq);
      SnapshotOfSorted(items, State());
      due := [];
      var i := 0;
      while i < |queue| && |due| < maxItems
        invariant i <= |queue| && Valid() && (old(Inv(State())) ==> Inv(State())) && Snapshot(State(), queue[i..])
        invariant PollLoop(State(), queue[i..], provider, now, maxItems, leaseSeconds, due) ==
                  PollLoop(old(State()), queue, provider, now, maxItems, leaseSeconds, [])
        invariant forall p :: ActiveCount(items, p) <= ActiveCount(old(items), p)
        decreases |queue| - i
      {
        ghost var rest := queue[i..];
        assert rest[0] == queue[i] && rest[1..] == queue[i + 1..];
        ghost var l1, first := PollUnfold(State(), rest, provider, now, maxItems, leaseSeconds, due);
        var leased := PollOne(queue[i], provider, now, leaseSeconds);
        due := due + leased;
        i := i + 1;
      }
      assert i == |queue| ==> queue[i..] == [];
    }

    /** One pass of the polling loop: the lease, if one was granted. */
    method PollOne(item: DeliveryEnvelope, provider: string, now: Time, leaseSeconds: real)
      returns (leased: seq<DeliveryEnvelope>)
      requires Valid() && item.deliveryId in State().items && State().items[item.deliveryId] == item
      modifies this`items, this`leaseCounter
      ensures Valid() && (old(Inv(State())) ==> Inv(State()))
      ensures State() == Polled(old(State()), item, provider, now, leaseSeconds)
      ensures item.deliveryId in State().items
      ensures leased == if Grantable(item, provider, now) then [State().items[item.deliveryId]] else []
      ensures forall p :: ActiveCount(items, p) <= ActiveCount(old(items), p)
    {
      if Inv(State()) { PollKeepsInv(State(), Poll(item.deliveryId, now, leaseSeconds)); }
      leased := [];
      if item.target.provider == provider && IsDeliveryDue(item, now) {
        var one := LeaseItem(item, now, leaseSeconds);
        if one.status == Leased { leased := [one]; }
      }
    }

    /** Leases one due item, or gives it up when its attempts are used. */
    method LeaseItem(item: DeliveryEnvelope, now: Time, leaseSeconds: real) returns (leased: DeliveryEnvelope)
      requires Valid() && item.deliveryId in State().items && State().items[item.deliveryId] == item
      requires IsDeliveryDue(item, now)
      modifies this`items, this`leaseCounter
      ensures Valid()
      ensures State() == Next(old(State()), Poll(item.deliveryId, now, leaseSeconds))
      ensures leased == State().items[item.deliveryId]
      ensures forall p :: ActiveCount(items, p) <= ActiveCount(old(items), p)
    {
      if item.attempts >= item.maxAttempts {
        leased := FailExhaustedDelivery(item, now, "max_attempts_exceeded");
      } else {
        leaseCounter := leaseCounter + 1;
        leased := LeaseDelivery(item, LeaseName(leaseCounter), now, leaseSeconds, item.notBefore);
      }
      ViewPut(items, DeliveryId, leased);
      forall p ensures ActiveCount(Put(items, DeliveryId, leased), p) <= ActiveCount(items, p) {
        ActiveCountPut(items, leased, p);
      }
      items := Put(items, DeliveryId, leased);
    }

    /** Completes (no `retryAfter`) or releases (with one) a leased delivery. */
    method ReportTo(deliveryId: string, leaseId: Option<string>, result: ActionResult, at: Time,
                    retryAfter: Option<Time>)
      returns (r: Outcome<DeliveryEnvelope, OutboxError>)
      requires Valid()
      modifies this`items, this`reportIndex
      ensures Valid() && (old(Inv(State())) ==> Inv(State()))
      ensures State() == Next(old(State()), Report(deliveryId, leaseId, result, at, retryAfter))
      ensures r == match ReplyTo(old(State()), Report(deliveryId, leaseId, result, at, retryAfter)) {
                case Accepted(item) => Ok(item)
                case Repeated(item) => Ok(item)
                case NotFound => Raised(DeliveryNotFound)
                case Conflicting => Raised(ReportConflict)
                case Refused(cause) => Raised(ReportRefused(cause))
              }
      ensures forall p :: ActiveCount(items, p) <= ActiveCount(old(items), p)
    {
      var found := Get(deliveryId);
      if Inv(State()) { ReportKeepsInv(State(), Report(deliveryId, leaseId, result, at, retryAfter)); }
      if found.Raised? { return Raised(DeliveryNotFound); }
      var item := found.value;
      var current := FingerprintOf(deliveryId, leaseId, result);
      var history := if deliveryId in reportIndex then reportIndex[deliveryId] else {};
      match ClassifyReport(history, current)
      case Idempotent => r := Ok(item);
      case Conflict => r := Raised(ReportConflict);
      case New =>
        var moved := ReportItem(item, leaseId, result, at, retryAfter);
        if moved.Raised? { return Raised(ReportRefused(moved.error)); }
        RecordReport(item, moved.value, history, current);
        r := Ok(moved.value);
    }

    method RecordReport(item: DeliveryEnvelope, moved: DeliveryEnvelope, history: set<Fingerprint>,
                        current: Fingerprint)
      requires Valid() && item.deliveryId in State().items && State().items[item.deliveryId] == item
      requires moved.deliveryId == item.deliveryId && forall p :: Active(moved, p) ==> Active(item, p)
      modifies this`items, this`reportIndex
      ensures Valid()
      ensures State() == old(State()).(items := old(State()).items[item.deliveryId := moved],
                                       reports := old(reportIndex)[item.deliveryId := history + {current}])
      ensures forall p :: ActiveCount(items, p) <= ActiveCount(old(items), p)
    {
      ViewPut(items, DeliveryId, moved);
      ActiveCountsFall(items, item, moved);
      items := Put(items, DeliveryId, moved);
      reportIndex := reportIndex[item.deliveryId := history + {current}];
    }
  }
}
