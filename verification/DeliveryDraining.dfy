/** Repeated polling without any report: every delivery of a provider comes to an end. */
module DeliveryDraining {
  import opened Prelude
  import opened Ordering
  import opened KeyedSeq
  import opened DeliveryTransitions
  import opened DeliveryLedger
  import opened DeliveryOutbox

  /** The queue holds every delivery of the ledger once. */
  ghost predicate Complete(l: Ledger, queue: seq<DeliveryEnvelope>) {
    && Snapshot(l, queue)
    && forall d :: d in l.items ==> exists i :: 0 <= i < |queue| && queue[i].deliveryId == d
  }

  /** One poll of all eligible deliveries of a provider. */
  ghost predicate PollRound(l: Ledger, after: Ledger, provider: string, now: Time, leaseSeconds: real) {
    exists queue :: Complete(l, queue) && after == PollAll(l, queue, provider, now, leaseSeconds)
  }

  lemma {:induction false} CutAll(queue: seq<DeliveryEnvelope>, provider: string, now: Time, room: int)
    requires room >= |queue|
    ensures Cut(queue, provider, now, room) == |queue|
  {
    if queue != [] { CutAll(queue[1..], provider, now, if Grantable(queue[0], provider, now) then room - 1 else room); }
  }

  lemma {:induction false} FullPoll(
    l: Ledger, queue: seq<DeliveryEnvelope>, provider: string, now: Time, maxItems: int, leaseSeconds: real)
    requires Complete(l, queue) && maxItems >= |queue|
    ensures PollRound(l, PollLoop(l, queue, provider, now, maxItems, leaseSeconds, []).0, provider, now, leaseSeconds)
  {
    PollServesInOrder(l, queue, provider, now, maxItems, leaseSeconds, []);
    CutAll(queue, provider, now, maxItems);
    assert queue[..|queue|] == queue;
    var after := PollLoop(l, queue, provider, now, maxItems, leaseSeconds, []).0;
    assert after == PollAll(l, queue, provider, now, leaseSeconds);
  }

  lemma SortedComplete(items: seq<DeliveryEnvelope>, l: Ledger)
    requires Distinct(items, DeliveryId) && l.items == View(items, DeliveryId)
    ensures Complete(l, SortBy(items, EnvelopeLeq))
  {
    var queue := SortBy(items, EnvelopeLeq);
    SnapshotOfSorted(items, l);
    forall d | d in l.items ensures exists i :: 0 <= i < |queue| && queue[i].deliveryId == d {
      var i :| 0 <= i < |queue| && queue[i] == l.items[d];
    }
  }

  /** What `LeaseDue` does with room for everything is such a round. */
  lemma {:induction false} FullPollIsRound(
    items: seq<DeliveryEnvelope>, l: Ledger, provider: string, now: Time, maxItems: int, leaseSeconds: real)
    requires Distinct(items, DeliveryId) && l.items == View(items, DeliveryId) && maxItems >= |items|
    ensures var queue := SortBy(items, EnvelopeLeq);
            && Snapshot(l, queue)
            && (var after := PollLoop(l, queue, provider, now, maxItems, leaseSeconds, []).0;
                PollRound(l, after, provider, now, leaseSeconds))
  {
    SortedComplete(items, l);
    SortByPermutes(items, EnvelopeLeq);
    FullPoll(l, SortBy(items, EnvelopeLeq), provider, now, maxItems, leaseSeconds);
  }

  /** A round polls a delivery of its provider, under some lease id, and leaves all others alone. */
  lemma RoundItem(l: Ledger, after: Ledger, provider: string, now: Time, leaseSeconds: real, d: string)
    returns (id: string)
    requires PollRound(l, after, provider, now, leaseSeconds) && d in l.items
    ensures d in after.items
    ensures after.items[d] ==
            if Eligible(l.items[d], provider, now) then PollItem(l.items[d], now, id, leaseSeconds) else l.items[d]
  {
    var queue: seq<DeliveryEnvelope> :| Complete(l, queue) && after == PollAll(l, queue, provider, now, leaseSeconds);
    var i :| 0 <= i < |queue| && queue[i].deliveryId == d;
    id := PollAllPointwise(l, queue, provider, now, leaseSeconds, i);
  }

  /** Rounds at times far enough apart for every lease to run out in between. */
  ghost predicate Rounds(ls: seq<Ledger>, times: seq<Time>, provider: string, leaseSeconds: real) {
    && |ls| == |times| + 1
    && (forall k :: 0 <= k < |times| ==> PollRound(ls[k], ls[k + 1], provider, times[k], leaseSeconds))
    && (forall k :: 0 <= k < |times| - 1 ==> times[k] <= times[k + 1] && times[k] + leaseSeconds <= times[k + 1])
  }

  /** After `k` rounds a delivery that was due at the first is finished, or has used `k` more attempts and is due at
      the next. */
  lemma {:induction false} AfterRounds(
    ls: seq<Ledger>, times: seq<Time>, provider: string, leaseSeconds: real, d: string, k: nat)
    requires Rounds(ls, times, provider, leaseSeconds) && k <= |times| && d in ls[0].items
    requires var item := ls[0].items[d];
             && WellFormed(item) && item.target.provider == provider
             && (item.status.Terminal() || (times != [] && IsDeliveryDue(item, times[0])))
    ensures d in ls[k].items
    ensures var first, item := ls[0].items[d], ls[k].items[d];
            && WellFormed(item) && SameIdentity(first, item)
            && (item.status.Terminal() ||
                (item.attempts == first.attempts + k && (k < |times| ==> IsDeliveryDue(item, times[k]))))
  {
    if k > 0 {
      AfterRounds(ls, times, provider, leaseSeconds, d, k - 1);
      assert PollRound(ls[k - 1], ls[k - 1 + 1], provider, times[k - 1], leaseSeconds);
      var id := RoundItem(ls[k - 1], ls[k], provider, times[k - 1], leaseSeconds, d);
      PollEffect(ls[k - 1].items[d], times[k - 1], id, leaseSeconds);
      if k < |times| { assert times[k - 1] <= times[k - 1 + 1] && times[k - 1] + leaseSeconds <= times[k - 1 + 1]; }
    }
  }

  /** Without any report, `maxAttempts - attempts + 1` rounds finish every delivery of the provider that was due at the
      first. */
  lemma {:induction false} ProviderDrains(
    ls: seq<Ledger>, times: seq<Time>, provider: string, leaseSeconds: real, d: string)
    requires Rounds(ls, times, provider, leaseSeconds) && d in ls[0].items
    requires var item := ls[0].items[d];
             && WellFormed(item) && item.target.provider == provider
             && (item.status.Terminal() || (times != [] && IsDeliveryDue(item, times[0])))
             && |times| > item.maxAttempts - item.attempts
    ensures d in ls[|times|].items && ls[|times|].items[d].status.Terminal()
  {
    AfterRounds(ls, times, provider, leaseSeconds, d, |times|);
  }
}
