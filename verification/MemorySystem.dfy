/** The store, the write step, the rebuilder and retrieval over whole runs. */
module MemorySystem {
  import opened Prelude
  import opened KeyedSeq
  import opened MemoryContracts
  import opened VectorIndex
  import opened VectorRebuilder
  import opened MemoryWrite
  import opened Ranking
  import HybridRetrieval

  /** A write step, a change of one stored record behind the index's back (`update`, `archive`), or a rebuild. */
  datatype Op = Candidates(cs: seq<MemoryCandidate>) | Edit(record: MemoryRecord) | Rebuild(removeOrphans: bool)

  /** The step's configuration with its embedding model, which is taken to keep its contract. */
  ghost predicate Configured(cfg: Config) { cfg.embedding.Some? && Sound(cfg.embedding.value) }

  ghost predicate Synced(e: Effect, cfg: Config)
    requires Configured(cfg)
  {
    Mirrors(e.store, e.index, cfg.embedding.value, cfg.digest)
  }

  function Next(e: Effect, op: Op, cfg: Config): (r: Effect)
    requires cfg.embedding.Some?
  {
    match op
    case Candidates(cs) => RunStep(e, cs, cfg)
    case Edit(record) => e.(store := Put(e.store, RecordId, record))
    case Rebuild(removeOrphans) =>
      e.(index := Rebuilt(e.index, e.store, cfg.embedding.value, cfg.digest, removeOrphans))
  }

  function Run(e: Effect, ops: seq<Op>, cfg: Config): (r: Effect)
    requires cfg.embedding.Some?
    decreases |ops|
  {
    if ops == [] then e else Run(Next(e, ops[0], cfg), ops[1..], cfg)
  }

  /** Ids are distinct on both sides, and store and entries come from the records in `seen`. */
  ghost predicate Inv(e: Effect, cfg: Config, seen: set<MemoryRecord>)
    requires Configured(cfg)
  {
    && Distinct(e.store, RecordId) && Distinct(e.index, EntryId)
    && Known(e.store, seen) && WellBuilt(e.index, cfg.embedding.value, cfg.digest, seen)
  }

  /** The records an operation brings in. */
  function Brought(op: Op, cfg: Config): (rs: seq<MemoryRecord>) {
    match op
    case Candidates(cs) => Written(cs, cfg)
    case Edit(record) => [record]
    case Rebuild(_) => []
  }

  ghost predicate AllKnown(ops: seq<Op>, cfg: Config, seen: set<MemoryRecord>) {
    forall i :: 0 <= i < |ops| ==> Known(Brought(ops[i], cfg), seen)
  }

  /** What a run brings in. */
  function AllBrought(ops: seq<Op>, cfg: Config): (rs: seq<MemoryRecord>) {
    if ops == [] then [] else Brought(ops[0], cfg) + AllBrought(ops[1..], cfg)
  }

  lemma {:induction false} BroughtKnown(ops: seq<Op>, cfg: Config, seen: set<MemoryRecord>)
    requires Known(AllBrought(ops, cfg), seen)
    ensures AllKnown(ops, cfg, seen)
  {
    if ops != [] {
      assert forall r :: r in Brought(ops[0], cfg) || r in AllBrought(ops[1..], cfg) ==> r in AllBrought(ops, cfg);
      BroughtKnown(ops[1..], cfg, seen);
      assert ops == [ops[0]] + ops[1..];
    }
  }

  lemma {:induction false} WrittenIgnoresDigest(cs: seq<MemoryCandidate>, cfg: Config, digest: Digest)
    requires Configured(cfg)
    ensures Written(cs, cfg.(digest := digest)) == Written(cs, cfg)
  {
    if cs != [] { WrittenIgnoresDigest(cs[1..], cfg, digest); }
  }

  lemma {:induction false} BroughtIgnoresDigest(ops: seq<Op>, cfg: Config, digest: Digest)
    requires Configured(cfg)
    ensures AllBrought(ops, cfg.(digest := digest)) == AllBrought(ops, cfg)
  {
    if ops != [] {
      if ops[0].Candidates? { WrittenIgnoresDigest(ops[0].cs, cfg, digest); }
      BroughtIgnoresDigest(ops[1..], cfg, digest);
    }
  }

  /** The hypotheses of the laws below can always be met: for every run from the empty system there is a digest that
      tells apart all records of the run. */
  lemma HypothesesMet(ops: seq<Op>, base: Config) returns (cfg: Config, seen: set<MemoryRecord>)
    requires Configured(base)
    ensures cfg == base.(digest := cfg.digest) && Configured(cfg) && InjectiveOn(cfg.digest, seen)
    ensures Inv(Effect([], []), cfg, seen) && AllKnown(ops, cfg, seen)
  {
    seen := set r | r in AllBrought(ops, base);
    var digest := DigestExists(seen);
    cfg := base.(digest := digest);
    BroughtIgnoresDigest(ops, base, digest);
    BroughtKnown(ops, cfg, seen);
  }

  /** And a sound model exists. */
  lemma SoundModelExists() returns (m: Embedding)
    ensures Sound(m)
  {
    m := Embedding("p", "m", 1, (_: string) => [1.0], (ts: seq<string>) => seq(|ts|, _ => [1.0]));
  }

  lemma {:induction false} IndexedBuilt(rs: seq<MemoryRecord>, cfg: Config, e: VectorEntry)
    requires Configured(cfg) && e in Indexed(rs, cfg)
    ensures exists r :: r in rs && BuiltFrom(e, r, cfg.embedding.value, cfg.digest)
  {
    if IndexFailure(rs[0], cfg).None? && e == EntryOf(rs[0], cfg.embedding.value, cfg.digest) {
      assert BuiltFrom(e, rs[0], cfg.embedding.value, cfg.digest);
    } else {
      IndexedBuilt(rs[1..], cfg, e);
      var r :| r in rs[1..] && BuiltFrom(e, r, cfg.embedding.value, cfg.digest);
      assert r in rs;
    }
  }

  lemma WriteKeepsInv(e: Effect, cs: seq<MemoryCandidate>, cfg: Config, seen: set<MemoryRecord>)
    requires Configured(cfg) && Inv(e, cfg, seen) && Known(Written(cs, cfg), seen)
    ensures Inv(RunStep(e, cs, cfg), cfg, seen)
  {
    var after, rs := RunStep(e, cs, cfg), Written(cs, cfg);
    RunTwice(e, cs, cfg);
    forall r | r in after.store ensures r in seen { PutAllMembers(e.store, RecordId, rs, r); }
    forall x | x in after.index ensures exists r :: r in seen && BuiltFrom(x, r, cfg.embedding.value, cfg.digest) {
      PutAllMembers(e.index, EntryId, Indexed(rs, cfg), x);
      if x in Indexed(rs, cfg) { IndexedBuilt(rs, cfg, x); }
    }
  }

  lemma RebuiltBuilt(e: Effect, removeOrphans: bool, cfg: Config, seen: set<MemoryRecord>, x: VectorEntry)
    requires Configured(cfg) && Inv(e, cfg, seen)
    requires x in Rebuilt(e.index, e.store, cfg.embedding.value, cfg.digest, removeOrphans)
    ensures exists r :: r in seen && BuiltFrom(x, r, cfg.embedding.value, cfg.digest)
  {
    var m, digest := cfg.embedding.value, cfg.digest;
    var outdated := Outdated(e.index, e.store, m, digest);
    var es := EntriesOf(outdated, m, digest);
    KeepIdsMembers(PutAll(e.index, EntryId, es), IdsOf(e.store));
    PutAllMembers(e.index, EntryId, es, x);
    if x !in e.index {
      var i :| 0 <= i < |es| && es[i] == x;
      assert outdated[i] in outdated && BuiltFrom(x, outdated[i], m, digest);
    }
  }

  lemma RebuildKeepsInv(e: Effect, removeOrphans: bool, cfg: Config, seen: set<MemoryRecord>)
    requires Configured(cfg) && Inv(e, cfg, seen)
    ensures Inv(Next(e, Rebuild(removeOrphans), cfg), cfg, seen)
  {
    var m, digest := cfg.embedding.value, cfg.digest;
    var written := PutAll(e.index, EntryId, EntriesOf(Outdated(e.index, e.store, m, digest), m, digest));
    PutAllSpec(e.index, EntryId, EntriesOf(Outdated(e.index, e.store, m, digest), m, digest), "");
    KeepIdsDistinct(written, IdsOf(e.store));
    forall x | x in Next(e, Rebuild(removeOrphans), cfg).index
      ensures exists r :: r in seen && BuiltFrom(x, r, m, digest)
    {
      RebuiltBuilt(e, removeOrphans, cfg, seen, x);
    }
  }

  lemma EditKeepsInv(e: Effect, record: MemoryRecord, cfg: Config, seen: set<MemoryRecord>)
    requires Configured(cfg) && Inv(e, cfg, seen) && record in seen
    ensures Inv(Next(e, Edit(record), cfg), cfg, seen)
  {
    PutSpec(e.store, RecordId, record, record.id);
  }

  lemma NextKeepsInv(e: Effect, op: Op, cfg: Config, seen: set<MemoryRecord>)
    requires Configured(cfg) && Inv(e, cfg, seen) && Known(Brought(op, cfg), seen)
    ensures Inv(Next(e, op, cfg), cfg, seen)
  {
    match op
    case Candidates(cs) => WriteKeepsInv(e, cs, cfg, seen);
    case Edit(record) =>
      assert record in Brought(op, cfg);
      EditKeepsInv(e, record, cfg, seen);
    case Rebuild(removeOrphans) => RebuildKeepsInv(e, removeOrphans, cfg, seen);
  }

  lemma {:induction false} RunKeepsInv(e: Effect, ops: seq<Op>, cfg: Config, seen: set<MemoryRecord>)
    requires Configured(cfg) && Inv(e, cfg, seen) && AllKnown(ops, cfg, seen)
    ensures Inv(Run(e, ops, cfg), cfg, seen)
    decreases |ops|
  {
    if ops != [] {
      NextKeepsInv(e, ops[0], cfg, seen);
      RunKeepsInv(Next(e, ops[0], cfg), ops[1..], cfg, seen);
    }
  }

  lemma DistinctConsistent(rs: seq<MemoryRecord>)
    requires Distinct(rs, RecordId)
    ensures Consistent(rs)
  {
    forall a, b | a in rs && b in rs && a.id == b.id ensures a == b {
      var i :| 0 <= i < |rs| && rs[i] == a;
      var j :| 0 <= j < |rs| && rs[j] == b;
      LookupOfDistinct(rs, RecordId, i);
      LookupOfDistinct(rs, RecordId, j);
    }
  }

  lemma {:induction false} NothingOutdated(entries: seq<VectorEntry>, rs: seq<MemoryRecord>, m: Embedding,
                                           digest: Digest)
    requires forall r :: r in rs ==> Classify(entries, r, m, digest) == Unchanged
    ensures Outdated(entries, rs, m, digest) == []
  {
    if rs != [] {
      assert rs[0] in rs;
      NothingOutdated(entries, rs[1..], m, digest);
    }
  }

  lemma SyncedUnchanged(e: Effect, cfg: Config)
    requires Configured(cfg) && Distinct(e.store, RecordId) && Synced(e, cfg)
    ensures Outdated(e.index, e.store, cfg.embedding.value, cfg.digest) == []
  {
    var m, digest := cfg.embedding.value, cfg.digest;
    forall r | r in e.store ensures Classify(e.index, r, m, digest) == Unchanged {
      var i :| 0 <= i < |e.store| && e.store[i] == r;
      LookupOfDistinct(e.store, RecordId, i);
      assert Lookup(e.index, EntryId, r.id) == Some(EntryOf(r, m, digest));
    }
    NothingOutdated(e.index, e.store, m, digest);
  }

  lemma SyncedHasNoOrphans(e: Effect, cfg: Config)
    requires Configured(cfg) && Synced(e, cfg)
    ensures KeepIds(e.index, IdsOf(e.store)) == e.index
  {
    forall x | x in e.index ensures x.memoryId in IdsOf(e.store) {
      assert Lookup(e.index, EntryId, x.memoryId).Some?;
      assert Lookup(e.store, RecordId, x.memoryId).Some?;
    }
    KeepAll(e.index, IdsOf(e.store));
  }

  /** On a synchronised index a rebuild of either kind changes nothing. */
  lemma SyncedRebuild(e: Effect, removeOrphans: bool, cfg: Config)
    requires Configured(cfg) && Distinct(e.store, RecordId) && Synced(e, cfg)
    ensures Next(e, Rebuild(removeOrphans), cfg) == e
  {
    SyncedUnchanged(e, cfg);
    SyncedHasNoOrphans(e, cfg);
    RebuiltAsIs(e.index, e.store, cfg.embedding.value, cfg.digest, removeOrphans);
  }

  lemma RebuiltAsIs(entries: seq<VectorEntry>, rs: seq<MemoryRecord>, m: Embedding, digest: Digest, removeOrphans: bool)
    requires Outdated(entries, rs, m, digest) == [] && KeepIds(entries, IdsOf(rs)) == entries
    ensures Rebuilt(entries, rs, m, digest, removeOrphans) == entries
  {
    assert EntriesOf([], m, digest) == [];
    assert PutAll(entries, EntryId, []) == entries;
  }

  lemma {:induction false} StaysSynced(e: Effect, ops: seq<Op>, cfg: Config)
    requires Configured(cfg) && Distinct(e.store, RecordId) && Synced(e, cfg)
    requires forall i :: 0 <= i < |ops| ==> !ops[i].Edit?
    ensures Synced(Run(e, ops, cfg), cfg)
    decreases |ops|
  {
    if ops != [] {
      match ops[0]
      case Candidates(cs) =>
        RunTwice(e, cs, cfg);
        WriteKeepsMirror(e, cs, cfg);
        StaysSynced(Next(e, ops[0], cfg), ops[1..], cfg);
      case Rebuild(removeOrphans) =>
        SyncedRebuild(e, removeOrphans, cfg);
        StaysSynced(e, ops[1..], cfg);
    }
  }

  lemma {:induction false} RunConcat(e: Effect, a: seq<Op>, b: seq<Op>, cfg: Config)
    requires cfg.embedding.Some?
    ensures Run(e, a + b, cfg) == Run(Run(e, a, cfg), b, cfg)
    decreases |a|
  {
    if a == [] {
      assert a + b == b;
    } else {
      assert (a + b)[1..] == a[1..] + b;
      RunConcat(Next(e, a[0], cfg), a[1..], b, cfg);
    }
  }

  /** Whatever happened before, from a rebuild with orphan removal on the index mirrors the store for as long as
      records are only changed through the write step; further rebuilds do not matter. */
  lemma RebuildSynchronisesForGood(e: Effect, before: seq<Op>, after: seq<Op>, cfg: Config, seen: set<MemoryRecord>)
    requires Configured(cfg) && InjectiveOn(cfg.digest, seen)
    requires Inv(e, cfg, seen) && AllKnown(before, cfg, seen)
    requires forall i :: 0 <= i < |after| ==> !after[i].Edit?
    ensures Synced(Run(e, before + [Rebuild(true)] + after, cfg), cfg)
  {
    var reached := Run(e, before, cfg);
    RunKeepsInv(e, before, cfg, seen);
    DistinctConsistent(reached.store);
    RebuildMirrorsStore(reached.index, reached.store, cfg.embedding.value, cfg.digest, seen);
    StaysSynced(Next(reached, Rebuild(true), cfg), after, cfg);
    RunConcat(e, before + [Rebuild(true)], after, cfg);
    RunConcat(e, before, [Rebuild(true)], cfg);
    assert [Rebuild(true)][1..] == [];
    assert Run(reached, [Rebuild(true)], cfg) == Next(reached, Rebuild(true), cfg);
  }

  /** Editing a record behind a synchronised index leaves it synchronised exactly when nothing is changed. */
  lemma EditKeepsSyncedIff(e: Effect, record: MemoryRecord, cfg: Config, seen: set<MemoryRecord>)
    requires Configured(cfg) && InjectiveOn(cfg.digest, seen) && Known(e.store, seen) && record in seen
             && Synced(e, cfg)
    ensures Synced(Next(e, Edit(record), cfg), cfg) <==> Lookup(e.store, RecordId, record.id) == Some(record)
  {
    var after, m, digest := Next(e, Edit(record), cfg), cfg.embedding.value, cfg.digest;
    forall id
      ensures Lookup(after.store, RecordId, id) ==
              if record.id == id then Some(record) else Lookup(e.store, RecordId, id)
    {
      PutSpec(e.store, RecordId, record, id);
    }
    if Synced(after, cfg) {
      assert MirrorOf(Some(record), m, digest) == MirrorOf(Lookup(e.store, RecordId, record.id), m, digest);
    }
  }

  /** So in every such run vector search succeeds and retrieval loses no hit on the way through the store, and every
      hit is a matching record under its own similarity to the query. */
  lemma SearchExactAfterRebuild(e: Effect, before: seq<Op>, after: seq<Op>, cfg: Config, seen: set<MemoryRecord>,
                                cosine: Cosine, limit: int, q: MemoryQuery)
    requires Configured(cfg) && InjectiveOn(cfg.digest, seen)
    requires Inv(e, cfg, seen) && AllKnown(before, cfg, seen)
    requires forall i :: 0 <= i < |after| ==> !after[i].Edit?
    ensures var now, m := Run(e, before + [Rebuild(true)] + after, cfg), cfg.embedding.value;
            var raw := IndexSearch(now.index, m.embed(q.text), limit, Some(FilterOf(q)), cosine);
            raw.Ok? && ResolvesExactly(raw.value, now.store, m, cosine, q)
  {
    var now := Run(e, before + [Rebuild(true)] + after, cfg);
    RebuildSynchronisesForGood(e, before, after, cfg, seen);
    SyncedComparable(now, cfg, q);
    HybridRetrieval.VectorSideExact(now.store, now.index, cfg.embedding.value, cfg.digest, cosine, limit, q);
  }

  lemma {:induction false} RunKeepsDistinct(e: Effect, ops: seq<Op>, cfg: Config)
    requires cfg.embedding.Some? && Distinct(e.store, RecordId)
    ensures Distinct(Run(e, ops, cfg).store, RecordId)
    decreases |ops|
  {
    if ops != [] {
      if ops[0].Candidates? { RunTwice(e, ops[0].cs, cfg); }
      if ops[0].Edit? { PutSpec(e.store, RecordId, ops[0].record, ops[0].record.id); }
      RunKeepsDistinct(Next(e, ops[0], cfg), ops[1..], cfg);
    }
  }

  /** And it misses nothing: a matching record that is not among the vector results means there are `limit` of them,
      none further from the query. */
  lemma {:induction false} SearchMissesNothingAfterRebuild(
    e: Effect, before: seq<Op>, after: seq<Op>, cfg: Config, seen: set<MemoryRecord>, cosine: Cosine, limit: int,
    q: MemoryQuery, y: MemoryRecord)
    requires Configured(cfg) && InjectiveOn(cfg.digest, seen)
    requires Inv(e, cfg, seen) && AllKnown(before, cfg, seen)
    requires forall i :: 0 <= i < |after| ==> !after[i].Edit?
    ensures var now, m := Run(e, before + [Rebuild(true)] + after, cfg), cfg.embedding.value;
            var raw := IndexSearch(now.index, m.embed(q.text), limit, Some(FilterOf(q)), cosine);
            && raw.Ok?
            && (y in now.store && MatchesQuery(y, q) ==> ListsBest(raw.value, now.store, m, cosine, limit, q, y))
  {
    var now, m := Run(e, before + [Rebuild(true)] + after, cfg), cfg.embedding.value;
    RebuildSynchronisesForGood(e, before, after, cfg, seen);
    SyncedComparable(now, cfg, q);
    RunKeepsDistinct(e, before + [Rebuild(true)] + after, cfg);
    if y in now.store && MatchesQuery(y, q) {
      HybridRetrieval.VectorSideMissesNothing(now.store, now.index, m, cfg.digest, cosine, limit, q, y);
    }
  }

  /** The record is among the resolved hits, or they are `limit` in number and none is further from the query. */
  ghost predicate ListsBest(raw: seq<VectorHit>, store: seq<MemoryRecord>, m: Embedding, cosine: Cosine, limit: int,
                            q: MemoryQuery, y: MemoryRecord) {
    var r := HybridRetrieval.Resolve(raw, store, q);
    || (exists j :: 0 <= j < |r| && r[j].record == y)
    || (|r| == Cap(limit) && forall i :: 0 <= i < |r| ==> cosine(m.embed(q.text), m.embed(y.text)) <= r[i].score)
  }

  /** Every hit resolves, to a matching stored record under its own similarity to the query. */
  ghost predicate ResolvesExactly(raw: seq<VectorHit>, store: seq<MemoryRecord>, m: Embedding, cosine: Cosine,
                                  q: MemoryQuery) {
    var r := HybridRetrieval.Resolve(raw, store, q);
    && |r| == |raw|
    && (forall i :: 0 <= i < |r| ==>
          && r[i].record.id == raw[i].memoryId && r[i].record in store && MatchesQuery(r[i].record, q)
          && r[i].score == cosine(m.embed(q.text), m.embed(r[i].record.text)))
  }

  /** A synchronised index holds only vectors of the model's dimension, so a search cannot fail. */
  lemma SyncedComparable(e: Effect, cfg: Config, q: MemoryQuery)
    requires Configured(cfg) && Synced(e, cfg)
    ensures cfg.embedding.value.embed(q.text) != []
            && Comparable(e.index, cfg.embedding.value.embed(q.text), Some(FilterOf(q)))
  {
    forall x | x in e.index ensures |x.vector| == cfg.embedding.value.dimension {
      LookupOfMember(e.index, x);
    }
  }

  lemma LookupOfMember(entries: seq<VectorEntry>, x: VectorEntry)
    requires Distinct(entries, EntryId) && x in entries
    ensures Lookup(entries, EntryId, x.memoryId) == Some(x)
  {
    var i :| 0 <= i < |entries| && entries[i] == x;
    LookupOfDistinct(entries, EntryId, i);
  }
}
