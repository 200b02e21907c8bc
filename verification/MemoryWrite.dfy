/** The memory write step (iris/cognitive/memory/write.py): candidates into the store, then the index. */
module MemoryWrite {
  import opened Prelude
  import opened Ordering
  import opened Counting
  import opened KeyedSeq
  import opened MemoryContracts
  import MemoryStore
  import opened VectorIndex

  datatype MemoryCandidate = MemoryCandidate(
    text: string,
    kind: MemoryKind,
    salience: real,
    confidence: real,
    source: string,
    reason: Option<string>,
    retentionPolicy: string,
    sensitivity: string,
    reviewRequired: bool,
    actorId: Option<string>,
    spaceId: Option<string>,
    sourceObservationId: Option<string>,
    metadata: map<string, string>)

  /** What the step is configured with. `normalize` strips and casefolds, `hash` is the shortened SHA-256,
      `accept` the write policy; `embedding` is present when a vector index is attached. */
  datatype Config = Config(
    accept: MemoryCandidate -> bool,
    normalize: string -> string,
    hash: string -> string,
    digest: MemoryRecord -> string,
    embedding: Option<Embedding>,
    failOpen: bool)

  /** What the hash is taken of. */
  function Content(c: MemoryCandidate, cfg: Config): (s: string) {
    OrEmpty(c.actorId) + ":" + OrEmpty(c.spaceId) + ":" + KindName(c.kind) + ":" + cfg.normalize(c.text)
  }

  function GenerateMemoryId(c: MemoryCandidate, cfg: Config): (id: string) {
    "memory:" + cfg.hash(Content(c, cfg))
  }

  function SetDefault(m: map<string, string>, k: string, v: string): (r: map<string, string>) {
    if k in m then m else m[k := v]
  }

  function CandidateMetadata(c: MemoryCandidate): (r: map<string, string>) {
    var m1 := SetDefault(c.metadata, "candidate_source", c.source);
    var m2 := SetDefault(m1, "retention_policy", c.retentionPolicy);
    var m3 := SetDefault(m2, "sensitivity", c.sensitivity);
    var m4 := SetDefault(m3, "review_required", if c.reviewRequired then "true" else "false");
    if c.reason.Some? then SetDefault(m4, "reason", c.reason.value) else m4
  }

  /** Provenance is added without overwriting what the candidate already says. */
  lemma MetadataKeepsExisting(c: MemoryCandidate, k: string)
    ensures k in c.metadata ==> k in CandidateMetadata(c) && CandidateMetadata(c)[k] == c.metadata[k]
    ensures {"candidate_source", "retention_policy", "sensitivity", "review_required"} <= CandidateMetadata(c).Keys
    ensures "reason" in CandidateMetadata(c) <==> c.reason.Some? || "reason" in c.metadata
  {
  }

  /** What is added under a name of its own, and that nothing else is. */
  lemma MetadataDefaults(c: MemoryCandidate, k: string)
    requires k !in c.metadata && k in CandidateMetadata(c)
    ensures k in {"candidate_source", "retention_policy", "sensitivity", "review_required", "reason"}
    ensures CandidateMetadata(c)[k] ==
              if k == "candidate_source" then c.source
              else if k == "retention_policy" then c.retentionPolicy
              else if k == "sensitivity" then c.sensitivity
              else if k == "review_required" then (if c.reviewRequired then "true" else "false")
              else if c.reason.Some? then c.reason.value else ""
  {
  }

  predicate ColonFree(s: string) { forall i :: 0 <= i < |s| ==> s[i] != ':' }

  lemma SplitAtColon(a: string, x: string, b: string, y: string)
    requires ColonFree(a) && ColonFree(b) && a + ":" + x == b + ":" + y
    ensures a == b && x == y
  {
    var s, t := a + ":" + x, b + ":" + y;
    assert s[|a|] == ':' && t[|b|] == ':';
    assert (forall i :: 0 <= i < |a| ==> s[i] == a[i]) && (forall i :: 0 <= i < |b| ==> t[i] == b[i]);
    assert |a| == |b|;
    assert s[..|a|] == a && t[..|b|] == b && s[|a| + 1..] == x && t[|b| + 1..] == y;
  }

  lemma KindNames(j: MemoryKind, k: MemoryKind)
    ensures ColonFree(KindName(k)) && (KindName(j) == KindName(k) ==> j == k)
  {
    assert KindName(j) == KindName(k) ==> |KindName(j)| == |KindName(k)| && KindName(j)[0] == KindName(k)[0];
  }

  /** Under a hash that tells the two apart, candidates of colon-free actors and spaces share a memory id exactly when
      they agree in actor, space, kind and normalised text, a missing actor or space counting as the empty one. */
  lemma SameIdIff(c: MemoryCandidate, d: MemoryCandidate, cfg: Config)
    requires cfg.hash(Content(c, cfg)) == cfg.hash(Content(d, cfg)) ==> Content(c, cfg) == Content(d, cfg)
    requires ColonFree(OrEmpty(c.actorId)) && ColonFree(OrEmpty(c.spaceId))
    requires ColonFree(OrEmpty(d.actorId)) && ColonFree(OrEmpty(d.spaceId))
    ensures GenerateMemoryId(c, cfg) == GenerateMemoryId(d, cfg) <==>
            && OrEmpty(c.actorId) == OrEmpty(d.actorId) && OrEmpty(c.spaceId) == OrEmpty(d.spaceId)
            && c.kind == d.kind && cfg.normalize(c.text) == cfg.normalize(d.text)
  {
    KindNames(c.kind, d.kind);
    KindNames(d.kind, c.kind);
    if GenerateMemoryId(c, cfg) == GenerateMemoryId(d, cfg) {
      HashesAgree(cfg.hash(Content(c, cfg)), cfg.hash(Content(d, cfg)));
      PartsAgree(OrEmpty(c.actorId), OrEmpty(c.spaceId), KindName(c.kind), cfg.normalize(c.text),
                 OrEmpty(d.actorId), OrEmpty(d.spaceId), KindName(d.kind), cfg.normalize(d.text));
    }
  }

  lemma HashesAgree(h: string, k: string)
    requires "memory:" + h == "memory:" + k
    ensures h == k
  {
    assert ("memory:" + h)[7..] == h && ("memory:" + k)[7..] == k;
  }

  lemma PartsAgree(a: string, s: string, k: string, x: string, b: string, t: string, j: string, y: string)
    requires ColonFree(a) && ColonFree(s) && ColonFree(k) && ColonFree(b) && ColonFree(t) && ColonFree(j)
    requires a + ":" + s + ":" + k + ":" + x == b + ":" + t + ":" + j + ":" + y
    ensures a == b && s == t && k == j && x == y
  {
    var p, q := k + ":" + x, j + ":" + y;
    assert a + ":" + s + ":" + k + ":" + x == a + ":" + (s + ":" + p);
    assert b + ":" + t + ":" + j + ":" + y == b + ":" + (t + ":" + q);
    SplitAtColon(a, s + ":" + p, b, t + ":" + q);
    SplitAtColon(s, p, t, q);
    SplitAtColon(k, x, j, y);
  }

  /** With colons it fails, for every actor id that has one: another actor in some space shares the memory id of this
      actor without a space. */
  lemma ColonsCollide(x: string, cfg: Config) returns (c: MemoryCandidate, d: MemoryCandidate)
    requires !ColonFree(x)
    ensures c.actorId == Some(x) && c.spaceId == None && d.actorId.Some? && d.actorId != c.actorId
    ensures c.text == d.text && c.kind == d.kind && GenerateMemoryId(c, cfg) == GenerateMemoryId(d, cfg)
  {
    var i :| 0 <= i < |x| && x[i] == ':';
    c := MemoryCandidate("likes tea", Note, 0.5, 0.5, "user", None, "durable", "normal", false, Some(x), None, None,
                         map[]);
    d := c.(actorId := Some(x[..i]), spaceId := Some(x[i + 1..] + ":"));
    assert x == x[..i] + ":" + x[i + 1..];
    assert OrEmpty(c.actorId) + ":" + OrEmpty(c.spaceId) == OrEmpty(d.actorId) + ":" + OrEmpty(d.spaceId);
  }

  function RecordOf(c: MemoryCandidate, cfg: Config): (r: MemoryRecord) {
    MemoryRecord(GenerateMemoryId(c, cfg), c.text, c.actorId, c.spaceId, c.salience, c.kind, c.confidence,
                 c.sourceObservationId, None, None, false, CandidateMetadata(c))
  }

  /** The index refuses this record's entry. */
  function IndexFailure(r: MemoryRecord, cfg: Config): (e: Option<IndexError>) {
    if cfg.embedding.None? then None else UpsertError(EntryOf(r, cfg.embedding.value, cfg.digest))
  }

  /** The records the step writes: the accepted candidates, up to the first index failure unless failures
      are tolerated. */
  function Written(cs: seq<MemoryCandidate>, cfg: Config): (rs: seq<MemoryRecord>) {
    if cs == [] then []
    else if !cfg.accept(cs[0]) then Written(cs[1..], cfg)
    else
      var r := RecordOf(cs[0], cfg);
      if IndexFailure(r, cfg).Some? && !cfg.failOpen then [r] else [r] + Written(cs[1..], cfg)
  }

  function Failure(cs: seq<MemoryCandidate>, cfg: Config): (e: Option<IndexError>) {
    if cs == [] then None
    else if cfg.accept(cs[0]) && IndexFailure(RecordOf(cs[0], cfg), cfg).Some? && !cfg.failOpen
    then IndexFailure(RecordOf(cs[0], cfg), cfg)
    else Failure(cs[1..], cfg)
  }

  function Rejected(cs: seq<MemoryCandidate>, cfg: Config): (n: nat) {
    if cs == [] then 0 else (if cfg.accept(cs[0]) then 0 else 1) + Rejected(cs[1..], cfg)
  }

  /** The index entries written for `rs`. */
  function Indexed(rs: seq<MemoryRecord>, cfg: Config): (es: seq<VectorEntry>) {
    if rs == [] || cfg.embedding.None? then []
    else if IndexFailure(rs[0], cfg).Some? then Indexed(rs[1..], cfg)
    else [EntryOf(rs[0], cfg.embedding.value, cfg.digest)] + Indexed(rs[1..], cfg)
  }

  datatype Effect = Effect(store: seq<MemoryRecord>, index: seq<VectorEntry>)

  function RunStep(before: Effect, cs: seq<MemoryCandidate>, cfg: Config): (after: Effect) {
    Effect(PutAll(before.store, RecordId, Written(cs, cfg)),
           PutAll(before.index, EntryId, Indexed(Written(cs, cfg), cfg)))
  }

  /** Running the step twice on the same frame leaves exactly what one run leaves, in the same order, even
      when candidates share a generated id, the store holds repeated ids, entries are refused, or the run is cut
      short by a failure. */
  lemma RunTwice(before: Effect, cs: seq<MemoryCandidate>, cfg: Config)
    ensures RunStep(RunStep(before, cs, cfg), cs, cfg) == RunStep(before, cs, cfg)
    ensures Distinct(before.store, RecordId) ==> Distinct(RunStep(before, cs, cfg).store, RecordId)
    ensures Distinct(before.index, EntryId) ==> Distinct(RunStep(before, cs, cfg).index, EntryId)
  {
    PutAllIdempotent(before.store, RecordId, Written(cs, cfg));
    PutAllIdempotent(before.index, EntryId, Indexed(Written(cs, cfg), cfg));
    PutAllSpec(before.store, RecordId, Written(cs, cfg), "");
    PutAllSpec(before.index, EntryId, Indexed(Written(cs, cfg), cfg), "");
  }

  // ----- what a run of the step writes --------------------------------------------------------------

  /** Writing the candidate ends the run: it is accepted, failures are not tolerated and the index refuses its
      vector. */
  ghost predicate EndsRun(c: MemoryCandidate, cfg: Config) {
    && cfg.accept(c) && !cfg.failOpen && cfg.embedding.Some?
    && (cfg.embedding.value.embed(c.text) == [] || |cfg.embedding.value.embed(c.text)| != cfg.embedding.value.dimension)
  }

  /** The index takes the candidate's vector. */
  ghost predicate Indexable(c: MemoryCandidate, cfg: Config) {
    && cfg.embedding.Some? && cfg.embedding.value.embed(c.text) != []
    && |cfg.embedding.value.embed(c.text)| == cfg.embedding.value.dimension
  }

  /** The record holds what the candidate says, with no dates and not archived. */
  ghost predicate Holds(r: MemoryRecord, c: MemoryCandidate) {
    && r.text == c.text && r.actorId == c.actorId && r.spaceId == c.spaceId && r.salience == c.salience
    && r.kind == c.kind && r.confidence == c.confidence && r.sourceObservationId == c.sourceObservationId
    && r.createdAt.None? && r.updatedAt.None? && !r.archived && r.metadata == CandidateMetadata(c)
  }

  /** The last accepted candidate of that memory id among the first `n`. */
  ghost predicate Latest(cs: seq<MemoryCandidate>, n: nat, i: int, id: string, cfg: Config)
    requires n <= |cs|
  {
    && 0 <= i < n && cfg.accept(cs[i]) && GenerateMemoryId(cs[i], cfg) == id
    && forall j :: i < j < n && cfg.accept(cs[j]) ==> GenerateMemoryId(cs[j], cfg) != id
  }

  /** How far a run gets: to the first candidate that ends it, or to the end. */
  function Reached(cs: seq<MemoryCandidate>, cfg: Config): (n: nat)
    ensures n <= |cs|
  {
    if cs == [] then 0
    else if cfg.accept(cs[0]) && IndexFailure(RecordOf(cs[0], cfg), cfg).Some? && !cfg.failOpen then 1
    else 1 + Reached(cs[1..], cfg)
  }

  lemma {:induction false} ReachedIff(cs: seq<MemoryCandidate>, cfg: Config)
    ensures forall i :: 0 <= i < Reached(cs, cfg) - 1 ==> !EndsRun(cs[i], cfg)
    ensures Failure(cs, cfg).Some? <==> exists i :: 0 <= i < |cs| && EndsRun(cs[i], cfg)
    ensures Failure(cs, cfg).Some? ==> Reached(cs, cfg) > 0 && EndsRun(cs[Reached(cs, cfg) - 1], cfg)
    ensures Failure(cs, cfg).None? ==> Reached(cs, cfg) == |cs|
  {
    if cs != [] {
      ReachedIff(cs[1..], cfg);
      assert EndsRun(cs[0], cfg) <==>
             cfg.accept(cs[0]) && IndexFailure(RecordOf(cs[0], cfg), cfg).Some? && !cfg.failOpen;
      if i :| 0 <= i < |cs[1..]| && EndsRun(cs[1..][i], cfg) { assert EndsRun(cs[i + 1], cfg); }
      if i :| 1 <= i < |cs| && EndsRun(cs[i], cfg) { assert EndsRun(cs[1..][i - 1], cfg); }
    }
  }

  lemma {:induction false} LatestWritten(cs: seq<MemoryCandidate>, cfg: Config, id: string)
    ensures Last(Written(cs, cfg), RecordId, id).None? <==>
            forall i :: 0 <= i < Reached(cs, cfg) && cfg.accept(cs[i]) ==> GenerateMemoryId(cs[i], cfg) != id
    ensures forall i :: Latest(cs, Reached(cs, cfg), i, id, cfg) ==>
              Last(Written(cs, cfg), RecordId, id) == Some(RecordOf(cs[i], cfg))
  {
    if cs != [] {
      LatestWritten(cs[1..], cfg, id);
      var n := Reached(cs, cfg);
      if n > 1 { assert n - 1 == Reached(cs[1..], cfg); }
      WrittenTail(cs, cfg, id);
      forall i | Latest(cs, n, i, id, cfg) ensures Last(Written(cs, cfg), RecordId, id) == Some(RecordOf(cs[i], cfg)) {
        if i > 0 { assert Latest(cs[1..], n - 1, i - 1, id, cfg); }
      }
    }
  }

  lemma WrittenTail(cs: seq<MemoryCandidate>, cfg: Config, id: string)
    requires cs != []
    ensures var rest := if Reached(cs, cfg) == 1 && Written(cs, cfg) == [RecordOf(cs[0], cfg)] then None
                        else Last(Written(cs[1..], cfg), RecordId, id);
            Last(Written(cs, cfg), RecordId, id) ==
            if rest.Some? then rest
            else if cfg.accept(cs[0]) && GenerateMemoryId(cs[0], cfg) == id then Some(RecordOf(cs[0], cfg)) else None
  {
    if cfg.accept(cs[0]) {
      var r := RecordOf(cs[0], cfg);
      assert [r][1..] == [] && ([r] + Written(cs[1..], cfg))[1..] == Written(cs[1..], cfg);
    }
  }

  lemma {:induction false} LatestIndexed(rs: seq<MemoryRecord>, cfg: Config, id: string)
    requires cfg.embedding.Some?
    ensures Last(Indexed(rs, cfg), EntryId, id) ==
            match Last(Filter(rs, (r: MemoryRecord) => IndexFailure(r, cfg).None?), RecordId, id) {
              case Some(r) => Some(EntryOf(r, cfg.embedding.value, cfg.digest))
              case None => None
            }
  {
    if rs != [] {
      LatestIndexed(rs[1..], cfg, id);
      if IndexFailure(rs[0], cfg).None? {
        var ok := (r: MemoryRecord) => IndexFailure(r, cfg).None?;
        var e := EntryOf(rs[0], cfg.embedding.value, cfg.digest);
        assert ([e] + Indexed(rs[1..], cfg))[1..] == Indexed(rs[1..], cfg);
        assert ([rs[0]] + Filter(rs[1..], ok))[1..] == Filter(rs[1..], ok);
      }
    }
  }

  /** Under the memory id of an accepted candidate that the run gets to, the store holds what the last such candidate
      says. */
  lemma WriteStepStores(before: Effect, cs: seq<MemoryCandidate>, cfg: Config, id: string, i: int)
    requires Latest(cs, Reached(cs, cfg), i, id, cfg)
    ensures var r := Lookup(RunStep(before, cs, cfg).store, RecordId, id); r.Some? && Holds(r.value, cs[i])
  {
    LatestWritten(cs, cfg, id);
    PutAllSpec(before.store, RecordId, Written(cs, cfg), id);
  }

  /** Under every other id store and index keep what they had. */
  lemma WriteStepKeeps(before: Effect, cs: seq<MemoryCandidate>, cfg: Config, id: string)
    requires forall i :: 0 <= i < Reached(cs, cfg) && cfg.accept(cs[i]) ==> GenerateMemoryId(cs[i], cfg) != id
    ensures Lookup(RunStep(before, cs, cfg).store, RecordId, id) == Lookup(before.store, RecordId, id)
    ensures Lookup(RunStep(before, cs, cfg).index, EntryId, id) == Lookup(before.index, EntryId, id)
  {
    LatestWritten(cs, cfg, id);
    PutAllSpec(before.store, RecordId, Written(cs, cfg), id);
    PutAllSpec(before.index, EntryId, Indexed(Written(cs, cfg), cfg), id);
    if cfg.embedding.Some? { LatestIndexed(Written(cs, cfg), cfg, id); }
  }

  /** One id is reported per accepted candidate that the run gets to, and one rejection per candidate not accepted. */
  lemma WriteStepCounts(cs: seq<MemoryCandidate>, cfg: Config)
    ensures |WrittenIds(cs, cfg)| == |Places(cs[..Reached(cs, cfg)], cfg.accept)|
    ensures Rejected(cs, cfg) == |Places(cs, Unwanted(cfg))|
  {
    RejectedCounted(cs, cfg);
    CountIs(cs, Unwanted(cfg));
    WrittenCounted(cs, cfg);
    CountIs(cs[..Reached(cs, cfg)], cfg.accept);
  }

  function Unwanted(cfg: Config): (p: MemoryCandidate -> bool) { (c: MemoryCandidate) => !cfg.accept(c) }

  lemma {:induction false} RejectedCounted(cs: seq<MemoryCandidate>, cfg: Config)
    ensures Rejected(cs, cfg) == Count(cs, Unwanted(cfg))
  {
    if cs != [] { RejectedCounted(cs[1..], cfg); }
  }

  lemma {:induction false} WrittenCounted(cs: seq<MemoryCandidate>, cfg: Config)
    ensures |Written(cs, cfg)| == Count(cs[..Reached(cs, cfg)], cfg.accept)
  {
    if cs != [] {
      WrittenCounted(cs[1..], cfg);
      assert cs[..Reached(cs, cfg)][1..] == cs[1..][..Reached(cs, cfg) - 1];
    }
  }

  /** And in the index, the entry of that record if the index takes it. */
  lemma WriteStepIndexes(before: Effect, cs: seq<MemoryCandidate>, cfg: Config, id: string, i: int)
    requires Latest(cs, Reached(cs, cfg), i, id, cfg) && Indexable(cs[i], cfg)
    ensures var after := RunStep(before, cs, cfg);
            && Lookup(after.store, RecordId, id).Some? && Lookup(after.index, EntryId, id).Some?
            && Tells(Lookup(after.index, EntryId, id).value, Lookup(after.store, RecordId, id).value,
                     cfg.embedding.value, cfg.digest)
  {
    var ok := (r: MemoryRecord) => IndexFailure(r, cfg).None?;
    LatestWritten(cs, cfg, id);
    PutAllSpec(before.store, RecordId, Written(cs, cfg), id);
    PutAllSpec(before.index, EntryId, Indexed(Written(cs, cfg), cfg), id);
    LatestIndexed(Written(cs, cfg), cfg, id);
    LastFiltered(Written(cs, cfg), ok, RecordId, id);
  }

  lemma {:induction false} LastFiltered<K, V(!new)>(xs: seq<V>, p: V -> bool, key: V -> K, k: K)
    requires Last(xs, key, k).Some? && p(Last(xs, key, k).value)
    ensures Last(Filter(xs, p), key, k) == Last(xs, key, k)
  {
    var rest := Filter(xs[1..], p);
    assert ([xs[0]] + rest)[1..] == rest;
    if Last(xs[1..], key, k).Some? {
      LastFiltered(xs[1..], p, key, k);
    } else {
      assert forall x :: x in rest ==> x in xs[1..];
    }
  }

  lemma {:induction false} LastIndexed(rs: seq<MemoryRecord>, cfg: Config, id: string)
    requires cfg.embedding.Some? && Sound(cfg.embedding.value)
    ensures Last(Indexed(rs, cfg), EntryId, id) == MirrorOf(Last(rs, RecordId, id), cfg.embedding.value, cfg.digest)
  {
    if rs == [] {
    } else {
      LastIndexed(rs[1..], cfg, id);
      assert IndexFailure(rs[0], cfg).None?;
      var e := EntryOf(rs[0], cfg.embedding.value, cfg.digest);
      assert ([e] + Indexed(rs[1..], cfg))[1..] == Indexed(rs[1..], cfg);
    }
  }

  /** With a sound embedding model the write step keeps a synchronised index synchronised. */
  lemma WriteKeepsMirror(before: Effect, cs: seq<MemoryCandidate>, cfg: Config)
    requires cfg.embedding.Some? && Sound(cfg.embedding.value)
    requires Mirrors(before.store, before.index, cfg.embedding.value, cfg.digest)
    ensures var after := RunStep(before, cs, cfg); Mirrors(after.store, after.index, cfg.embedding.value, cfg.digest)
  {
    var after := RunStep(before, cs, cfg);
    PutAllSpec(before.index, EntryId, Indexed(Written(cs, cfg), cfg), "");
    forall id ensures Lookup(after.index, EntryId, id) ==
                      MirrorOf(Lookup(after.store, RecordId, id), cfg.embedding.value, cfg.digest) {
      PutAllSpec(before.store, RecordId, Written(cs, cfg), id);
      PutAllSpec(before.index, EntryId, Indexed(Written(cs, cfg), cfg), id);
      LastIndexed(Written(cs, cfg), cfg, id);
    }
  }

  datatype WriteResult = Skipped | Finished(ok: bool, writtenIds: seq<string>, rejectedCount: nat)

  class MemoryWriteStep {
    const store: MemoryStore.InMemoryMemoryStore
    const index: InMemoryVectorMemoryIndex
    const cfg: Config

    constructor (store: MemoryStore.InMemoryMemoryStore, index: InMemoryVectorMemoryIndex, cfg: Config)
      ensures this.store == store && this.index == index && this.cfg == cfg
    {
      this.store, this.index, this.cfg := store, index, cfg;
    }

    /** Writes the derived entry after the record; an index failure is raised only without fail-open. */
    method UpsertVector(record: MemoryRecord) returns (r: Outcome<(), IndexError>)
      requires index.Valid()
      modifies index
      ensures index.Valid()
      ensures index.entries == PutAll(old(index.entries), EntryId, Indexed([record], cfg))
      ensures r == if IndexFailure(record, cfg).Some? && !cfg.failOpen
                   then Raised(IndexFailure(record, cfg).value) else Ok(())
    {
      assert [record][1..] == [];
      if cfg.embedding.None? { return Ok(()); }
      var entry := EntryOf(record, cfg.embedding.value, cfg.digest);
      assert PutAll(index.entries, EntryId, [entry]) == Put(index.entries, EntryId, entry) by {
        assert [entry][1..] == [];
      }
      var u := index.Upsert(entry);
      if u.Raised? && !cfg.failOpen { return Raised(u.error); }
      r := Ok(());
    }

    /** Stores one accepted candidate and its entry; `rest` are the candidates from this one on. */
    method WriteCandidate(c: MemoryCandidate, ghost rest: seq<MemoryCandidate>) returns (r: Outcome<string, IndexError>)
      requires index.Valid() && cfg.accept(c) && rest != [] && rest[0] == c
      modifies store, index
      ensures index.Valid() && (old(store.Valid()) ==> store.Valid())
      ensures r.Raised? ==>
                && Effect(store.records, index.entries) == RunStep(old(Effect(store.records, index.entries)), rest, cfg)
                && Failure(rest, cfg) == Some(r.error)
      ensures r.Ok? ==>
                && RunStep(Effect(store.records, index.entries), rest[1..], cfg) ==
                   RunStep(old(Effect(store.records, index.entries)), rest, cfg)
                && Failure(rest, cfg) == Failure(rest[1..], cfg)
                && WrittenIds(rest, cfg) == [r.value] + WrittenIds(rest[1..], cfg)
    {
      FirstWrite(Effect(store.records, index.entries), rest, cfg);
      var record := RecordOf(c, cfg);
      var stored := store.Update(record);
      var u := UpsertVector(stored);
      r := if u.Raised? then Raised(u.error) else Ok(record.id);
    }

    /** Judges and, if accepted, writes one candidate, and updates the two accumulators. */
    method WriteNext(candidates: seq<MemoryCandidate>, i: nat, rejected: nat, ids: seq<string>, ghost start: Effect)
      returns (r: Outcome<(nat, seq<string>), IndexError>)
      requires index.Valid() && i < |candidates|
      requires Progress(start, candidates, Effect(store.records, index.entries), candidates[i..], rejected, ids, cfg)
      modifies store, index
      ensures index.Valid() && (old(store.Valid()) ==> store.Valid())
      ensures r.Raised? ==>
                && Effect(store.records, index.entries) == RunStep(start, candidates, cfg)
                && ResultOf(candidates, cfg) == Raised(r.error)
      ensures r.Ok? ==>
                Progress(start, candidates, Effect(store.records, index.entries), candidates[i + 1..], r.value.0,
                         r.value.1, cfg)
    {
      ghost var rest, before := candidates[i..], Effect(store.records, index.entries);
      assert rest[0] == candidates[i] && rest[1..] == candidates[i + 1..];
      if !cfg.accept(candidates[i]) {
        ProgressReject(start, candidates, before, rest, rejected, ids, cfg);
        return Ok((rejected + 1, ids));
      }
      var id := WriteCandidate(candidates[i], rest);
      if id.Raised? { return Raised(id.error); }
      ProgressWrite(start, candidates, before, rest, rejected, ids, cfg, Effect(store.records, index.entries),
                    id.value);
      r := Ok((rejected, ids + [id.value]));
    }

    method WriteAll(candidates: seq<MemoryCandidate>) returns (r: Outcome<WriteResult, IndexError>)
      requires index.Valid()
      modifies store, index
      ensures index.Valid() && (old(store.Valid()) ==> store.Valid())
      ensures Effect(store.records, index.entries) ==
              RunStep(old(Effect(store.records, index.entries)), candidates, cfg)
      ensures r == ResultOf(candidates, cfg)
    {
      ghost var start := Effect(store.records, index.entries);
      var writtenIds: seq<string>, rejected := [], 0;
      var i := 0;
      ProgressStart(start, candidates, cfg);
      while i < |candidates|
        invariant i <= |candidates| && index.Valid() && (old(store.Valid()) ==> store.Valid())
        invariant Progress(start, candidates, Effect(store.records, index.entries), candidates[i..], rejected,
                           writtenIds, cfg)
      {
        var next := WriteNext(candidates, i, rejected, writtenIds, start);
        if next.Raised? { return Raised(next.error); }
        rejected, writtenIds := next.value.0, next.value.1;
        i := i + 1;
      }
      assert candidates[i..] == [];
      ProgressEnd(start, candidates, Effect(store.records, index.entries), rejected, writtenIds, cfg);
      r := Ok(Finished(writtenIds != [], writtenIds, rejected));
    }

    /** Without input text the step is skipped; otherwise every candidate is judged and written in order. */
    method Run(text: Option<string>, candidates: seq<MemoryCandidate>) returns (r: Outcome<WriteResult, IndexError>)
      requires index.Valid()
      modifies store, index
      ensures index.Valid() && (old(store.Valid()) ==> store.Valid())
      ensures if text.None? || text.value == "" then
                r == Ok(Skipped) && store.records == old(store.records) && index.entries == old(index.entries)
              else
                && Effect(store.records, index.entries) ==
                    RunStep(old(Effect(store.records, index.entries)), candidates, cfg)
                && r == ResultOf(candidates, cfg)
    {
      if text.None? || text.value == "" { return Ok(Skipped); }
      r := WriteAll(candidates);
    }
  }

  function ResultOf(cs: seq<MemoryCandidate>, cfg: Config): (r: Outcome<WriteResult, IndexError>) {
    if Failure(cs, cfg).Some? then Raised(Failure(cs, cfg).value)
    else Ok(Finished(WrittenIds(cs, cfg) != [], WrittenIds(cs, cfg), Rejected(cs, cfg)))
  }

  function WrittenIds(cs: seq<MemoryCandidate>, cfg: Config): (ids: seq<string>) { Keys(Written(cs, cfg), RecordId) }

  /** What is done so far and what the remaining candidates will do make up the whole run. */
  ghost predicate Progress(start: Effect, all: seq<MemoryCandidate>, e: Effect, rest: seq<MemoryCandidate>,
                           rejected: nat, ids: seq<string>, cfg: Config) {
    && RunStep(e, rest, cfg) == RunStep(start, all, cfg)
    && Failure(rest, cfg) == Failure(all, cfg)
    && rejected + Rejected(rest, cfg) == Rejected(all, cfg)
    && ids + WrittenIds(rest, cfg) == WrittenIds(all, cfg)
  }

  lemma ProgressStart(start: Effect, all: seq<MemoryCandidate>, cfg: Config)
    ensures Progress(start, all, start, all[0..], 0, [], cfg)
  {
    assert all[0..] == all && [] + WrittenIds(all, cfg) == WrittenIds(all, cfg);
  }

  lemma ProgressReject(start: Effect, all: seq<MemoryCandidate>, e: Effect, rest: seq<MemoryCandidate>,
                       rejected: nat, ids: seq<string>, cfg: Config)
    requires Progress(start, all, e, rest, rejected, ids, cfg) && rest != [] && !cfg.accept(rest[0])
    ensures Progress(start, all, e, rest[1..], rejected + 1, ids, cfg)
  {
    assert Written(rest, cfg) == Written(rest[1..], cfg);
  }

  lemma ProgressWrite(start: Effect, all: seq<MemoryCandidate>, e: Effect, rest: seq<MemoryCandidate>, rejected: nat,
                      ids: seq<string>, cfg: Config, next: Effect, id: string)
    requires Progress(start, all, e, rest, rejected, ids, cfg) && rest != [] && cfg.accept(rest[0])
    requires RunStep(next, rest[1..], cfg) == RunStep(e, rest, cfg) && Failure(rest, cfg) == Failure(rest[1..], cfg)
    requires WrittenIds(rest, cfg) == [id] + WrittenIds(rest[1..], cfg)
    ensures Progress(start, all, next, rest[1..], rejected, ids + [id], cfg)
  {
    assert (ids + [id]) + WrittenIds(rest[1..], cfg) == ids + ([id] + WrittenIds(rest[1..], cfg));
  }

  lemma ProgressEnd(start: Effect, all: seq<MemoryCandidate>, e: Effect, rejected: nat, ids: seq<string>, cfg: Config)
    requires Progress(start, all, e, [], rejected, ids, cfg)
    ensures e == RunStep(start, all, cfg) && ResultOf(all, cfg) == Ok(Finished(ids != [], ids, rejected))
  {
    assert Written([], cfg) == [] && WrittenIds([], cfg) == [] && ids + [] == ids;
  }

  lemma StoreFirst(store: seq<MemoryRecord>, r: MemoryRecord, rest: seq<MemoryRecord>)
    ensures PutAll(store, RecordId, [r] + rest) == PutAll(Put(store, RecordId, r), RecordId, rest)
  {
    assert ([r] + rest)[0] == r && ([r] + rest)[1..] == rest;
  }

  lemma IdsFirst(r: MemoryRecord, rest: seq<MemoryRecord>)
    ensures Keys([r] + rest, RecordId) == [r.id] + Keys(rest, RecordId)
  {
  }

  lemma IndexFirst(index: seq<VectorEntry>, r: MemoryRecord, rest: seq<MemoryRecord>, cfg: Config)
    ensures PutAll(index, EntryId, Indexed([r] + rest, cfg)) ==
            PutAll(PutAll(index, EntryId, Indexed([r], cfg)), EntryId, Indexed(rest, cfg))
  {
    IndexedConcat([r], rest, cfg);
    PutAllConcat(index, EntryId, Indexed([r], cfg), Indexed(rest, cfg));
  }

  /** The effect of the first accepted candidate, peeled off a run. */
  lemma FirstWrite(e: Effect, cs: seq<MemoryCandidate>, cfg: Config)
    requires cs != [] && cfg.accept(cs[0])
    ensures var r := RecordOf(cs[0], cfg);
            var first := Effect(Put(e.store, RecordId, r), PutAll(e.index, EntryId, Indexed([r], cfg)));
            if IndexFailure(r, cfg).Some? && !cfg.failOpen then RunStep(e, cs, cfg) == first
            else RunStep(e, cs, cfg) == RunStep(first, cs[1..], cfg)
                 && WrittenIds(cs, cfg) == [r.id] + WrittenIds(cs[1..], cfg)
  {
    var r, rest := RecordOf(cs[0], cfg), Written(cs[1..], cfg);
    if IndexFailure(r, cfg).Some? && !cfg.failOpen {
      assert [r][1..] == [];
      assert PutAll(e.store, RecordId, [r]) == Put(e.store, RecordId, r);
    } else {
      StoreFirst(e.store, r, rest);
      IdsFirst(r, rest);
      IndexFirst(e.index, r, rest, cfg);
    }
  }

  lemma {:induction false} IndexedConcat(a: seq<MemoryRecord>, b: seq<MemoryRecord>, cfg: Config)
    ensures Indexed(a + b, cfg) == Indexed(a, cfg) + Indexed(b, cfg)
  {
    if a == [] {
      assert a + b == b;
    } else {
      assert (a + b)[1..] == a[1..] + b;
      IndexedConcat(a[1..], b, cfg);
    }
  }
}
