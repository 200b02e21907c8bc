/** Records, queries and derived vector entries (iris/contracts/memory.py). */
module MemoryContracts {
  import opened Prelude
  import opened KeyedSeq

  datatype MemoryKind = Episode | Preference | Fact | RelationshipEvent | Task | Note

  /** The enum's string value. */
  function KindName(k: MemoryKind): (s: string) {
    match k
    case Episode => "episode"
    case Preference => "preference"
    case Fact => "fact"
    case RelationshipEvent => "relationship_event"
    case Task => "task"
    case Note => "note"
  }

  /** Python's `s or ''`. */
  function OrEmpty(s: Option<string>): (r: string) { if s.Some? then s.value else "" }

  datatype MemoryRecord = MemoryRecord(
    id: string,
    text: string,
    actorId: Option<string>,
    spaceId: Option<string>,
    salience: real,
    kind: MemoryKind,
    confidence: real,
    sourceObservationId: Option<string>,
    createdAt: Option<real>,
    updatedAt: Option<real>,
    archived: bool,
    metadata: map<string, string>)

  datatype MemoryQuery = MemoryQuery(
    text: string,
    actorId: Option<string>,
    spaceId: Option<string>,
    limit: int,
    kind: Option<MemoryKind>,
    includeArchived: bool)

  datatype SearchResult = SearchResult(record: MemoryRecord, score: real)

  datatype VectorHit = VectorHit(memoryId: string, score: real)

  datatype VectorFilter = VectorFilter(
    actorId: Option<string>,
    spaceId: Option<string>,
    kind: Option<MemoryKind>,
    includeArchived: bool)

  datatype VectorEntry = VectorEntry(
    memoryId: string,
    vector: seq<real>,
    sourceDigest: string,
    provider: string,
    model: string,
    dimension: int,
    actorId: Option<string>,
    spaceId: Option<string>,
    kind: MemoryKind,
    archived: bool,
    sourceObservationId: Option<string>,
    createdAt: Option<real>,
    updatedAt: Option<real>,
    metadata: map<string, string>)

  /** An embedding model: its identity and its text-to-vector functions. */
  datatype Embedding = Embedding(
    provider: string,
    modelId: string,
    dimension: int,
    embed: string -> seq<real>,
    embedBatch: seq<string> -> seq<seq<real>>)

  /** The contract of an embedding model: vectors of the declared dimension, batches in input order. */
  ghost predicate Sound(m: Embedding) {
    && m.dimension > 0
    && (forall t :: |m.embed(t)| == m.dimension)
    && (forall ts :: |m.embedBatch(ts)| == |ts| && forall i :: 0 <= i < |ts| ==> m.embedBatch(ts)[i] == m.embed(ts[i]))
  }

  /** Among the records in play, different records have different digests. */
  ghost predicate InjectiveOn(digest: MemoryRecord -> string, seen: set<MemoryRecord>) {
    forall a, b :: a in seen && b in seen && digest(a) == digest(b) ==> a == b
  }

  /** Such a digest exists for every finite set of records. */
  lemma {:induction false} DigestExists(seen: set<MemoryRecord>) returns (digest: MemoryRecord -> string)
    ensures InjectiveOn(digest, seen)
    ensures forall r :: r in seen ==> |digest(r)| < |seen|
  {
    if seen == {} {
      digest := (_: MemoryRecord) => "";
    } else {
      var r :| r in seen;
      var rest := DigestExists(seen - {r});
      var longest := seq(|seen| - 1, _ => 'x');
      digest := (x: MemoryRecord) => if x == r then longest else rest(x);
      forall a | a in seen && a != r ensures |rest(a)| < |seen| - 1 { assert a in seen - {r}; }
    }
  }

  function RecordId(r: MemoryRecord): (id: string) { r.id }

  function EntryId(e: VectorEntry): (id: string) { e.memoryId }

  function EntryFromRecord(r: MemoryRecord, vector: seq<real>, m: Embedding, digest: MemoryRecord -> string)
    : (e: VectorEntry)
  {
    VectorEntry(r.id, vector, digest(r), m.provider, m.modelId, m.dimension, r.actorId, r.spaceId, r.kind, r.archived,
                r.sourceObservationId, r.createdAt, r.updatedAt, r.metadata)
  }

  function EntryOf(r: MemoryRecord, m: Embedding, digest: MemoryRecord -> string): (e: VectorEntry) {
    EntryFromRecord(r, m.embed(r.text), m, digest)
  }

  predicate MatchesQuery(r: MemoryRecord, q: MemoryQuery) {
    && (q.includeArchived || !r.archived)
    && (q.actorId.None? || r.actorId == q.actorId)
    && (q.spaceId.None? || r.spaceId == q.spaceId)
    && (q.kind.None? || Some(r.kind) == q.kind)
  }

  predicate MatchesFilter(e: VectorEntry, f: Option<VectorFilter>) {
    f.Some? ==>
      && (f.value.includeArchived || !e.archived)
      && (f.value.actorId.None? || e.actorId == f.value.actorId)
      && (f.value.spaceId.None? || e.spaceId == f.value.spaceId)
      && (f.value.kind.None? || Some(e.kind) == f.value.kind)
  }

  function FilterOf(q: MemoryQuery): (f: VectorFilter) {
    VectorFilter(q.actorId, q.spaceId, q.kind, q.includeArchived)
  }

  /** What the query asks of archive flag, actor, space and kind. */
  ghost predicate Wanted(archived: bool, actorId: Option<string>, spaceId: Option<string>, kind: MemoryKind,
                         q: MemoryQuery) {
    && (archived ==> q.includeArchived)
    && (q.actorId.Some? ==> actorId == q.actorId)
    && (q.spaceId.Some? ==> spaceId == q.spaceId)
    && (q.kind.Some? ==> kind == q.kind.value)
  }

  /** Filtering a faithful entry is filtering its record, and both ask exactly that. */
  lemma FilterAgrees(r: MemoryRecord, vector: seq<real>, m: Embedding, digest: MemoryRecord -> string, q: MemoryQuery)
    ensures MatchesFilter(EntryFromRecord(r, vector, m, digest), Some(FilterOf(q))) <==> MatchesQuery(r, q)
    ensures MatchesQuery(r, q) <==> Wanted(r.archived, r.actorId, r.spaceId, r.kind, q)
  {
  }

  /** The same for any entry; without a filter every entry passes. */
  lemma FilterMeans(e: VectorEntry, q: MemoryQuery)
    ensures MatchesFilter(e, Some(FilterOf(q))) <==> Wanted(e.archived, e.actorId, e.spaceId, e.kind, q)
    ensures MatchesFilter(e, None)
  {
  }

  /** The entry describes the record and the model its vector comes from. */
  ghost predicate Tells(e: VectorEntry, r: MemoryRecord, m: Embedding, digest: MemoryRecord -> string) {
    && e.memoryId == r.id && e.vector == m.embed(r.text) && e.sourceDigest == digest(r)
    && e.provider == m.provider && e.model == m.modelId && e.dimension == m.dimension
    && e.actorId == r.actorId && e.spaceId == r.spaceId && e.kind == r.kind && e.archived == r.archived
    && e.sourceObservationId == r.sourceObservationId && e.createdAt == r.createdAt && e.updatedAt == r.updatedAt
    && e.metadata == r.metadata
  }

  ghost function MirrorOf(r: Option<MemoryRecord>, m: Embedding,
                          digest: MemoryRecord -> string): (e: Option<VectorEntry>) {
    match r case None => None case Some(x) => Some(EntryOf(x, m, digest))
  }

  /** The index holds exactly the entry of every stored record. */
  ghost predicate Mirrors(store: seq<MemoryRecord>, index: seq<VectorEntry>, m: Embedding,
                          digest: MemoryRecord -> string) {
    && Distinct(index, EntryId)
    && forall id :: Lookup(index, EntryId, id) == MirrorOf(Lookup(store, RecordId, id), m, digest)
  }
}
