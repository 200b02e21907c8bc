/** Rebuilding the derived index from the canonical store (iris/runtime/memory_vector_rebuilder.py). */
module VectorRebuilder {
  import opened Prelude
  import opened Counting
  import opened KeyedSeq
  import opened MemoryContracts
  import MemoryStore
  import opened VectorIndex

  datatype EntryState = Missing | Stale | Incompatible | Unchanged

  type Digest = MemoryRecord -> string

  predicate IsIncompatible(e: VectorEntry, m: Embedding) {
    e.provider != m.provider || e.model != m.modelId || e.dimension != m.dimension
  }

  function Classify(entries: seq<VectorEntry>, r: MemoryRecord, m: Embedding, digest: Digest): (s: EntryState) {
    var e := Lookup(entries, EntryId, r.id);
    if e.None? then Missing
    else if IsIncompatible(e.value, m) then Incompatible
    else if e.value.sourceDigest != digest(r) then Stale
    else Unchanged
  }

  /** What the classification of a record says of the index: no entry, an entry of another model, an entry of another
      version of the record, or an entry of this version under this model. */
  lemma ClassifyIff(entries: seq<VectorEntry>, r: MemoryRecord, m: Embedding, digest: Digest)
    ensures var e, s := Lookup(entries, EntryId, r.id), Classify(entries, r, m, digest);
            && (s == Missing <==> forall x :: x in entries ==> x.memoryId != r.id)
            && (s == Incompatible <==>
                e.Some? && (e.value.provider != m.provider || e.value.model != m.modelId
                            || e.value.dimension != m.dimension))
            && (s == Unchanged <==>
                && e.Some? && e.value.provider == m.provider && e.value.model == m.modelId
                && e.value.dimension == m.dimension && e.value.sourceDigest == digest(r))
  {
  }

  /** The records whose entry has to be written, in scan order. */
  function Outdated(entries: seq<VectorEntry>, rs: seq<MemoryRecord>, m: Embedding,
                    digest: Digest): (r: seq<MemoryRecord>)
    ensures forall x :: x in r <==> x in rs && Classify(entries, x, m, digest) != Unchanged
  {
    if rs == [] then []
    else
      var rest := Outdated(entries, rs[1..], m, digest);
      if Classify(entries, rs[0], m, digest) != Unchanged then [rs[0]] + rest else rest
  }

  function CountState(entries: seq<VectorEntry>, rs: seq<MemoryRecord>, m: Embedding, digest: Digest,
                      s: EntryState): (n: nat) {
    if rs == [] then 0
    else (if Classify(entries, rs[0], m, digest) == s then 1 else 0) + CountState(entries, rs[1..], m, digest, s)
  }

  /** The state of every record, in scan order. */
  function States(entries: seq<VectorEntry>, rs: seq<MemoryRecord>, m: Embedding, digest: Digest): (r: seq<EntryState>)
    ensures |r| == |rs|
    ensures forall i :: 0 <= i < |rs| ==> r[i] == Classify(entries, rs[i], m, digest)
  {
    seq(|rs|, i requires 0 <= i < |rs| => Classify(entries, rs[i], m, digest))
  }

  function NotUnchanged(rs: seq<MemoryRecord>, states: seq<EntryState>): (r: seq<MemoryRecord>)
    requires |states| == |rs|
  {
    if rs == [] then []
    else (if states[0] != Unchanged then [rs[0]] else []) + NotUnchanged(rs[1..], states[1..])
  }

  function CountOf(states: seq<EntryState>, s: EntryState): (n: nat) {
    if states == [] then 0 else (if states[0] == s then 1 else 0) + CountOf(states[1..], s)
  }

  /** Selecting and counting over the classified records gives what is outdated and how many are in each state. */
  lemma {:induction false} StatesTell(entries: seq<VectorEntry>, rs: seq<MemoryRecord>, m: Embedding, digest: Digest)
    ensures NotUnchanged(rs, States(entries, rs, m, digest)) == Outdated(entries, rs, m, digest)
    ensures forall s :: CountOf(States(entries, rs, m, digest), s) == CountState(entries, rs, m, digest, s)
  {
    if rs != [] {
      StatesTell(entries, rs[1..], m, digest);
      assert States(entries, rs, m, digest)[1..] == States(entries, rs[1..], m, digest);
    }
  }

  function EntriesOf(rs: seq<MemoryRecord>, m: Embedding, digest: Digest): (r: seq<VectorEntry>)
    ensures |r| == |rs|
    ensures forall i :: 0 <= i < |rs| ==> r[i] == EntryOf(rs[i], m, digest)
  {
    seq(|rs|, i requires 0 <= i < |rs| => EntryOf(rs[i], m, digest))
  }

  /** The entries whose id is canonical. */
  function KeepIds(entries: seq<VectorEntry>, ids: set<string>): (r: seq<VectorEntry>)
    ensures |r| <= |entries|
  {
    if entries == [] then []
    else if entries[0].memoryId in ids then [entries[0]] + KeepIds(entries[1..], ids)
    else KeepIds(entries[1..], ids)
  }

  function IdsOf(rs: seq<MemoryRecord>): (s: set<string>)
    ensures forall id :: id in s <==> exists r :: r in rs && r.id == id
  {
    set r | r in rs :: r.id
  }

  /** The index after a rebuild. */
  function Rebuilt(entries: seq<VectorEntry>, rs: seq<MemoryRecord>, m: Embedding, digest: Digest, removeOrphans: bool)
    : (r: seq<VectorEntry>)
  {
    var written := PutAll(entries, EntryId, EntriesOf(Outdated(entries, rs, m, digest), m, digest));
    if removeOrphans then KeepIds(written, IdsOf(rs)) else written
  }

  // ----- writing in batches -------------------------------------------------------------------------

  datatype RebuildError = BatchSizeNotPositive | BatchLengthMismatch | IndexFailed(cause: IndexError)

  function Texts(rs: seq<MemoryRecord>): (r: seq<string>)
    ensures |r| == |rs|
    ensures forall i :: 0 <= i < |rs| ==> r[i] == rs[i].text
  {
    seq(|rs|, i requires 0 <= i < |rs| => rs[i].text)
  }

  function WithVectors(rs: seq<MemoryRecord>, vectors: seq<seq<real>>, m: Embedding,
                       digest: Digest): (r: seq<VectorEntry>)
    requires |vectors| == |rs|
    ensures |r| == |rs|
    ensures forall i :: 0 <= i < |rs| ==> r[i] == EntryFromRecord(rs[i], vectors[i], m, digest)
  {
    seq(|rs|, i requires 0 <= i < |rs| => EntryFromRecord(rs[i], vectors[i], m, digest))
  }

  /** Upserts in order, up to the first refused entry. */
  function Upserts(entries: seq<VectorEntry>, es: seq<VectorEntry>): (r: (seq<VectorEntry>, Option<RebuildError>))
    decreases |es|
  {
    if es == [] then (entries, None)
    else if UpsertError(es[0]).Some? then (entries, Some(IndexFailed(UpsertError(es[0]).value)))
    else Upserts(Put(entries, EntryId, es[0]), es[1..])
  }

  function WriteBatch(entries: seq<VectorEntry>, batch: seq<MemoryRecord>, m: Embedding, digest: Digest)
    : (r: (seq<VectorEntry>, Option<RebuildError>))
  {
    var vectors := m.embedBatch(Texts(batch));
    if |vectors| != |batch| then (entries, Some(BatchLengthMismatch))
    else Upserts(entries, WithVectors(batch, vectors, m, digest))
  }

  function WriteAll(entries: seq<VectorEntry>, rs: seq<MemoryRecord>, m: Embedding, digest: Digest, size: nat)
    : (r: (seq<VectorEntry>, Option<RebuildError>))
    requires size > 0
    decreases |rs|
  {
    if rs == [] then (entries, None)
    else
      var k := if size < |rs| then size else |rs|;
      var (after, error) := WriteBatch(entries, rs[..k], m, digest);
      if error.Some? then (after, error) else WriteAll(after, rs[k..], m, digest, size)
  }

  lemma WriteAllStep(entries: seq<VectorEntry>, rs: seq<MemoryRecord>, start: nat, stop: nat, m: Embedding,
                     digest: Digest, size: nat)
    requires size > 0 && start < |rs| && stop == if start + size < |rs| then start + size else |rs|
    ensures WriteAll(entries, rs[start..], m, digest, size) ==
            var (after, error) := WriteBatch(entries, rs[start..stop], m, digest);
            if error.Some? then (after, error) else WriteAll(after, rs[stop..], m, digest, size)
  {
    var rest := rs[start..];
    assert rs[start..stop] == rest[..stop - start] && rs[stop..] == rest[stop - start..];
  }

  lemma {:induction false} UpsertsAll(entries: seq<VectorEntry>, es: seq<VectorEntry>)
    requires forall e :: e in es ==> UpsertError(e).None?
    ensures Upserts(entries, es) == (PutAll(entries, EntryId, es), None)
    decreases |es|
  {
    if es != [] { UpsertsAll(Put(entries, EntryId, es[0]), es[1..]); }
  }

  lemma SoundBatch(entries: seq<VectorEntry>, batch: seq<MemoryRecord>, m: Embedding, digest: Digest)
    requires Sound(m)
    ensures WriteBatch(entries, batch, m, digest) == (PutAll(entries, EntryId, EntriesOf(batch, m, digest)), None)
  {
    var vectors := m.embedBatch(Texts(batch));
    var es := WithVectors(batch, vectors, m, digest);
    assert es == EntriesOf(batch, m, digest);
    UpsertsAll(entries, es);
  }

  lemma EntriesOfSplit(rs: seq<MemoryRecord>, k: nat, m: Embedding, digest: Digest)
    requires k <= |rs|
    ensures EntriesOf(rs, m, digest) == EntriesOf(rs[..k], m, digest) + EntriesOf(rs[k..], m, digest)
  {
  }

  /** How the outdated records are cut into batches does not matter. */
  lemma {:induction false} BatchingIrrelevant(entries: seq<VectorEntry>, rs: seq<MemoryRecord>, m: Embedding,
                                              digest: Digest, size: nat)
    requires Sound(m) && size > 0
    ensures WriteAll(entries, rs, m, digest, size) == (PutAll(entries, EntryId, EntriesOf(rs, m, digest)), None)
    decreases |rs|
  {
    if rs == [] {
    } else {
      var k := if size < |rs| then size else |rs|;
      SoundBatch(entries, rs[..k], m, digest);
      var after := PutAll(entries, EntryId, EntriesOf(rs[..k], m, digest));
      BatchingIrrelevant(after, rs[k..], m, digest, size);
      EntriesOfSplit(rs, k, m, digest);
      PutAllConcat(entries, EntryId, EntriesOf(rs[..k], m, digest), EntriesOf(rs[k..], m, digest));
    }
  }

  // ----- what the rebuilt index is ------------------------------------------------------------------

  /** Equal ids name one record. */
  ghost predicate Consistent(rs: seq<MemoryRecord>) {
    forall a, b :: a in rs && b in rs && a.id == b.id ==> a == b
  }

  /** The entry was built by `vector_memory_entry_from_record` from some record, with the model's own vector
      when it claims to be this model's. */
  ghost predicate BuiltFrom(e: VectorEntry, r: MemoryRecord, m: Embedding, digest: Digest) {
    && e == EntryFromRecord(r, e.vector, m.(provider := e.provider, modelId := e.model, dimension := e.dimension),
                            digest)
    && (e.provider == m.provider && e.model == m.modelId && e.dimension == m.dimension ==> e == EntryOf(r, m, digest))
  }

  ghost predicate WellBuilt(entries: seq<VectorEntry>, m: Embedding, digest: Digest, seen: set<MemoryRecord>) {
    forall e :: e in entries ==> exists r :: r in seen && BuiltFrom(e, r, m, digest)
  }

  ghost predicate Known(rs: seq<MemoryRecord>, seen: set<MemoryRecord>) { forall r :: r in rs ==> r in seen }

  /** Entries and store come from the records in `seen`, and the digest tells these apart. */
  ghost predicate Traceable(entries: seq<VectorEntry>, rs: seq<MemoryRecord>, m: Embedding, digest: Digest,
                            seen: set<MemoryRecord>) {
    InjectiveOn(digest, seen) && WellBuilt(entries, m, digest, seen) && Known(rs, seen)
  }

  lemma LastOfEntries(rs: seq<MemoryRecord>, m: Embedding, digest: Digest, id: string)
    ensures var l := Last(EntriesOf(rs, m, digest), EntryId, id);
            && (l.None? <==> forall r :: r in rs ==> r.id != id)
            && (l.Some? ==> exists r :: r in rs && r.id == id && l.value == EntryOf(r, m, digest))
  {
    var es := EntriesOf(rs, m, digest);
    var l := Last(es, EntryId, id);
    if l.Some? {
      var i :| 0 <= i < |es| && es[i] == l.value;
      assert rs[i] in rs;
    } else {
      forall r | r in rs ensures r.id != id {
        var i :| 0 <= i < |rs| && rs[i] == r;
        assert es[i] in es;
      }
    }
  }

  /** After writing, the entry of a stored record is exactly the entry that record calls for. */
  lemma WrittenIsFaithful(entries: seq<VectorEntry>, rs: seq<MemoryRecord>, m: Embedding, digest: Digest,
                          r: MemoryRecord, seen: set<MemoryRecord>)
    requires Traceable(entries, rs, m, digest, seen) && Consistent(rs) && r in rs
    ensures Lookup(PutAll(entries, EntryId, EntriesOf(Outdated(entries, rs, m, digest), m, digest)), EntryId, r.id)
            == Some(EntryOf(r, m, digest))
  {
    var outdated := Outdated(entries, rs, m, digest);
    PutAllSpec(entries, EntryId, EntriesOf(outdated, m, digest), r.id);
    LastOfEntries(outdated, m, digest, r.id);
    if r !in outdated {
      var e := Lookup(entries, EntryId, r.id).value;
      var r0 :| r0 in seen && BuiltFrom(e, r0, m, digest);
      assert digest(r0) == digest(r);
    }
  }

  lemma {:induction false} KeepIdsMembers(entries: seq<VectorEntry>, ids: set<string>)
    ensures forall e :: e in KeepIds(entries, ids) <==> e in entries && e.memoryId in ids
  {
    if entries != [] { KeepIdsMembers(entries[1..], ids); }
  }

  lemma {:induction false} KeepIdsDistinct(entries: seq<VectorEntry>, ids: set<string>)
    requires Distinct(entries, EntryId)
    ensures Distinct(KeepIds(entries, ids), EntryId)
  {
    if entries == [] {
    } else {
      KeepIdsDistinct(entries[1..], ids);
      KeepIdsMembers(entries[1..], ids);
      var rest := KeepIds(entries[1..], ids);
      assert forall j :: 0 <= j < |rest| ==> rest[j] in entries[1..];
    }
  }

  lemma KeepIdsLookup(entries: seq<VectorEntry>, ids: set<string>, id: string)
    requires Distinct(entries, EntryId)
    ensures Lookup(KeepIds(entries, ids), EntryId, id) == if id in ids then Lookup(entries, EntryId, id) else None
  {
    KeepIdsDistinct(entries, ids);
    KeepIdsMembers(entries, ids);
    var kept := KeepIds(entries, ids);
    var a := Lookup(entries, EntryId, id);
    if id in ids && a.Some? {
      assert a.value in kept;
      var i :| 0 <= i < |kept| && kept[i] == a.value;
      LookupOfDistinct(kept, EntryId, i);
    }
  }

  /** With orphan removal the index becomes the store's image: one entry per stored id, each exactly the
      entry its record calls for. */
  lemma RebuildMirrorsStore(entries: seq<VectorEntry>, rs: seq<MemoryRecord>, m: Embedding, digest: Digest,
                            seen: set<MemoryRecord>)
    requires Traceable(entries, rs, m, digest, seen) && Consistent(rs) && Distinct(entries, EntryId)
    ensures Mirrors(rs, Rebuilt(entries, rs, m, digest, true), m, digest)
    ensures forall r :: r in rs ==> exists e :: e in Rebuilt(entries, rs, m, digest, true) && Tells(e, r, m, digest)
    ensures forall e :: e in Rebuilt(entries, rs, m, digest, true) ==> exists r :: r in rs && Tells(e, r, m, digest)
  {
    var batch := EntriesOf(Outdated(entries, rs, m, digest), m, digest);
    var written := PutAll(entries, EntryId, batch);
    PutAllSpec(entries, EntryId, batch, "");
    KeepIdsDistinct(written, IdsOf(rs));
    forall id
      ensures Lookup(KeepIds(written, IdsOf(rs)), EntryId, id) == MirrorOf(Lookup(rs, RecordId, id), m, digest)
    {
      KeepIdsLookup(written, IdsOf(rs), id);
      var r := Lookup(rs, RecordId, id);
      if r.Some? { WrittenIsFaithful(entries, rs, m, digest, r.value, seen); }
    }
    MirrorTells(rs, KeepIds(written, IdsOf(rs)), m, digest);
  }

  /** A mirroring index describes every record of a consistent store, and nothing else. */
  lemma MirrorTells(rs: seq<MemoryRecord>, index: seq<VectorEntry>, m: Embedding, digest: Digest)
    requires Mirrors(rs, index, m, digest) && Consistent(rs)
    ensures forall r :: r in rs ==> exists e :: e in index && Tells(e, r, m, digest)
    ensures forall e :: e in index ==> exists r :: r in rs && Tells(e, r, m, digest)
  {
    forall r | r in rs ensures exists e :: e in index && Tells(e, r, m, digest) {
      assert Lookup(rs, RecordId, r.id) == Some(r);
      assert Lookup(index, EntryId, r.id) == Some(EntryOf(r, m, digest));
      assert Tells(EntryOf(r, m, digest), r, m, digest);
    }
    forall e | e in index ensures exists r :: r in rs && Tells(e, r, m, digest) {
      var i :| 0 <= i < |index| && index[i] == e;
      LookupOfDistinct(index, EntryId, i);
      var r := Lookup(rs, RecordId, e.memoryId).value;
      assert Tells(EntryOf(r, m, digest), r, m, digest);
    }
  }

  /** What `Rebuild` leaves behind with a sound model, for every batch size. */
  lemma RebuildSucceeds(entries: seq<VectorEntry>, rs: seq<MemoryRecord>, m: Embedding, digest: Digest, size: nat,
                        removeOrphans: bool)
    requires Sound(m) && size > 0
    ensures var (written, error) := WriteAll(entries, Outdated(entries, rs, m, digest), m, digest, size);
            && error.None?
            && Rebuilt(entries, rs, m, digest, removeOrphans) ==
               if removeOrphans then KeepIds(written, IdsOf(rs)) else written
  {
    BatchingIrrelevant(entries, Outdated(entries, rs, m, digest), m, digest, size);
  }

  /** Id sets: with orphan removal exactly the stored ids, without it the old ids and the stored ids. */
  lemma RebuildIds(entries: seq<VectorEntry>, rs: seq<MemoryRecord>, m: Embedding, digest: Digest, id: string)
    requires Distinct(entries, EntryId)
    ensures Distinct(Rebuilt(entries, rs, m, digest, false), EntryId)
    ensures Lookup(Rebuilt(entries, rs, m, digest, false), EntryId, id).Some? <==>
            Lookup(entries, EntryId, id).Some? || id in IdsOf(rs)
    ensures Lookup(Rebuilt(entries, rs, m, digest, true), EntryId, id).Some? <==> id in IdsOf(rs)
  {
    var outdated := Outdated(entries, rs, m, digest);
    var written := PutAll(entries, EntryId, EntriesOf(outdated, m, digest));
    PutAllSpec(entries, EntryId, EntriesOf(outdated, m, digest), id);
    LastOfEntries(outdated, m, digest, id);
    KeepIdsLookup(written, IdsOf(rs), id);
    if id in IdsOf(rs) {
      var r :| r in rs && r.id == id;
      assert r in outdated || Lookup(entries, EntryId, id).Some?;
    }
  }

  /** Every scanned record falls in one state, and exactly the three outdated ones are written. */
  lemma {:induction false} CountsAddUp(entries: seq<VectorEntry>, rs: seq<MemoryRecord>, m: Embedding, digest: Digest)
    ensures CountState(entries, rs, m, digest, Unchanged) + CountState(entries, rs, m, digest, Missing)
            + CountState(entries, rs, m, digest, Stale) + CountState(entries, rs, m, digest, Incompatible) == |rs|
    ensures CountState(entries, rs, m, digest, Missing) + CountState(entries, rs, m, digest, Stale)
            + CountState(entries, rs, m, digest, Incompatible) == |Outdated(entries, rs, m, digest)|
  {
    if rs != [] { CountsAddUp(entries, rs[1..], m, digest); }
  }

  /** Two different records under one id: no index whatsoever satisfies both. */
  lemma InconsistentNeverSettles(entries: seq<VectorEntry>, rs: seq<MemoryRecord>, m: Embedding, digest: Digest,
                                 seen: set<MemoryRecord>)
    requires InjectiveOn(digest, seen) && Known(rs, seen) && !Consistent(rs)
    ensures Outdated(entries, rs, m, digest) != []
  {
    var a, b :| a in rs && b in rs && a.id == b.id && a != b;
    assert digest(a) != digest(b);
    assert a in Outdated(entries, rs, m, digest) || b in Outdated(entries, rs, m, digest);
  }

  /** Two different records that `put` has stored under one id: whatever the index holds, a rebuild finds something to
      write. */
  lemma PutNeverSettles(m: Embedding) returns (rs: seq<MemoryRecord>, digest: Digest)
    ensures |rs| == 2 && rs[0].id == rs[1].id && rs[0].text != rs[1].text
    ensures forall entries :: Outdated(entries, rs, m, digest) != []
  {
    var a := MemoryRecord("m", "tea", None, None, 0.5, Note, 0.5, None, None, None, false, map[]);
    var b := a.(text := "coffee");
    rs := [a, b];
    assert a.text[0] != b.text[0] && a in rs && b in rs;
    var seen := {a, b};
    digest := DigestExists(seen);
    forall entries ensures Outdated(entries, rs, m, digest) != [] {
      InconsistentNeverSettles(entries, rs, m, digest, seen);
    }
  }

  lemma ConsistentSettles(entries: seq<VectorEntry>, rs: seq<MemoryRecord>, m: Embedding, digest: Digest,
                          removeOrphans: bool, seen: set<MemoryRecord>)
    requires Traceable(entries, rs, m, digest, seen) && Distinct(entries, EntryId) && Consistent(rs)
    ensures Outdated(Rebuilt(entries, rs, m, digest, removeOrphans), rs, m, digest) == []
  {
    var once := Rebuilt(entries, rs, m, digest, removeOrphans);
    var batch := EntriesOf(Outdated(entries, rs, m, digest), m, digest);
    var left := Outdated(once, rs, m, digest);
    if left != [] {
      var r := left[0];
      assert r in left;
      PutAllSpec(entries, EntryId, batch, r.id);
      KeepIdsLookup(PutAll(entries, EntryId, batch), IdsOf(rs), r.id);
      WrittenIsFaithful(entries, rs, m, digest, r, seen);
      assert false;
    }
  }

  /** A second rebuild writes nothing exactly when equal ids name equal records: the store may hold
      repeated records, but two different records under one id keep overwriting each other. */
  lemma RebuildFixpointIff(entries: seq<VectorEntry>, rs: seq<MemoryRecord>, m: Embedding, digest: Digest,
                           removeOrphans: bool, seen: set<MemoryRecord>)
    requires Traceable(entries, rs, m, digest, seen) && Distinct(entries, EntryId)
    ensures var once := Rebuilt(entries, rs, m, digest, removeOrphans);
            Outdated(once, rs, m, digest) == [] <==> Consistent(rs)
  {
    if Consistent(rs) {
      ConsistentSettles(entries, rs, m, digest, removeOrphans, seen);
    } else {
      InconsistentNeverSettles(Rebuilt(entries, rs, m, digest, removeOrphans), rs, m, digest, seen);
    }
  }

  /** With nothing outdated and no orphans, a rebuild changes nothing at all. */
  lemma RebuildIdempotent(entries: seq<VectorEntry>, rs: seq<MemoryRecord>, m: Embedding, digest: Digest,
                          removeOrphans: bool, seen: set<MemoryRecord>)
    requires Traceable(entries, rs, m, digest, seen) && Distinct(entries, EntryId) && Consistent(rs)
    ensures var once := Rebuilt(entries, rs, m, digest, removeOrphans);
            Rebuilt(once, rs, m, digest, removeOrphans) == once
  {
    var once := Rebuilt(entries, rs, m, digest, removeOrphans);
    RebuildFixpointIff(entries, rs, m, digest, removeOrphans, seen);
    assert EntriesOf([], m, digest) == [];
    assert PutAll(once, EntryId, []) == once;
    if removeOrphans {
      KeepIdsMembers(PutAll(entries, EntryId, EntriesOf(Outdated(entries, rs, m, digest), m, digest)), IdsOf(rs));
      KeepAll(once, IdsOf(rs));
    }
  }

  lemma {:induction false} KeepAll(entries: seq<VectorEntry>, ids: set<string>)
    requires forall e :: e in entries ==> e.memoryId in ids
    ensures KeepIds(entries, ids) == entries
  {
    if entries != [] { KeepAll(entries[1..], ids); }
  }

  // ----- the rebuilder ------------------------------------------------------------------------------

  datatype Stats = Stats(scanned: nat, upserted: nat, upToDate: nat, missing: nat, stale: nat, incompatible: nat,
                         removedOrphans: nat)

  /** What a rebuild leaves in the index and reports, also when it fails midway. */
  function RebuildOutcome(entries: seq<VectorEntry>, rs: seq<MemoryRecord>, m: Embedding, digest: Digest, size: nat,
                          removeOrphans: bool): (r: (seq<VectorEntry>, Outcome<Stats, RebuildError>))
    requires size > 0
  {
    var outdated := Outdated(entries, rs, m, digest);
    var (written, error) := WriteAll(entries, outdated, m, digest, size);
    if error.Some? then (written, Raised(error.value))
    else
      var kept := if removeOrphans then KeepIds(written, IdsOf(rs)) else written;
      (kept, Ok(Stats(|rs|, |outdated|, CountState(entries, rs, m, digest, Unchanged),
                      CountState(entries, rs, m, digest, Missing), CountState(entries, rs, m, digest, Stale),
                      CountState(entries, rs, m, digest, Incompatible), |written| - |kept|)))
  }

  // ----- what the statistics count ------------------------------------------------------------------

  ghost function Unindexed(entries: seq<VectorEntry>): (p: MemoryRecord -> bool) {
    (r: MemoryRecord) => forall e :: e in entries ==> e.memoryId != r.id
  }

  ghost function OtherModel(entries: seq<VectorEntry>, m: Embedding): (p: MemoryRecord -> bool) {
    (r: MemoryRecord) =>
      var e := Lookup(entries, EntryId, r.id);
      e.Some? && !(e.value.provider == m.provider && e.value.model == m.modelId && e.value.dimension == m.dimension)
  }

  ghost function UpToDate(entries: seq<VectorEntry>, m: Embedding, digest: Digest): (p: MemoryRecord -> bool) {
    (r: MemoryRecord) =>
      var e := Lookup(entries, EntryId, r.id);
      && e.Some? && e.value.provider == m.provider && e.value.model == m.modelId && e.value.dimension == m.dimension
      && e.value.sourceDigest == digest(r)
  }

  ghost function Orphan(ids: set<string>): (p: VectorEntry -> bool) { (e: VectorEntry) => e.memoryId !in ids }

  lemma {:induction false} StatesCounted(entries: seq<VectorEntry>, rs: seq<MemoryRecord>, m: Embedding, digest: Digest)
    ensures CountState(entries, rs, m, digest, Missing) == Count(rs, Unindexed(entries))
    ensures CountState(entries, rs, m, digest, Incompatible) == Count(rs, OtherModel(entries, m))
    ensures CountState(entries, rs, m, digest, Unchanged) == Count(rs, UpToDate(entries, m, digest))
  {
    if rs != [] {
      ClassifyIff(entries, rs[0], m, digest);
      StatesCounted(entries, rs[1..], m, digest);
    }
  }

  lemma PutKeepsOrphans(entries: seq<VectorEntry>, e: VectorEntry, ids: set<string>)
    requires e.memoryId in ids
    ensures Count(Put(entries, EntryId, e), Orphan(ids)) == Count(entries, Orphan(ids))
  {
    var i := Find(entries, EntryId, e.memoryId);
    if i < |entries| {
      CountUpdate(entries, i, e, Orphan(ids));
    } else {
      CountAppend(entries, e, Orphan(ids));
    }
  }

  lemma {:induction false} UpsertsKeepOrphans(entries: seq<VectorEntry>, es: seq<VectorEntry>, ids: set<string>)
    requires forall i :: 0 <= i < |es| ==> es[i].memoryId in ids
    ensures Count(Upserts(entries, es).0, Orphan(ids)) == Count(entries, Orphan(ids))
    decreases |es|
  {
    if es != [] && UpsertError(es[0]).None? {
      PutKeepsOrphans(entries, es[0], ids);
      UpsertsKeepOrphans(Put(entries, EntryId, es[0]), es[1..], ids);
    }
  }

  lemma {:induction false} WriteKeepsOrphans(entries: seq<VectorEntry>, rs: seq<MemoryRecord>, m: Embedding,
                                             digest: Digest, size: nat, ids: set<string>)
    requires size > 0 && forall i :: 0 <= i < |rs| ==> rs[i].id in ids
    ensures Count(WriteAll(entries, rs, m, digest, size).0, Orphan(ids)) == Count(entries, Orphan(ids))
    decreases |rs|
  {
    if rs != [] {
      var k := if size < |rs| then size else |rs|;
      var batch := rs[..k];
      var vectors := m.embedBatch(Texts(batch));
      if |vectors| == k { UpsertsKeepOrphans(entries, WithVectors(batch, vectors, m, digest), ids); }
      WriteKeepsOrphans(WriteBatch(entries, batch, m, digest).0, rs[k..], m, digest, size, ids);
    }
  }

  lemma {:induction false} KeptAndOrphans(entries: seq<VectorEntry>, ids: set<string>)
    ensures |KeepIds(entries, ids)| + Count(entries, Orphan(ids)) == |entries|
  {
    if entries != [] { KeptAndOrphans(entries[1..], ids); }
  }

  /** The statistics of a successful rebuild, said of the store and the index before it: how many records had no entry,
      one of another model, or an up-to-date one, and how many entries had no record. */
  lemma StatsMean(entries: seq<VectorEntry>, rs: seq<MemoryRecord>, m: Embedding, digest: Digest, size: nat,
                  removeOrphans: bool)
    requires size > 0
    ensures var o := RebuildOutcome(entries, rs, m, digest, size, removeOrphans).1;
            o.Ok? ==>
              && o.value.scanned == |rs|
              && o.value.missing == |Places(rs, Unindexed(entries))|
              && o.value.incompatible == |Places(rs, OtherModel(entries, m))|
              && o.value.upToDate == |Places(rs, UpToDate(entries, m, digest))|
              && o.value.upserted == o.value.missing + o.value.stale + o.value.incompatible
              && o.value.upserted + o.value.upToDate == |rs|
              && o.value.removedOrphans == if removeOrphans then |Places(entries, Orphan(IdsOf(rs)))| else 0
  {
    CountsAddUp(entries, rs, m, digest);
    StatesCounted(entries, rs, m, digest);
    CountIs(rs, Unindexed(entries));
    CountIs(rs, OtherModel(entries, m));
    CountIs(rs, UpToDate(entries, m, digest));
    CountIs(entries, Orphan(IdsOf(rs)));
    var outdated := Outdated(entries, rs, m, digest);
    forall i | 0 <= i < |outdated| ensures outdated[i].id in IdsOf(rs) { assert outdated[i] in outdated; }
    WriteKeepsOrphans(entries, outdated, m, digest, size, IdsOf(rs));
    KeptAndOrphans(WriteAll(entries, outdated, m, digest, size).0, IdsOf(rs));
  }

  method CreateRebuilder(store: MemoryStore.InMemoryMemoryStore, index: InMemoryVectorMemoryIndex, m: Embedding,
                         digest: Digest, batchSize: int) returns (r: Outcome<MemoryVectorIndexRebuilder, RebuildError>)
    ensures r.Ok? <==> batchSize > 0
    ensures r.Ok? ==> r.value.store == store && r.value.index == index && r.value.embedding == m
                      && r.value.digest == digest && r.value.batchSize == batchSize
    ensures r.Raised? ==> r.error == BatchSizeNotPositive
  {
    if batchSize <= 0 { return Raised(BatchSizeNotPositive); }
    var b := new MemoryVectorIndexRebuilder(store, index, m, digest, batchSize);
    r := Ok(b);
  }

  class MemoryVectorIndexRebuilder {
    const store: MemoryStore.InMemoryMemoryStore
    const index: InMemoryVectorMemoryIndex
    const embedding: Embedding
    const digest: Digest
    const batchSize: int

    constructor (store: MemoryStore.InMemoryMemoryStore, index: InMemoryVectorMemoryIndex, m: Embedding,
                 digest: Digest, batchSize: int)
      ensures this.store == store && this.index == index && this.embedding == m && this.digest == digest
      ensures this.batchSize == batchSize
    {
      this.store, this.index, this.embedding, this.digest, this.batchSize := store, index, m, digest, batchSize;
    }

    method ScanRecords() returns (rs: seq<MemoryRecord>)
      ensures rs == store.records
    {
      var q := MemoryQuery("", None, None, 5, None, true);
      AllMatch(store.records, q);
      rs := store.Filter(q);
    }

    /** Embeds and writes one batch; stops at the first entry the index refuses. */
    method UpsertBatch(batch: seq<MemoryRecord>) returns (r: Outcome<nat, RebuildError>)
      requires index.Valid()
      modifies index
      ensures index.Valid()
      ensures var (after, error) := WriteBatch(old(index.entries), batch, embedding, digest);
              && index.entries == after
              && r == if error.Some? then Raised(error.value) else Ok(|batch|)
    {
      var vectors := embedding.embedBatch(Texts(batch));
      if |vectors| != |batch| { return Raised(BatchLengthMismatch); }
      ghost var es := WithVectors(batch, vectors, embedding, digest);
      var i := 0;
      while i < |batch|
        invariant i <= |batch| && index.Valid()
        invariant Upserts(index.entries, es[i..]) == Upserts(old(index.entries), es)
      {
        ghost var rest := es[i..];
        assert rest[0] == es[i] && rest[1..] == es[i + 1..];
        var u := index.Upsert(EntryFromRecord(batch[i], vectors[i], embedding, digest));
        if u.Raised? { return Raised(IndexFailed(u.error)); }
        i := i + 1;
      }
      r := Ok(|batch|);
    }

    /** Writes all outdated records, batch by batch. */
    method UpsertAll(outdated: seq<MemoryRecord>) returns (r: Outcome<nat, RebuildError>)
      requires index.Valid() && batchSize > 0
      modifies index
      ensures index.Valid()
      ensures var (after, error) := WriteAll(old(index.entries), outdated, embedding, digest, batchSize);
              && index.entries == after
              && r == if error.Some? then Raised(error.value) else Ok(|outdated|)
    {
      var upserted, start := 0, 0;
      assert outdated[0..] == outdated;
      while start < |outdated|
        invariant start <= |outdated| && upserted == start && index.Valid()
        invariant WriteAll(index.entries, outdated[start..], embedding, digest, batchSize) ==
                  WriteAll(old(index.entries), outdated, embedding, digest, batchSize)
      {
        var stop := if start + batchSize < |outdated| then start + batchSize else |outdated|;
        WriteAllStep(index.entries, outdated, start, stop, embedding, digest, batchSize);
        var n := UpsertBatch(outdated[start..stop]);
        if n.Raised? { return Raised(n.error); }
        upserted := upserted + n.value;
        start := stop;
      }
      r := Ok(upserted);
    }

    /** Compares one record with its entry in the index. */
    method ClassifyRecord(record: MemoryRecord) returns (s: EntryState)
      ensures s == Classify(index.entries, record, embedding, digest)
    {
      var entry := index.Metadata(record.id);
      ViewLookup(index.entries, EntryId, record.id);
      if entry.None? { return Missing; }
      if IsIncompatible(entry.value, embedding) { return Incompatible; }
      if entry.value.sourceDigest != digest(record) { return Stale; }
      s := Unchanged;
    }

    method ClassifyAll(records: seq<MemoryRecord>) returns (states: seq<EntryState>)
      ensures states == States(index.entries, records, embedding, digest)
    {
      states := [];
      var i := 0;
      while i < |records|
        invariant i <= |records| && states == States(index.entries, records, embedding, digest)[..i]
      {
        var s := ClassifyRecord(records[i]);
        states := states + [s];
        i := i + 1;
      }
      var all := States(index.entries, records, embedding, digest);
      assert all[..i] == all;
    }

    /** Synchronises the index and reports what was found and done. */
    method Rebuild(removeOrphans: bool) returns (r: Outcome<Stats, RebuildError>)
      requires index.Valid() && batchSize > 0
      modifies index
      ensures index.Valid()
      ensures (index.entries, r) ==
              RebuildOutcome(old(index.entries), store.records, embedding, digest, batchSize, removeOrphans)
    {
      var records := ScanRecords();
      var canonical := IdsOf(records);
      var states := ClassifyAll(records);
      StatesTell(index.entries, records, embedding, digest);
      var outdated := NotUnchanged(records, states);
      var upToDate, missing := CountOf(states, Unchanged), CountOf(states, Missing);
      var stale, incompatible := CountOf(states, Stale), CountOf(states, Incompatible);
      ghost var run := WriteAll(index.entries, outdated, embedding, digest, batchSize);
      var upserted := UpsertAll(outdated);
      assert index.entries == run.0 && upserted == if run.1.Some? then Raised(run.1.value) else Ok(|outdated|);
      if upserted.Raised? { return Raised(upserted.error); }
      var removed := 0;
      if removeOrphans { removed := RemoveOrphans(canonical); }
      r := Ok(Stats(|records|, upserted.value, upToDate, missing, stale, incompatible, removed));
    }

    method RemoveOrphans(canonical: set<string>) returns (removed: nat)
      requires index.Valid()
      modifies index
      ensures index.Valid() && index.entries == KeepIds(old(index.entries), canonical)
      ensures removed == |old(index.entries)| - |index.entries|
    {
      var ids := index.Ids();
      removed := 0;
      var i := 0;
      while i < |ids|
        invariant i <= |ids| && index.Valid()
        invariant index.entries == KeepIds(old(index.entries)[..i], canonical) + old(index.entries)[i..]
        invariant removed == |old(index.entries)| - |index.entries|
      {
        OrphanStep(old(index.entries), canonical, i, index.entries);
        if ids[i] !in canonical {
          index.Delete(ids[i]);
          removed := removed + 1;
        }
        i := i + 1;
      }
      assert old(index.entries)[..i] == old(index.entries) && old(index.entries)[i..] == [];
    }
  }

  lemma {:induction false} AllMatch(rs: seq<MemoryRecord>, q: MemoryQuery)
    requires forall r :: MatchesQuery(r, q)
    ensures MemoryStore.Matching(rs, q) == rs
  {
    if rs != [] { AllMatch(rs[1..], q); }
  }

  lemma {:induction false} KeepIdsConcat(a: seq<VectorEntry>, b: seq<VectorEntry>, ids: set<string>)
    ensures KeepIds(a + b, ids) == KeepIds(a, ids) + KeepIds(b, ids)
  {
    if a == [] {
      assert a + b == b;
    } else {
      assert (a + b)[1..] == a[1..] + b;
      KeepIdsConcat(a[1..], b, ids);
    }
  }

  lemma {:induction false} RemoveAbsent(xs: seq<VectorEntry>, id: string)
    requires forall x :: x in xs ==> x.memoryId != id
    ensures Remove(xs, EntryId, id) == xs
  {
    if xs != [] { RemoveAbsent(xs[1..], id); }
  }

  lemma {:induction false} RemoveAt(a: seq<VectorEntry>, e: VectorEntry, b: seq<VectorEntry>)
    requires forall x :: x in a ==> x.memoryId != e.memoryId
    requires forall x :: x in b ==> x.memoryId != e.memoryId
    ensures Remove(a + [e] + b, EntryId, e.memoryId) == a + b
  {
    if a == [] {
      assert (a + [e] + b)[1..] == b;
      RemoveAbsent(b, e.memoryId);
    } else {
      var all := a + [e] + b;
      assert all[0] == a[0] && all[1..] == a[1..] + [e] + b;
      RemoveAt(a[1..], e, b);
      assert a[0] in a && a + b == [a[0]] + (a[1..] + b);
    }
  }

  lemma DistinctSplit(original: seq<VectorEntry>, i: nat, ids: set<string>)
    requires Distinct(original, EntryId) && i < |original|
    ensures forall x :: x in KeepIds(original[..i], ids) ==> x.memoryId != original[i].memoryId
    ensures forall x :: x in original[i + 1..] ==> x.memoryId != original[i].memoryId
  {
    KeepIdsMembers(original[..i], ids);
    forall x | x in original[..i] ensures x.memoryId != original[i].memoryId {
      var j :| 0 <= j < i && original[j] == x;
      assert EntryId(original[j]) != EntryId(original[i]);
    }
    forall x | x in original[i + 1..] ensures x.memoryId != original[i].memoryId {
      var j :| i < j < |original| && original[j] == x;
      assert EntryId(original[i]) != EntryId(original[j]);
    }
  }

  lemma KeepIdsNext(original: seq<VectorEntry>, i: nat, ids: set<string>)
    requires i < |original|
    ensures KeepIds(original[..i + 1], ids) ==
            KeepIds(original[..i], ids) + if original[i].memoryId in ids then [original[i]] else []
  {
    assert original[..i + 1] == original[..i] + [original[i]];
    KeepIdsConcat(original[..i], [original[i]], ids);
  }

  lemma SplitAround(a: seq<VectorEntry>, e: VectorEntry, b: seq<VectorEntry>)
    ensures a + ([e] + b) == a + [e] + b && a + [] + b == a + b
  {
  }

  /** Visiting the `i`-th original id drops its entry from the index exactly when it is an orphan. */
  lemma OrphanStep(original: seq<VectorEntry>, ids: set<string>, i: nat, current: seq<VectorEntry>)
    requires Distinct(original, EntryId) && i < |original|
    requires current == KeepIds(original[..i], ids) + original[i..]
    ensures var next := KeepIds(original[..i + 1], ids) + original[i + 1..];
            if original[i].memoryId in ids then current == next
            else Remove(current, EntryId, original[i].memoryId) == next && |next| == |current| - 1
  {
    var e, a, b := original[i], KeepIds(original[..i], ids), original[i + 1..];
    KeepIdsNext(original, i, ids);
    assert original[i..] == [e] + b;
    SplitAround(a, e, b);
    if e.memoryId !in ids {
      DistinctSplit(original, i, ids);
      RemoveAt(a, e, b);
    }
  }
}
