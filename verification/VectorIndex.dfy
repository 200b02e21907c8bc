/** The process-local vector index (iris/adapters/memory/vector_index.py). */
module VectorIndex {
  import opened Prelude
  import opened Ordering
  import opened KeyedSeq
  import opened Ranking
  import opened MemoryContracts

  datatype IndexError = InvalidEmbedding | DimensionMismatch

  type Cosine = (seq<real>, seq<real>) -> real

  /** Why `upsert` refuses an entry. */
  function UpsertError(e: VectorEntry): (r: Option<IndexError>) {
    if e.vector == [] then Some(InvalidEmbedding)
    else if |e.vector| != e.dimension then Some(DimensionMismatch)
    else None
  }

  /** The filtered entries scored against the query, with running indices from `at`. */
  function Scored(entries: seq<VectorEntry>, query: seq<real>, f: Option<VectorFilter>, cosine: Cosine, at: nat)
    : (r: seq<Ranked<VectorHit>>)
  {
    if entries == [] then []
    else
      var rest := Scored(entries[1..], query, f, cosine, at + 1);
      if !MatchesFilter(entries[0], f) then rest
      else
        var s := cosine(query, entries[0].vector);
        [Ranked(s, at, VectorHit(entries[0].memoryId, s))] + rest
  }

  predicate Comparable(entries: seq<VectorEntry>, query: seq<real>, f: Option<VectorFilter>) {
    forall e :: e in entries && MatchesFilter(e, f) ==> |e.vector| == |query|
  }

  function IndexSearch(entries: seq<VectorEntry>, query: seq<real>, limit: int, f: Option<VectorFilter>, cosine: Cosine)
    : (r: Outcome<seq<VectorHit>, IndexError>)
  {
    if limit <= 0 || entries == [] then Ok([])
    else if query == [] then Raised(InvalidEmbedding)
    else if !Comparable(entries, query, f) then Raised(DimensionMismatch)
    else Ok(Results(Top(Scored(entries, query, f, cosine, 0), limit)))
  }

  lemma {:induction false} ScoredFacts(entries: seq<VectorEntry>, query: seq<real>, f: Option<VectorFilter>,
                                       cosine: Cosine, at: nat)
    ensures forall h :: h in Scored(entries, query, f, cosine, at) ==>
              && at <= h.index && h.score == h.result.score
              && exists e :: e in entries && MatchesFilter(e, f)
                             && h.result == VectorHit(e.memoryId, cosine(query, e.vector))
    ensures Enumerated(Scored(entries, query, f, cosine, at))
  {
    if entries == [] {
    } else {
      ScoredFacts(entries[1..], query, f, cosine, at + 1);
      if MatchesFilter(entries[0], f) {
        assert entries[0] in entries;
        var s := cosine(query, entries[0].vector);
        EnumeratedCons(Ranked(s, at, VectorHit(entries[0].memoryId, s)),
                       Scored(entries[1..], query, f, cosine, at + 1));
      }
    }
  }

  lemma {:induction false} ScoredOf(entries: seq<VectorEntry>, query: seq<real>, f: Option<VectorFilter>,
                                    cosine: Cosine,
                                    at: nat, e: VectorEntry) returns (h: Ranked<VectorHit>)
    requires e in entries && MatchesFilter(e, f)
    ensures h in Scored(entries, query, f, cosine, at)
    ensures h.result == VectorHit(e.memoryId, cosine(query, e.vector)) && h.score == h.result.score
  {
    if entries[0] == e {
      h := Scored(entries, query, f, cosine, at)[0];
    } else {
      h := ScoredOf(entries[1..], query, f, cosine, at + 1, e);
    }
  }

  /** If an entry that passes the filter is not returned, then the limit is reached and no hit is further from the
      query. */
  lemma IndexSearchKeepsBest(entries: seq<VectorEntry>, query: seq<real>, limit: int, f: Option<VectorFilter>,
                             cosine: Cosine, e: VectorEntry)
    requires e in entries && MatchesFilter(e, f)
    ensures var r := IndexSearch(entries, query, limit, f, cosine);
            r.Ok? && VectorHit(e.memoryId, cosine(query, e.vector)) !in r.value ==>
              && |r.value| == Cap(limit)
              && forall i :: 0 <= i < |r.value| ==> cosine(query, e.vector) <= r.value[i].score
  {
    var r := IndexSearch(entries, query, limit, f, cosine);
    if limit > 0 && r.Ok? && VectorHit(e.memoryId, cosine(query, e.vector)) !in r.value {
      var scored := Scored(entries, query, f, cosine, 0);
      var h := ScoredOf(entries, query, f, cosine, 0, e);
      forall j | 0 <= j < |Top(scored, limit)| ensures Top(scored, limit)[j] != h {
        assert r.value[j] == Top(scored, limit)[j].result;
      }
      TopKeepsBest(scored, limit, h);
      ScoredFacts(entries, query, f, cosine, 0);
      forall i | 0 <= i < |Top(scored, limit)| ensures Top(scored, limit)[i] in scored { TopMember(scored, limit, i); }
    }
  }

  /** Every hit names an entry that passed the filter and carries that entry's similarity. */
  lemma IndexSearchSound(entries: seq<VectorEntry>, query: seq<real>, limit: int, f: Option<VectorFilter>,
                         cosine: Cosine, i: nat) returns (e: VectorEntry)
    requires IndexSearch(entries, query, limit, f, cosine).Ok?
             && i < |IndexSearch(entries, query, limit, f, cosine).value|
    ensures e in entries && MatchesFilter(e, f)
    ensures IndexSearch(entries, query, limit, f, cosine).value[i] == VectorHit(e.memoryId, cosine(query, e.vector))
  {
    var scored := Scored(entries, query, f, cosine, 0);
    ScoredFacts(entries, query, f, cosine, 0);
    TopMember(scored, limit, i);
    var h := Top(scored, limit)[i];
    e :| e in entries && MatchesFilter(e, f) && h.result == VectorHit(e.memoryId, cosine(query, e.vector));
  }

  /** A search fails exactly on an empty query vector, or when an entry it has to compare has another length; and it
      compares nothing when nothing is asked for or stored. */
  lemma IndexSearchRaisesIff(entries: seq<VectorEntry>, query: seq<real>, limit: int, f: Option<VectorFilter>,
                             cosine: Cosine)
    ensures var r, asked := IndexSearch(entries, query, limit, f, cosine), limit > 0 && entries != [];
            && (r == Raised(InvalidEmbedding) <==> asked && query == [])
            && (r == Raised(DimensionMismatch) <==>
                asked && query != [] && exists e :: e in entries && MatchesFilter(e, f) && |e.vector| != |query|)
            && (!asked ==> r == Ok([]))
  {
  }

  class InMemoryVectorMemoryIndex {
    var entries: seq<VectorEntry>

    ghost predicate Valid()
      reads this
    {
      Distinct(entries, EntryId)
    }

    constructor ()
      ensures Valid() && entries == []
    {
      entries := [];
    }

    method Upsert(entry: VectorEntry) returns (r: Outcome<(), IndexError>)
      requires Valid()
      modifies this
      ensures Valid()
      ensures r == if UpsertError(entry).Some? then Raised(UpsertError(entry).value) else Ok(())
      ensures r == Raised(InvalidEmbedding) <==> entry.vector == []
      ensures r == Raised(DimensionMismatch) <==> entry.vector != [] && |entry.vector| != entry.dimension
      ensures entries == if r.Ok? then Put(old(entries), EntryId, entry) else old(entries)
      ensures r.Ok? ==> View(entries, EntryId) == old(View(entries, EntryId))[entry.memoryId := entry]
    {
      if entry.vector == [] { return Raised(InvalidEmbedding); }
      if |entry.vector| != entry.dimension { return Raised(DimensionMismatch); }
      ViewPut(entries, EntryId, entry);
      entries := Put(entries, EntryId, entry);
      r := Ok(());
    }

    method Delete(memoryId: string)
      requires Valid()
      modifies this
      ensures Valid() && entries == Remove(old(entries), EntryId, memoryId)
      ensures View(entries, EntryId) == old(View(entries, EntryId)) - {memoryId}
    {
      ViewRemove(entries, EntryId, memoryId);
      RemoveSpec(entries, EntryId, memoryId);
      entries := Remove(entries, EntryId, memoryId);
    }

    method Search(query: seq<real>, limit: int, f: Option<VectorFilter>, cosine: Cosine)
      returns (r: Outcome<seq<VectorHit>, IndexError>)
      ensures r == IndexSearch(entries, query, limit, f, cosine)
    {
      if limit <= 0 || entries == [] { return Ok([]); }
      if query == [] { return Raised(InvalidEmbedding); }
      var ranked: seq<Ranked<VectorHit>> := [];
      var i := 0;
      while i < |entries|
        invariant i <= |entries|
        invariant ranked + Scored(entries[i..], query, f, cosine, i) == Scored(entries, query, f, cosine, 0)
        invariant forall j :: 0 <= j < i && MatchesFilter(entries[j], f) ==> |entries[j].vector| == |query|
      {
        ghost var rest := entries[i..];
        assert rest[0] == entries[i] && rest[1..] == entries[i + 1..];
        if MatchesFilter(entries[i], f) {
          if |entries[i].vector| != |query| { return Raised(DimensionMismatch); }
          var score := cosine(query, entries[i].vector);
          ranked := ranked + [Ranked(score, i, VectorHit(entries[i].memoryId, score))];
        }
        i := i + 1;
      }
      assert entries[i..] == [] && ranked + [] == ranked;
      r := Ok(Results(Top(ranked, limit)));
    }

    /** The index is a finite map by id. */
    method Metadata(memoryId: string) returns (r: Option<VectorEntry>)
      ensures r == if memoryId in View(entries, EntryId) then Some(View(entries, EntryId)[memoryId]) else None
    {
      ViewLookup(entries, EntryId, memoryId);
      r := Lookup(entries, EntryId, memoryId);
    }

    method Ids() returns (r: seq<string>)
      ensures r == Keys(entries, EntryId)
    {
      r := Keys(entries, EntryId);
    }
  }
}
