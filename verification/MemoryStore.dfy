/** The list-backed store and its text search (iris/adapters/memory/in_memory.py, utils.py). */
module MemoryStore {
  import opened Prelude
  import opened Ordering
  import opened Counting
  import opened KeyedSeq
  import opened Ranking
  import opened MemoryContracts

  /** Text handling: the casefolded terms of a query and the casefolded text of a record. */
  datatype TextModel = TextModel(terms: string -> seq<string>, fold: string -> string)

  predicate Contains(text: string, term: string) {
    term <= text || (text != [] && Contains(text[1..], term))
  }

  function CountTerms(text: string, terms: seq<string>): (n: nat)
    ensures n <= |terms|
  {
    if terms == [] then 0 else (if Contains(text, terms[0]) then 1 else 0) + CountTerms(text, terms[1..])
  }

  function Score(r: MemoryRecord, q: MemoryQuery, m: TextModel): (n: nat) {
    CountTerms(m.fold(r.text), m.terms(q.text))
  }

  /** The term occurs somewhere in the text. */
  lemma {:induction false} ContainsIff(text: string, term: string)
    ensures Contains(text, term) <==> exists i :: 0 <= i <= |text| && term <= text[i..]
  {
    assert text[0..] == text;
    if text != [] {
      ContainsIff(text[1..], term);
      if i :| 0 <= i <= |text[1..]| && term <= text[1..][i..] { assert text[i + 1..] == text[1..][i..]; }
      if i :| 1 <= i <= |text| && term <= text[i..] { assert text[1..][i - 1..] == text[i..]; }
    }
  }

  ghost function OccursIn(text: string): (p: string -> bool) {
    (term: string) => exists i :: 0 <= i <= |text| && term <= text[i..]
  }

  lemma {:induction false} TermsCounted(text: string, terms: seq<string>)
    ensures CountTerms(text, terms) == Count(terms, OccursIn(text))
  {
    if terms != [] {
      ContainsIff(text, terms[0]);
      TermsCounted(text, terms[1..]);
    }
  }

  /** The score is the number of query terms that occur in the text, repeated terms counting repeatedly. */
  lemma ScoreCounts(r: MemoryRecord, q: MemoryQuery, m: TextModel)
    ensures Score(r, q, m) == |Places(m.terms(q.text), OccursIn(m.fold(r.text)))|
  {
    TermsCounted(m.fold(r.text), m.terms(q.text));
    CountIs(m.terms(q.text), OccursIn(m.fold(r.text)));
  }

  function Matching(rs: seq<MemoryRecord>, q: MemoryQuery): (r: seq<MemoryRecord>)
    ensures forall x :: x in r <==> x in rs && MatchesQuery(x, q)
  {
    if rs == [] then []
    else (if MatchesQuery(rs[0], q) then [rs[0]] else []) + Matching(rs[1..], q)
  }

  /** The scored hits among `rs`, with running indices from `at`. */
  function Hits(rs: seq<MemoryRecord>, q: MemoryQuery, m: TextModel, at: nat): (r: seq<Ranked<SearchResult>>) {
    if rs == [] then []
    else
      var s := Score(rs[0], q, m);
      var rest := Hits(rs[1..], q, m, at + 1);
      if s > 0 then [Ranked(s as real, at, SearchResult(rs[0], s as real))] + rest else rest
  }

  function TextSearch(rs: seq<MemoryRecord>, q: MemoryQuery, m: TextModel): (r: seq<SearchResult>) {
    if q.limit <= 0 then [] else Results(Top(Hits(Matching(rs, q), q, m, 0), q.limit))
  }

  lemma {:induction false} HitFacts(rs: seq<MemoryRecord>, q: MemoryQuery, m: TextModel, at: nat)
    ensures forall h :: h in Hits(rs, q, m, at) ==>
              && at <= h.index && h.result.record in rs
              && h.score == h.result.score == Score(h.result.record, q, m) as real > 0.0
    ensures Enumerated(Hits(rs, q, m, at))
  {
    if rs == [] {
    } else {
      HitFacts(rs[1..], q, m, at + 1);
      var s := Score(rs[0], q, m) as real;
      EnumeratedCons(Ranked(s, at, SearchResult(rs[0], s)), Hits(rs[1..], q, m, at + 1));
    }
  }

  lemma {:induction false} HitOf(rs: seq<MemoryRecord>, q: MemoryQuery, m: TextModel, at: nat, x: MemoryRecord)
    returns (h: Ranked<SearchResult>)
    requires x in rs && Score(x, q, m) > 0
    ensures h in Hits(rs, q, m, at) && h.result.record == x && h.score == Score(x, q, m) as real
  {
    if rs[0] == x {
      h := Hits(rs, q, m, at)[0];
    } else {
      h := HitOf(rs[1..], q, m, at + 1, x);
    }
  }

  /** Text search is the filtered, positively scored records in a stable descending sort, cut at the limit. */
  lemma TextSearchIsStableSort(rs: seq<MemoryRecord>, q: MemoryQuery, m: TextModel)
    requires q.limit > 0
    ensures var hits := Hits(Matching(rs, q), q, m, 0);
            var sorted := Results(SortBy(hits, ScoreLeq));
            TextSearch(rs, q, m) == if |sorted| <= q.limit then sorted else sorted[..q.limit]
  {
    var hits := Hits(Matching(rs, q), q, m, 0);
    HitFacts(Matching(rs, q), q, m, 0);
    RankIsStableScoreSort(hits);
  }

  /** Every result is a stored record that matches the filter, with its true positive score. */
  lemma TextSearchSound(rs: seq<MemoryRecord>, q: MemoryQuery, m: TextModel, i: nat)
    requires i < |TextSearch(rs, q, m)|
    ensures |TextSearch(rs, q, m)| <= q.limit
    ensures var x := TextSearch(rs, q, m)[i];
            x.record in rs && MatchesQuery(x.record, q) && x.score == Score(x.record, q, m) as real > 0.0
  {
    HitFacts(Matching(rs, q), q, m, 0);
    TopMember(Hits(Matching(rs, q), q, m, 0), q.limit, i);
  }

  /** If a matching record with a positive score is left out, then the limit is reached and no returned record
      scores lower. */
  lemma TextSearchKeepsBest(rs: seq<MemoryRecord>, q: MemoryQuery, m: TextModel, x: MemoryRecord)
    requires x in rs && MatchesQuery(x, q) && Score(x, q, m) > 0
    requires forall j :: 0 <= j < |TextSearch(rs, q, m)| ==> TextSearch(rs, q, m)[j].record != x
    ensures |TextSearch(rs, q, m)| == Cap(q.limit)
    ensures forall i :: 0 <= i < |TextSearch(rs, q, m)| ==>
            Score(x, q, m) <= Score(TextSearch(rs, q, m)[i].record, q, m)
  {
    if q.limit > 0 {
      var hits := Hits(Matching(rs, q), q, m, 0);
      var h := HitOf(Matching(rs, q), q, m, 0, x);
      forall j | 0 <= j < |Top(hits, q.limit)| ensures Top(hits, q.limit)[j] != h {
        assert TextSearch(rs, q, m)[j].record == Top(hits, q.limit)[j].result.record;
      }
      TopKeepsBest(hits, q.limit, h);
      HitFacts(Matching(rs, q), q, m, 0);
      forall i | 0 <= i < |Top(hits, q.limit)| ensures Top(hits, q.limit)[i] in hits { TopMember(hits, q.limit, i); }
    }
  }

  class InMemoryMemoryStore {
    var records: seq<MemoryRecord>

    /** No two records share an id. */
    ghost predicate Valid()
      reads this
    {
      Distinct(records, RecordId)
    }

    constructor (seed: seq<MemoryRecord>)
      ensures Valid() && records == PutAll([], RecordId, seed)
    {
      records := [];
      new;
      var i := 0;
      while i < |seed|
        invariant i <= |seed| && Valid() && records == PutAll([], RecordId, seed[..i])
      {
        assert seed[..i + 1] == seed[..i] + [seed[i]];
        PutAllConcat([], RecordId, seed[..i], [seed[i]]);
        assert PutAll(records, RecordId, [seed[i]]) == Put(records, RecordId, seed[i]);
        Upsert(seed[i]);
        i := i + 1;
      }
      assert seed[..i] == seed;
    }

    method Upsert(record: MemoryRecord)
      modifies this
      ensures records == Put(old(records), RecordId, record)
      ensures old(Valid()) ==> Valid() && View(records, RecordId) == old(View(records, RecordId))[record.id := record]
    {
      if Valid() { ViewPut(records, RecordId, record); }
      var i := 0;
      while i < |records|
        invariant i <= |records| && records == old(records)
        invariant forall j :: 0 <= j < i ==> records[j].id != record.id
      {
        if records[i].id == record.id {
          assert Find(records, RecordId, record.id) == i;
          records := records[i := record];
          return;
        }
        i := i + 1;
      }
      assert Find(records, RecordId, record.id) == |records|;
      records := records + [record];
    }

    /** `put` appends without looking for the id. */
    method Append(record: MemoryRecord)
      modifies this
      ensures records == old(records) + [record]
      ensures old(Valid()) ==> (Valid() <==> record.id !in old(View(records, RecordId)))
    {
      if Valid() {
        ViewLookup(records, RecordId, record.id);
        if Lookup(records, RecordId, record.id).Some? {
          var i := Find(records, RecordId, record.id);
          assert RecordId((records + [record])[i]) == RecordId((records + [record])[|records|]);
        }
      }
      records := records + [record];
    }

    method Get(memoryId: string) returns (r: Option<MemoryRecord>)
      ensures r == Lookup(records, RecordId, memoryId)
      ensures r == if memoryId in View(records, RecordId) then Some(View(records, RecordId)[memoryId]) else None
    {
      ViewLookup(records, RecordId, memoryId);
      var i := 0;
      while i < |records|
        invariant i <= |records|
        invariant forall j :: 0 <= j < i ==> records[j].id != memoryId
      {
        if records[i].id == memoryId {
          assert Find(records, RecordId, memoryId) == i;
          return Some(records[i]);
        }
        i := i + 1;
      }
      assert Find(records, RecordId, memoryId) == |records|;
      r := None;
    }

    method Update(record: MemoryRecord) returns (r: MemoryRecord)
      modifies this
      ensures r == record && records == Put(old(records), RecordId, record)
      ensures old(Valid()) ==> Valid() && View(records, RecordId) == old(View(records, RecordId))[record.id := record]
    {
      Upsert(record);
      r := record;
    }

    /** Sets the archived flag of the first record of that id and touches nothing else. */
    method Archive(memoryId: string, archived: bool) returns (r: Option<MemoryRecord>)
      modifies this
      ensures memoryId !in old(View(records, RecordId)) ==> r.None? && records == old(records)
      ensures memoryId in old(View(records, RecordId)) ==>
                && r == Some(old(View(records, RecordId))[memoryId].(archived := archived))
                && records == Put(old(records), RecordId, r.value)
      ensures Keys(records, RecordId) == Keys(old(records), RecordId)
      ensures old(Valid()) ==> Valid()
      ensures old(Valid()) && r.Some? ==> View(records, RecordId) == old(View(records, RecordId))[memoryId := r.value]
    {
      ViewLookup(records, RecordId, memoryId);
      var i := Find(records, RecordId, memoryId);
      if i == |records| { return None; }
      var updated := records[i].(archived := archived);
      PutSpec(records, RecordId, updated, memoryId);
      assert Keys(records, RecordId)[i] == memoryId;
      if Valid() { ViewPut(records, RecordId, updated); }
      if records[i].archived == archived {
        assert records[i := updated] == records;
        return Some(records[i]);
      }
      records := records[i := updated];
      r := Some(updated);
    }

    method Filter(q: MemoryQuery) returns (r: seq<MemoryRecord>)
      ensures r == Matching(records, q)
    {
      r := Matching(records, q);
    }

    method Search(q: MemoryQuery, m: TextModel) returns (r: seq<SearchResult>)
      ensures r == TextSearch(records, q, m)
    {
      var eligible := Filter(q);
      if q.limit <= 0 { return []; }
      var ranked: seq<Ranked<SearchResult>> := [];
      var i := 0;
      while i < |eligible|
        invariant i <= |eligible|
        invariant ranked + Hits(eligible[i..], q, m, i) == Hits(eligible, q, m, 0)
      {
        ghost var rest := eligible[i..];
        assert rest[0] == eligible[i] && rest[1..] == eligible[i + 1..];
        var score := Score(eligible[i], q, m);
        if score > 0 {
          ranked := ranked + [Ranked(score as real, i, SearchResult(eligible[i], score as real))];
        }
        i := i + 1;
      }
      assert eligible[i..] == [] && ranked + [] == ranked;
      r := Results(Top(ranked, q.limit));
    }
  }
}
