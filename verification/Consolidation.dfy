/** Deterministic consolidation of memory candidates (iris/cognitive/memory/consolidation.py). */
module Consolidation {
  import opened Prelude
  import opened Ordering
  import opened KeyedSeq
  import opened Dedupe
  import opened Reals
  import opened Grouping
  import opened MemoryContracts
  import opened PyText

  datatype Candidate = Candidate(
    id: string,
    text: string,
    kind: MemoryKind,
    salience: real,
    confidence: real,
    source: string,
    reason: Option<string>,
    retentionPolicy: string,
    sensitivity: string,
    actorId: Option<string>,
    accountId: Option<string>,
    spaceId: Option<string>,
    sourceObservationId: Option<string>,
    createdAt: real,
    metadata: map<string, string>)

  datatype Decision = Retained | Duplicate | Stale | Conflict | Superseded

  datatype Result = Result(
    candidateId: string,
    proposed: Candidate,
    decision: Decision,
    sourceIds: seq<string>,
    supersedes: seq<string>,
    confidence: real,
    reviewRequired: bool)

  /** The policy (`accept` judges a candidate, `cutoff` is `now` minus the retention window), the text
      normalisation and the id hash. */
  datatype Rules = Rules(
    accept: Candidate -> bool,
    normalize: string -> string,
    resultId: (Decision, seq<string>) -> string,
    cutoff: real)

  function SourceId(c: Candidate): (id: string) { c.id }

  predicate SourceLeq(a: Candidate, b: Candidate) { LexLeq(a.id, b.id) }

  predicate ResultLeq(a: Result, b: Result) { LexLeq(a.candidateId, b.candidateId) }

  // ----- deduplication ------------------------------------------------------------------------------

  function Accepted(cs: seq<Candidate>, rules: Rules): (r: seq<Candidate>) { Filter(cs, rules.accept) }

  /** `_unique_candidates`: a dict by id, then its values in id order. */
  function Unique(cs: seq<Candidate>, rules: Rules): (r: seq<Candidate>) {
    Deduped(cs, rules.accept, SourceId, SourceLeq)
  }

  lemma SourceOrder()
    ensures OrdersById(SourceLeq, SourceId)
  {
    LexOrder();
  }

  /** What survives deduplication: ids are distinct and ascending, and each keeps its last accepted candidate. */
  lemma UniqueSpec(cs: seq<Candidate>, rules: Rules)
    ensures var u := Unique(cs, rules);
            && Distinct(u, SourceId)
            && (forall i, j :: 0 <= i < j < |u| ==> LexLeq(u[i].id, u[j].id))
            && (forall c :: c in u <==> Last(Accepted(cs, rules), SourceId, c.id) == Some(c))
  {
    SourceOrder();
    DedupedSpec(cs, rules.accept, SourceId, SourceLeq);
    var u := Unique(cs, rules);
    assert forall i, j :: 0 <= i < j < |u| ==> SourceLeq(u[i], u[j]);
  }

  /** Under functional ids the survivors are exactly the accepted candidates. */
  lemma UniqueMembers(cs: seq<Candidate>, rules: Rules)
    requires Functional(Accepted(cs, rules), SourceId)
    ensures forall c :: c in Unique(cs, rules) <==> c in cs && rules.accept(c)
  {
    SourceOrder();
    DedupedMembers(cs, rules.accept, SourceId, SourceLeq);
  }

  /** Order and repetition of the input do not matter when equal ids carry equal content. */
  lemma UniqueDependsOnSet(cs: seq<Candidate>, ds: seq<Candidate>, rules: Rules)
    requires forall c :: c in cs <==> c in ds
    requires Functional(Accepted(cs, rules), SourceId)
    ensures Unique(cs, rules) == Unique(ds, rules)
  {
    SourceOrder();
    DependsOnSet(cs, ds, rules.accept, SourceId, SourceLeq);
  }

  /** Deduplication is independent of the input order exactly when equal accepted ids carry equal content. */
  lemma UniqueOrderIndependentIff(cs: seq<Candidate>, rules: Rules)
    ensures OrderIndependent(cs, rules.accept, SourceId, SourceLeq) <==> Functional(Accepted(cs, rules), SourceId)
  {
    SourceOrder();
    OrderIndependentIff(cs, rules.accept, SourceId, SourceLeq);
  }

  // ----- recent and stale ----------------------------------------------------------------------------

  function StaleOf(cs: seq<Candidate>, cutoff: real): (r: seq<Candidate>)
    ensures forall c :: c in r <==> c in cs && c.createdAt < cutoff
  {
    Filter(cs, (c: Candidate) => c.createdAt < cutoff)
  }

  function FreshOf(cs: seq<Candidate>, cutoff: real): (r: seq<Candidate>)
    ensures forall c :: c in r <==> c in cs && c.createdAt >= cutoff
  {
    Filter(cs, (c: Candidate) => c.createdAt >= cutoff)
  }

  // ----- grouping -----------------------------------------------------------------------------------

  datatype ScopeKey = ScopeKey(account: Option<string>, actor: Option<string>, space: Option<string>, kind: MemoryKind)

  type ScopeGroup = Group<ScopeKey, Candidate>

  function KeyOf(c: Candidate): (k: ScopeKey) { ScopeKey(c.accountId, c.actorId, c.spaceId, c.kind) }

  predicate OptLeq(a: Option<string>, b: Option<string>) {
    LexLeq(OrEmpty(a), OrEmpty(b))
  }

  function KindRank(k: MemoryKind): (n: nat) {
    match k
    case Episode => 0
    case Fact => 1
    case Note => 2
    case Preference => 3
    case RelationshipEvent => 4
    case Task => 5
  }

  /** The group sort key, in which a missing id counts as the empty string. */
  predicate KeyLeq(a: ScopeKey, b: ScopeKey) {
    if !OptLeq(b.account, a.account) then true
    else if !OptLeq(a.account, b.account) then false
    else if !OptLeq(b.actor, a.actor) then true
    else if !OptLeq(a.actor, b.actor) then false
    else if !OptLeq(b.space, a.space) then true
    else if !OptLeq(a.space, b.space) then false
    else KindRank(a.kind) <= KindRank(b.kind)
  }

  predicate GroupLeq(a: ScopeGroup, b: ScopeGroup) { KeyLeq(a.key, b.key) }

  function SortMembers(gs: seq<ScopeGroup>): (r: seq<ScopeGroup>)
    ensures |r| == |gs|
    ensures forall i :: 0 <= i < |gs| ==> r[i] == Group(gs[i].key, SortBy(gs[i].members, SourceLeq))
  {
    seq(|gs|, i requires 0 <= i < |gs| => Group(gs[i].key, SortBy(gs[i].members, SourceLeq)))
  }

  function GroupsOf(recent: seq<Candidate>): (r: seq<ScopeGroup>) {
    SortMembers(SortBy(GroupAll([], KeyOf, recent), GroupLeq))
  }

  lemma GroupsDistinct(recent: seq<Candidate>)
    ensures Distinct(GroupsOf(recent), GroupKey)
  {
    var dict := GroupAll([], KeyOf, recent);
    var sorted, gs := SortBy(dict, GroupLeq), GroupsOf(recent);
    GroupAllSpec([], KeyOf, recent, ScopeKey(None, None, None, Note));
    SortByDistinct(dict, GroupLeq, GroupKey);
    forall i, j | 0 <= i < j < |gs| ensures GroupKey(gs[i]) != GroupKey(gs[j]) {
      assert GroupKey(sorted[i]) != GroupKey(sorted[j]);
    }
  }

  lemma GroupOf(recent: seq<Candidate>, c: Candidate) returns (i: nat)
    requires Distinct(recent, SourceId) && c in recent
    ensures i < |GroupsOf(recent)| && c in GroupsOf(recent)[i].members
  {
    var dict := GroupAll([], KeyOf, recent);
    var g := GroupExists(recent, KeyOf, c);
    SortByElements(dict, GroupLeq, g);
    i :| 0 <= i < |SortBy(dict, GroupLeq)| && SortBy(dict, GroupLeq)[i] == g;
    ScopeContents(recent, i);
  }

  /** The groups are exactly the scopes present, each once, and each group holds exactly its scope's candidates,
      once each. */
  lemma GroupsSpec(recent: seq<Candidate>)
    requires Distinct(recent, SourceId)
    ensures var gs := GroupsOf(recent);
            && Distinct(gs, GroupKey)
            && (forall i :: 0 <= i < |gs| ==>
                  && gs[i].members != [] && Distinct(gs[i].members, SourceId)
                  && forall c :: c in gs[i].members <==>
                       && c in recent && c.accountId == gs[i].key.account && c.actorId == gs[i].key.actor
                       && c.spaceId == gs[i].key.space && c.kind == gs[i].key.kind)
            && (forall c :: c in recent ==> exists i :: 0 <= i < |gs| && c in gs[i].members)
  {
    var gs := GroupsOf(recent);
    GroupsDistinct(recent);
    forall i | 0 <= i < |gs|
      ensures gs[i].members != [] && Distinct(gs[i].members, SourceId)
      ensures forall c :: c in gs[i].members <==> c in recent && KeyOf(c) == gs[i].key
    {
      ScopeContents(recent, i);
    }
    forall c | c in recent ensures exists i :: 0 <= i < |gs| && c in gs[i].members {
      var i := GroupOf(recent, c);
    }
  }

  lemma ScopeContents(recent: seq<Candidate>, i: nat)
    requires Distinct(recent, SourceId) && i < |GroupsOf(recent)|
    ensures var g := GroupsOf(recent)[i];
            && g.members != [] && Distinct(g.members, SourceId)
            && forall c :: c in g.members <==> c in recent && KeyOf(c) == g.key
  {
    var dict := GroupAll([], KeyOf, recent);
    var g := SortBy(dict, GroupLeq)[i];
    SortByElements(dict, GroupLeq, g);
    GroupContents(recent, KeyOf, g);
    MembersDistinct(recent, KeyOf, g.key, SourceId);
    MembersSpec(recent, KeyOf, g.key);
    SortByPermutes(g.members, SourceLeq);
    SortByDistinct(g.members, SourceLeq, SourceId);
    forall c ensures c in SortBy(g.members, SourceLeq) <==> c in g.members { SortByElements(g.members, SourceLeq, c); }
  }

  lemma KindsByValue(j: MemoryKind, k: MemoryKind)
    ensures KindRank(j) <= KindRank(k) <==> LexLeq(KindName(j), KindName(k))
  {
    assert j != k ==> KindName(j)[0] != KindName(k)[0];
    LexTotal(KindName(j), KindName(k));
  }

  lemma ScopeOrder()
    ensures TotalPreorder(GroupLeq)
  {
    forall a: ScopeGroup, b: ScopeGroup ensures GroupLeq(a, b) || GroupLeq(b, a) {
      LexOrder();
    }
    forall a: ScopeGroup, b: ScopeGroup, c: ScopeGroup | GroupLeq(a, b) && GroupLeq(b, c) ensures GroupLeq(a, c) {
      KeyTransitive(a.key, b.key, c.key);
    }
  }

  lemma KeyTransitive(a: ScopeKey, b: ScopeKey, c: ScopeKey)
    requires KeyLeq(a, b) && KeyLeq(b, c)
    ensures KeyLeq(a, c)
  {
    LexOrder();
    assert OptLeq(a.account, b.account) && OptLeq(b.account, c.account);
    if OptLeq(c.account, a.account) {
      assert OptLeq(a.actor, b.actor) && OptLeq(b.actor, c.actor);
      if OptLeq(c.actor, a.actor) { assert OptLeq(a.space, b.space) && OptLeq(b.space, c.space); }
    }
  }

  /** The groups come by account, actor, space and value of the kind, a missing id counting as the empty one. */
  lemma GroupsInOrder(recent: seq<Candidate>, i: nat, j: nat)
    requires i < j < |GroupsOf(recent)|
    ensures var a, b := GroupsOf(recent)[i].key, GroupsOf(recent)[j].key;
            && LexLeq(OrEmpty(a.account), OrEmpty(b.account))
            && (OrEmpty(a.account) == OrEmpty(b.account) ==>
                  && LexLeq(OrEmpty(a.actor), OrEmpty(b.actor))
                  && (OrEmpty(a.actor) == OrEmpty(b.actor) ==>
                        && LexLeq(OrEmpty(a.space), OrEmpty(b.space))
                        && (OrEmpty(a.space) == OrEmpty(b.space) ==> LexLeq(KindName(a.kind), KindName(b.kind)))))
  {
    var dict := GroupAll([], KeyOf, recent);
    ScopeOrder();
    SortBySorted(dict, GroupLeq);
    var a, b := GroupsOf(recent)[i].key, GroupsOf(recent)[j].key;
    assert GroupLeq(SortBy(dict, GroupLeq)[i], SortBy(dict, GroupLeq)[j]);
    LexOrder();
    KindsByValue(a.kind, b.kind);
  }

  lemma ScopeAscends(recent: seq<Candidate>, i: nat)
    requires Distinct(recent, SourceId) && i < |GroupsOf(recent)|
    ensures Ascending(Ids(GroupsOf(recent)[i].members))
  {
    var members := GroupsOf(recent)[i].members;
    ScopeContents(recent, i);
    LexOrder();
    SortBySorted(SortBy(GroupAll([], KeyOf, recent), GroupLeq)[i].members, SourceLeq);
    forall j, k | 0 <= j < k < |members|
      ensures LexLeq(members[j].id, members[k].id) && members[j].id != members[k].id
    {
      assert SourceLeq(members[j], members[k]) && SourceId(members[j]) != SourceId(members[k]);
    }
  }

  // ----- results ------------------------------------------------------------------------------------

  predicate QualityLeq(a: Candidate, b: Candidate) {
    a.confidence < b.confidence || (a.confidence == b.confidence && LexLeq(a.id, b.id))
  }

  predicate NewestLeq(a: Candidate, b: Candidate) {
    a.createdAt < b.createdAt || (a.createdAt == b.createdAt && QualityLeq(a, b))
  }

  /** Python's `max(xs, key=...)`: the first of the greatest. */
  function MaxBy(xs: seq<Candidate>, leq: (Candidate, Candidate) -> bool): (m: Candidate)
    requires xs != []
    ensures m in xs
  {
    if |xs| == 1 then xs[0]
    else
      var m := MaxBy(xs[1..], leq);
      if leq(m, xs[0]) then xs[0] else m
  }

  lemma {:induction false} MaxByGreatest(xs: seq<Candidate>, leq: (Candidate, Candidate) -> bool)
    requires xs != [] && TotalPreorder(leq)
    ensures forall x :: x in xs ==> leq(x, MaxBy(xs, leq))
  {
    if |xs| > 1 { MaxByGreatest(xs[1..], leq); }
  }

  function Confidence(x: Candidate): (c: real) { x.confidence }

  function Ids(cs: seq<Candidate>): (r: seq<string>) { Keys(cs, SourceId) }

  function Without(ids: seq<string>, id: string): (r: seq<string>) {
    if ids == [] then [] else if ids[0] != id then [ids[0]] + Without(ids[1..], id) else Without(ids[1..], id)
  }

  lemma {:induction false} WithoutSpec(ids: seq<string>, id: string)
    ensures forall s :: s in Without(ids, id) <==> s in ids && s != id
  {
    if ids != [] { WithoutSpec(ids[1..], id); }
  }

  /** All candidates say the same thing after normalisation. */
  predicate OneText(cs: seq<Candidate>, rules: Rules)
    requires cs != []
  {
    forall c :: c in cs ==> rules.normalize(c.text) == rules.normalize(cs[0].text)
  }

  function BuildGroup(members: seq<Candidate>, rules: Rules): (r: Result)
    requires members != []
    ensures r.sourceIds == Ids(members) && r.proposed in members && r.reviewRequired
  {
    var ids := Ids(members);
    if OneText(members, rules) then
      var decision := if |members| > 1 then Duplicate else Retained;
      Result(rules.resultId(decision, ids), MaxBy(members, QualityLeq), decision, ids, [],
             MaxOver(members, Confidence), true)
    else
      var proposed := MaxBy(members, NewestLeq);
      Result(rules.resultId(Conflict, ids), proposed, Conflict, ids, Without(ids, proposed.id),
             MinOver(members, Confidence), true)
  }

  function BuildStale(c: Candidate, rules: Rules): (r: Result) {
    Result(rules.resultId(Stale, [c.id]), c, Stale, [c.id], [], c.confidence, true)
  }

  ghost predicate Nonempty(gs: seq<ScopeGroup>) { forall i :: 0 <= i < |gs| ==> gs[i].members != [] }

  function BuildGroups(gs: seq<ScopeGroup>, rules: Rules): (r: seq<Result>)
    requires Nonempty(gs)
    ensures |r| == |gs|
  {
    seq(|gs|, i requires 0 <= i < |gs| && gs[i].members != [] => BuildGroup(gs[i].members, rules))
  }

  lemma BuildGroupsAt(gs: seq<ScopeGroup>, rules: Rules, i: nat)
    requires Nonempty(gs) && i < |gs|
    ensures BuildGroups(gs, rules)[i] == BuildGroup(gs[i].members, rules)
  {
  }

  function BuildStales(cs: seq<Candidate>, rules: Rules): (r: seq<Result>)
    ensures |r| == |cs|
    ensures forall i :: 0 <= i < |cs| ==> r[i] == BuildStale(cs[i], rules)
  {
    seq(|cs|, i requires 0 <= i < |cs| => BuildStale(cs[i], rules))
  }

  lemma StaleDistinct(cs: seq<Candidate>, cutoff: real)
    requires Distinct(cs, SourceId)
    ensures Distinct(StaleOf(cs, cutoff), SourceId) && Distinct(FreshOf(cs, cutoff), SourceId)
  {
    FilterDistinct(cs, (c: Candidate) => c.createdAt < cutoff, SourceId);
    FilterDistinct(cs, (c: Candidate) => c.createdAt >= cutoff, SourceId);
  }

  /** The results before the final sort, from deduplicated candidates. */
  function Unsorted(u: seq<Candidate>, rules: Rules): (r: seq<Result>)
    requires Distinct(u, SourceId)
  {
    StaleDistinct(u, rules.cutoff);
    GroupsSpec(FreshOf(u, rules.cutoff));
    BuildStales(StaleOf(u, rules.cutoff), rules) + BuildGroups(GroupsOf(FreshOf(u, rules.cutoff)), rules)
  }

  function Consolidate(cs: seq<Candidate>, rules: Rules): (r: seq<Result>) {
    UniqueSpec(cs, rules);
    SortBy(Unsorted(Unique(cs, rules), rules), ResultLeq)
  }

  /** The same set of candidates, however ordered or repeated, gives the identical result sequence. */
  lemma ConsolidateDependsOnSet(cs: seq<Candidate>, ds: seq<Candidate>, rules: Rules)
    requires forall c :: c in cs <==> c in ds
    requires Functional(Accepted(cs, rules), SourceId)
    ensures Consolidate(cs, rules) == Consolidate(ds, rules)
  {
    UniqueDependsOnSet(cs, ds, rules);
  }

  // ----- partition ----------------------------------------------------------------------------------

  lemma SameId(u: seq<Candidate>, a: Candidate, b: Candidate)
    requires Distinct(u, SourceId) && a in u && b in u && a.id == b.id
    ensures a == b
  {
    var i :| 0 <= i < |u| && u[i] == a;
    var j :| 0 <= j < |u| && u[j] == b;
  }

  /** How deduplicated candidates split into stale ones and scope groups. */
  ghost predicate Split(u: seq<Candidate>, stale: seq<Candidate>, groups: seq<ScopeGroup>) {
    && Distinct(u, SourceId) && Distinct(stale, SourceId) && Distinct(groups, GroupKey)
    && (forall c :: c in stale ==> c in u)
    && (forall i, c :: 0 <= i < |groups| && c in groups[i].members ==>
          c in u && c !in stale && KeyOf(c) == groups[i].key)
    && (forall c :: c in u ==> c in stale || exists i :: 0 <= i < |groups| && c in groups[i].members)
  }

  /** Which candidates stand behind which result. */
  ghost predicate Describes(l: seq<Result>, stale: seq<Candidate>, groups: seq<ScopeGroup>) {
    && |l| == |stale| + |groups|
    && (forall i :: 0 <= i < |stale| ==>
          l[i].sourceIds == [stale[i].id] && l[i].proposed == stale[i] && l[i].reviewRequired)
    && (forall i :: |stale| <= i < |l| ==>
          && l[i].sourceIds == Ids(groups[i - |stale|].members)
          && l[i].proposed in groups[i - |stale|].members && l[i].reviewRequired)
  }

  lemma SplitByAge(u: seq<Candidate>, cutoff: real)
    requires Distinct(u, SourceId)
    ensures Split(u, StaleOf(u, cutoff), GroupsOf(FreshOf(u, cutoff)))
    ensures Nonempty(GroupsOf(FreshOf(u, cutoff)))
  {
    StaleDistinct(u, cutoff);
    var recent := FreshOf(u, cutoff);
    GroupsSpec(recent);
    forall c | c in u
      ensures c in StaleOf(u, cutoff) || exists i :: 0 <= i < |GroupsOf(recent)| && c in GroupsOf(recent)[i].members
    {
      assert c in StaleOf(u, cutoff) || c in recent;
    }
  }

  lemma BuiltDescribed(stale: seq<Candidate>, groups: seq<ScopeGroup>, rules: Rules)
    requires Nonempty(groups)
    ensures Describes(BuildStales(stale, rules) + BuildGroups(groups, rules), stale, groups)
  {
    forall i | 0 <= i < |groups|
      ensures var r := BuildGroups(groups, rules)[i];
              r.sourceIds == Ids(groups[i].members) && r.proposed in groups[i].members && r.reviewRequired
    {
      BuildGroupsAt(groups, rules, i);
    }
    ConcatDescribed(BuildStales(stale, rules), BuildGroups(groups, rules), stale, groups);
  }

  lemma ConcatDescribed(a: seq<Result>, b: seq<Result>, stale: seq<Candidate>, groups: seq<ScopeGroup>)
    requires |a| == |stale| && |b| == |groups|
    requires forall i :: 0 <= i < |a| ==>
               a[i].sourceIds == [stale[i].id] && a[i].proposed == stale[i] && a[i].reviewRequired
    requires forall i :: 0 <= i < |b| ==>
               b[i].sourceIds == Ids(groups[i].members) && b[i].proposed in groups[i].members && b[i].reviewRequired
    ensures Describes(a + b, stale, groups)
  {
    forall i | |a| <= i < |a + b| ensures (a + b)[i] == b[i - |a|] {}
  }

  lemma UnsortedDescribed(u: seq<Candidate>, rules: Rules)
    requires Distinct(u, SourceId)
    ensures Split(u, StaleOf(u, rules.cutoff), GroupsOf(FreshOf(u, rules.cutoff)))
    ensures Describes(Unsorted(u, rules), StaleOf(u, rules.cutoff), GroupsOf(FreshOf(u, rules.cutoff)))
  {
    SplitByAge(u, rules.cutoff);
    BuiltDescribed(StaleOf(u, rules.cutoff), GroupsOf(FreshOf(u, rules.cutoff)), rules);
  }

  lemma IdsMember(members: seq<Candidate>, id: string) returns (c: Candidate)
    requires id in Ids(members)
    ensures c in members && c.id == id
  {
    var k :| 0 <= k < |Ids(members)| && Ids(members)[k] == id;
    c := members[k];
  }

  lemma MemberId(members: seq<Candidate>, c: Candidate)
    requires c in members
    ensures c.id in Ids(members)
  {
    var n :| 0 <= n < |members| && members[n] == c;
    assert Ids(members)[n] == c.id;
  }

  /** A source id of a result names one of the candidates behind it. */
  lemma SourceOf(u: seq<Candidate>, l: seq<Result>, stale: seq<Candidate>, groups: seq<ScopeGroup>, i: nat, id: string)
    returns (c: Candidate)
    requires Split(u, stale, groups) && Describes(l, stale, groups) && i < |l| && id in l[i].sourceIds
    ensures c in u && c.id == id && if i < |stale| then c == stale[i] else c in groups[i - |stale|].members
  {
    if i < |stale| { c := stale[i]; } else { c := IdsMember(groups[i - |stale|].members, id); }
  }

  lemma OwnerExists(u: seq<Candidate>, l: seq<Result>, stale: seq<Candidate>, groups: seq<ScopeGroup>, c: Candidate)
    returns (i: nat)
    requires Split(u, stale, groups) && Describes(l, stale, groups) && c in u
    ensures i < |l| && c.id in l[i].sourceIds
  {
    if c in stale {
      i :| 0 <= i < |stale| && stale[i] == c;
    } else {
      var k :| 0 <= k < |groups| && c in groups[k].members;
      i := |stale| + k;
      MemberId(groups[k].members, c);
    }
  }

  lemma OwnerUnique(u: seq<Candidate>, l: seq<Result>, stale: seq<Candidate>, groups: seq<ScopeGroup>, id: string,
                    i: nat, j: nat)
    requires Split(u, stale, groups) && Describes(l, stale, groups) && i < |l| && j < |l|
    requires id in l[i].sourceIds && id in l[j].sourceIds
    ensures i == j
  {
    var a := SourceOf(u, l, stale, groups, i, id);
    var b := SourceOf(u, l, stale, groups, j, id);
    SameId(u, a, b);
    if i >= |stale| && j >= |stale| {
      assert GroupKey(groups[i - |stale|]) == KeyOf(a) == GroupKey(groups[j - |stale|]);
    } else if i < |stale| && j < |stale| {
      assert SourceId(stale[i]) == SourceId(stale[j]);
    }
  }

  function SourceIds(r: Result): (ids: seq<string>) { r.sourceIds }

  lemma ResultShape(l: seq<Result>, stale: seq<Candidate>, groups: seq<ScopeGroup>, i: nat)
    requires Describes(l, stale, groups) && i < |l|
    ensures l[i].proposed.id in l[i].sourceIds
  {
    if i >= |stale| { MemberId(groups[i - |stale|].members, l[i].proposed); }
  }

  lemma UnsortedDistinct(u: seq<Candidate>, l: seq<Result>, stale: seq<Candidate>, groups: seq<ScopeGroup>)
    requires Split(u, stale, groups) && Describes(l, stale, groups)
    ensures Distinct(l, SourceIds)
  {
    forall i, j | 0 <= i < j < |l| ensures SourceIds(l[i]) != SourceIds(l[j]) {
      ResultShape(l, stale, groups, i);
      if l[i].proposed.id in l[j].sourceIds { OwnerUnique(u, l, stale, groups, l[i].proposed.id, i, j); }
    }
  }

  lemma SortedFrom(l: seq<Result>, i: nat) returns (a: nat)
    requires i < |SortBy(l, ResultLeq)|
    ensures a < |l| && l[a] == SortBy(l, ResultLeq)[i]
  {
    SortByElements(l, ResultLeq, SortBy(l, ResultLeq)[i]);
    a :| 0 <= a < |l| && l[a] == SortBy(l, ResultLeq)[i];
  }

  /** Consolidation partitions the accepted ids: each occurs among the sources of exactly one result, and
      nothing else does. */
  lemma {:induction false} Partition(cs: seq<Candidate>, rules: Rules, id: string)
    ensures var r := Consolidate(cs, rules);
            && (forall i, j :: 0 <= i < |r| && 0 <= j < |r| && id in r[i].sourceIds && id in r[j].sourceIds ==> i == j)
            && ((exists i :: 0 <= i < |r| && id in r[i].sourceIds) <==>
                (exists c :: c in cs && rules.accept(c) && c.id == id))
  {
    var u := Unique(cs, rules);
    UniqueSpec(cs, rules);
    UnsortedDescribed(u, rules);
    PartitionOf(u, Unsorted(u, rules), StaleOf(u, rules.cutoff), GroupsOf(FreshOf(u, rules.cutoff)), id);
    AcceptedIds(cs, rules, id);
  }

  lemma {:induction false} AcceptedIds(cs: seq<Candidate>, rules: Rules, id: string)
    ensures (exists c :: c in Unique(cs, rules) && c.id == id) <==>
            (exists c :: c in cs && rules.accept(c) && c.id == id)
  {
    UniqueSpec(cs, rules);
    if c :| c in Unique(cs, rules) && c.id == id { assert c in Accepted(cs, rules); }
    if c :| c in cs && rules.accept(c) && c.id == id {
      assert c in Accepted(cs, rules);
      assert Last(Accepted(cs, rules), SourceId, id).value in Unique(cs, rules);
    }
  }

  lemma ResultWith(cs: seq<Candidate>, rules: Rules, c: Candidate) returns (i: nat)
    requires c in cs && rules.accept(c)
    ensures i < |Consolidate(cs, rules)| && c.id in Consolidate(cs, rules)[i].sourceIds
  {
    Partition(cs, rules, c.id);
    i :| 0 <= i < |Consolidate(cs, rules)| && c.id in Consolidate(cs, rules)[i].sourceIds;
  }

  lemma PartitionOf(u: seq<Candidate>, l: seq<Result>, stale: seq<Candidate>, groups: seq<ScopeGroup>, id: string)
    requires Split(u, stale, groups) && Describes(l, stale, groups)
    ensures var r := SortBy(l, ResultLeq);
            && (forall i, j :: 0 <= i < |r| && 0 <= j < |r| && id in r[i].sourceIds && id in r[j].sourceIds ==> i == j)
            && ((exists i :: 0 <= i < |r| && id in r[i].sourceIds) <==> exists c :: c in u && c.id == id)
  {
    var r := SortBy(l, ResultLeq);
    UnsortedDistinct(u, l, stale, groups);
    SortByDistinct(l, ResultLeq, SourceIds);
    forall i, j | 0 <= i < |r| && 0 <= j < |r| && id in r[i].sourceIds && id in r[j].sourceIds ensures i == j {
      var a := SortedFrom(l, i);
      var b := SortedFrom(l, j);
      OwnerUnique(u, l, stale, groups, id, a, b);
      assert SourceIds(r[i]) == SourceIds(r[j]);
    }
    if i :| 0 <= i < |r| && id in r[i].sourceIds {
      var a := SortedFrom(l, i);
      var c := SourceOf(u, l, stale, groups, a, id);
    }
    if c :| c in u && c.id == id {
      var a := OwnerExists(u, l, stale, groups, c);
      SortByElements(l, ResultLeq, l[a]);
      var i :| 0 <= i < |r| && r[i] == l[a];
    }
  }

  // ----- decisions ----------------------------------------------------------------------------------

  lemma QualityOrders()
    ensures TotalPreorder(QualityLeq) && TotalPreorder(NewestLeq)
  {
    LexOrder();
  }

  /** At least as confident, and of the same confidence with an id at least as great. */
  ghost predicate Better(a: Candidate, b: Candidate) {
    b.confidence <= a.confidence && (b.confidence == a.confidence ==> LexLeq(b.id, a.id))
  }

  /** The ids ascend, each once. */
  ghost predicate Ascending(ids: seq<string>) {
    forall i, j :: 0 <= i < j < |ids| ==> LexLeq(ids[i], ids[j]) && ids[i] != ids[j]
  }

  /** The right result for one scope: retained alone, duplicate when all say the same, conflict otherwise; a
      conflict proposes the newest candidate, supersedes all others and trusts the least confident. */
  ghost predicate Explains(r: Result, members: seq<Candidate>, rules: Rules) {
    && r.sourceIds == Ids(members) && r.proposed in members && r.reviewRequired
    && r.candidateId == rules.resultId(r.decision, r.sourceIds)
    && (r.decision == Retained <==> |members| == 1)
    && (r.decision == Conflict <==>
        exists a, b :: a in members && b in members && rules.normalize(a.text) != rules.normalize(b.text))
    && r.decision in {Retained, Duplicate, Conflict}
    && (exists c :: c in members && c.confidence == r.confidence)
    && (r.decision == Conflict ==>
          && (forall c :: c in members ==>
                && c.createdAt <= r.proposed.createdAt && r.confidence <= c.confidence
                && (c.createdAt == r.proposed.createdAt ==> Better(r.proposed, c)))
          && (forall s :: s in r.supersedes <==> s in r.sourceIds && s != r.proposed.id))
    && (r.decision != Conflict ==>
          && (forall c :: c in members ==> Better(r.proposed, c) && c.confidence <= r.confidence)
          && r.supersedes == [])
  }

  lemma BestOf(members: seq<Candidate>, c: Candidate)
    requires c in members
    ensures Better(MaxBy(members, QualityLeq), c)
    ensures var n := MaxBy(members, NewestLeq);
            c.createdAt <= n.createdAt && (c.createdAt == n.createdAt ==> Better(n, c))
  {
    QualityOrders();
    MaxByGreatest(members, QualityLeq);
    MaxByGreatest(members, NewestLeq);
    assert QualityLeq(c, MaxBy(members, QualityLeq)) && NewestLeq(c, MaxBy(members, NewestLeq));
  }

  lemma BuildGroupExplains(members: seq<Candidate>, rules: Rules)
    requires members != []
    ensures Explains(BuildGroup(members, rules), members, rules)
  {
    MaxOverSpec(members, Confidence);
    MinOverSpec(members, Confidence);
    forall c | c in members
      ensures Better(MaxBy(members, QualityLeq), c)
      ensures var n := MaxBy(members, NewestLeq);
              c.createdAt <= n.createdAt && (c.createdAt == n.createdAt ==> Better(n, c))
    {
      BestOf(members, c);
    }
    WithoutSpec(Ids(members), MaxBy(members, NewestLeq).id);
    assert members[0] in members;
    if |members| == 1 { assert forall c :: c in members ==> c == members[0]; }
  }

  lemma {:induction false} WithoutAscends(ids: seq<string>, id: string)
    requires Ascending(ids)
    ensures Ascending(Without(ids, id))
  {
    if ids != [] {
      WithoutAscends(ids[1..], id);
      WithoutSpec(ids[1..], id);
      var rest := Without(ids[1..], id);
      forall j | 0 <= j < |rest| ensures LexLeq(ids[0], rest[j]) && ids[0] != rest[j] {
        assert rest[j] in rest;
        var k :| 0 <= k < |ids[1..]| && ids[1..][k] == rest[j];
        assert ids[k + 1] == rest[j];
      }
    }
  }

  lemma GroupAscends(members: seq<Candidate>, rules: Rules)
    requires members != [] && Ascending(Ids(members))
    ensures Ascending(BuildGroup(members, rules).sourceIds) && Ascending(BuildGroup(members, rules).supersedes)
  {
    WithoutAscends(Ids(members), MaxBy(members, NewestLeq).id);
  }

  /** A stale candidate on its own, or the right result for all recent candidates of one scope. */
  ghost predicate Decided(r: Result, members: seq<Candidate>, u: seq<Candidate>, rules: Rules) {
    && r.proposed in u
    && (r.decision == Stale <==> r.proposed.createdAt < rules.cutoff)
    && (r.decision == Stale ==>
          && r.candidateId == rules.resultId(Stale, [r.proposed.id]) && r.sourceIds == [r.proposed.id]
          && r.supersedes == [] && r.confidence == r.proposed.confidence && r.reviewRequired)
    && (r.decision != Stale ==>
          && Explains(r, members, rules) && Distinct(members, SourceId) && Ascending(r.sourceIds)
          && Ascending(r.supersedes)
          && forall c :: c in members <==> c in u && c.createdAt >= rules.cutoff && SameScope(c, r.proposed))
  }

  /** The same account, actor, space and kind. */
  ghost predicate SameScope(a: Candidate, b: Candidate) {
    a.accountId == b.accountId && a.actorId == b.actorId && a.spaceId == b.spaceId && a.kind == b.kind
  }

  lemma StaleDecided(c: Candidate, u: seq<Candidate>, rules: Rules)
    requires c in u && c.createdAt < rules.cutoff
    ensures Decided(BuildStale(c, rules), [], u, rules)
  {
  }

  lemma GroupDecided(members: seq<Candidate>, k: ScopeKey, u: seq<Candidate>, rules: Rules)
    requires members != [] && Distinct(members, SourceId) && Ascending(Ids(members))
    requires forall c :: c in members <==> c in u && c.createdAt >= rules.cutoff && KeyOf(c) == k
    ensures Decided(BuildGroup(members, rules), members, u, rules)
  {
    BuildGroupExplains(members, rules);
    GroupAscends(members, rules);
    var p := BuildGroup(members, rules).proposed;
    assert p in members;
    assert forall c :: KeyOf(c) == k <==> SameScope(c, p);
  }

  /** Each group holds exactly the recent candidates of its scope, once each. */
  ghost predicate Grouped(groups: seq<ScopeGroup>, u: seq<Candidate>, cutoff: real) {
    forall i :: 0 <= i < |groups| ==>
      && groups[i].members != [] && Distinct(groups[i].members, SourceId) && Ascending(Ids(groups[i].members))
      && forall c :: c in groups[i].members <==> c in u && c.createdAt >= cutoff && KeyOf(c) == groups[i].key
  }

  lemma {:induction false} GroupedByAge(u: seq<Candidate>, cutoff: real)
    requires Distinct(u, SourceId)
    ensures Grouped(GroupsOf(FreshOf(u, cutoff)), u, cutoff)
  {
    StaleDistinct(u, cutoff);
    var recent := FreshOf(u, cutoff);
    forall i | 0 <= i < |GroupsOf(recent)|
      ensures var g := GroupsOf(recent)[i];
              && g.members != [] && Distinct(g.members, SourceId) && Ascending(Ids(g.members))
              && forall c :: c in g.members <==> c in u && c.createdAt >= cutoff && KeyOf(c) == g.key
    {
      ScopeContents(recent, i);
      ScopeAscends(recent, i);
    }
  }

  ghost predicate IsDecided(r: Result, u: seq<Candidate>, rules: Rules) {
    exists members :: Decided(r, members, u, rules)
  }

  ghost predicate AllDecided(l: seq<Result>, u: seq<Candidate>, rules: Rules) {
    forall i :: 0 <= i < |l| ==> IsDecided(l[i], u, rules)
  }

  lemma StalesDecided(stale: seq<Candidate>, u: seq<Candidate>, rules: Rules)
    requires forall c :: c in stale ==> c in u && c.createdAt < rules.cutoff
    ensures AllDecided(BuildStales(stale, rules), u, rules)
  {
    forall i | 0 <= i < |stale| ensures IsDecided(BuildStales(stale, rules)[i], u, rules) {
      assert stale[i] in stale;
      StaleDecided(stale[i], u, rules);
      assert Decided(BuildStales(stale, rules)[i], [], u, rules);
    }
  }

  lemma GroupsDecided(groups: seq<ScopeGroup>, u: seq<Candidate>, rules: Rules)
    requires Grouped(groups, u, rules.cutoff) && Nonempty(groups)
    ensures AllDecided(BuildGroups(groups, rules), u, rules)
  {
    forall i | 0 <= i < |groups| ensures IsDecided(BuildGroups(groups, rules)[i], u, rules) {
      BuildGroupsAt(groups, rules, i);
      GroupDecided(groups[i].members, groups[i].key, u, rules);
    }
  }

  lemma ConcatDecided(x: seq<Result>, y: seq<Result>, u: seq<Candidate>, rules: Rules)
    requires AllDecided(x, u, rules) && AllDecided(y, u, rules)
    ensures AllDecided(x + y, u, rules)
  {
    forall i | 0 <= i < |x + y| ensures IsDecided((x + y)[i], u, rules) {
      assert (x + y)[i] == if i < |x| then x[i] else y[i - |x|];
    }
  }

  lemma {:induction false} UnsortedDecided(u: seq<Candidate>, rules: Rules)
    requires Distinct(u, SourceId)
    ensures AllDecided(Unsorted(u, rules), u, rules)
  {
    var stale, groups := StaleOf(u, rules.cutoff), GroupsOf(FreshOf(u, rules.cutoff));
    SplitByAge(u, rules.cutoff);
    GroupedByAge(u, rules.cutoff);
    StalesDecided(stale, u, rules);
    GroupsDecided(groups, u, rules);
    ConcatDecided(BuildStales(stale, rules), BuildGroups(groups, rules), u, rules);
  }

  /** Every result is decided rightly. */
  lemma {:induction false} DecisionSpec(cs: seq<Candidate>, rules: Rules, i: nat) returns (members: seq<Candidate>)
    ensures i < |Consolidate(cs, rules)| ==> Decided(Consolidate(cs, rules)[i], members, Unique(cs, rules), rules)
  {
    var u := Unique(cs, rules);
    UniqueSpec(cs, rules);
    members := [];
    if i < |Consolidate(cs, rules)| {
      UnsortedDecided(u, rules);
      var a := SortedFrom(Unsorted(u, rules), i);
      assert IsDecided(Unsorted(u, rules)[a], u, rules);
      members :| Decided(Unsorted(u, rules)[a], members, u, rules);
    }
  }

  /** Results come out in ascending order of their ids. */
  lemma OutputOrdered(cs: seq<Candidate>, rules: Rules)
    ensures var r := Consolidate(cs, rules);
            forall i, j :: 0 <= i < j < |r| ==> LexLeq(r[i].candidateId, r[j].candidateId)
  {
    LexOrder();
    UniqueSpec(cs, rules);
    SortBySorted(Unsorted(Unique(cs, rules), rules), ResultLeq);
    var r := Consolidate(cs, rules);
    assert forall i, j :: 0 <= i < j < |r| ==> ResultLeq(r[i], r[j]);
  }

  // ----- the result contract ------------------------------------------------------------------------

  /** The contract of a source candidate: its id must not be empty, but may be blank. */
  predicate CandidateValid(c: Candidate) {
    c.id != "" && c.text != "" && 0.0 <= c.salience <= 1.0 && 0.0 <= c.confidence <= 1.0
  }

  /** The contract of a consolidation result. (Its own id and reason begin with fixed text.) */
  ghost predicate ResultValid(r: Result) {
    && r.reviewRequired && r.sourceIds != [] && r.proposed.id in r.sourceIds
    && (forall s :: s in r.sourceIds ==> !Blank(s))
    && (forall s :: s in r.supersedes ==> !Blank(s) && s in r.sourceIds)
    && 0.0 <= r.confidence <= 1.0
  }

  /** On valid candidates the result contract accepts every result exactly when no accepted candidate has a blank
      id. */
  lemma ValidatorIff(cs: seq<Candidate>, rules: Rules)
    requires forall c :: c in cs ==> CandidateValid(c)
    ensures (forall r :: r in Consolidate(cs, rules) ==> ResultValid(r)) <==>
            (forall c :: c in cs && rules.accept(c) ==> !Blank(c.id))
  {
    var out := Consolidate(cs, rules);
    if forall c :: c in cs && rules.accept(c) ==> !Blank(c.id) {
      forall r | r in out ensures ResultValid(r) {
        var i :| 0 <= i < |out| && out[i] == r;
        ResultAccepted(cs, rules, i);
      }
    } else {
      var c :| c in cs && rules.accept(c) && Blank(c.id);
      var i := ResultWith(cs, rules, c);
      assert out[i] in out && !ResultValid(out[i]);
    }
  }

  lemma {:induction false} ResultAccepted(cs: seq<Candidate>, rules: Rules, i: nat)
    requires forall c :: c in cs ==> CandidateValid(c)
    requires forall c :: c in cs && rules.accept(c) ==> !Blank(c.id)
    ensures i < |Consolidate(cs, rules)| ==> ResultValid(Consolidate(cs, rules)[i])
  {
    if i < |Consolidate(cs, rules)| {
      var r, u := Consolidate(cs, rules)[i], Unique(cs, rules);
      UniqueSpec(cs, rules);
      assert forall c :: c in u ==> c in Accepted(cs, rules);
      var members := DecisionSpec(cs, rules, i);
      forall s | s in r.sourceIds ensures !Blank(s) { Partition(cs, rules, s); }
      if r.decision != Stale { GroupAccepted(r, members, rules); }
    }
  }

  lemma GroupAccepted(r: Result, members: seq<Candidate>, rules: Rules)
    requires Explains(r, members, rules) && forall c :: c in members ==> CandidateValid(c)
    requires forall s :: s in r.sourceIds ==> !Blank(s)
    ensures ResultValid(r)
  {
    MemberId(members, r.proposed);
  }

  /** A valid candidate whose id is one space: any policy that accepts it makes consolidation raise. */
  lemma BlankIdRaises(rules: Rules) returns (c: Candidate)
    ensures c.id == " " && CandidateValid(c)
    ensures rules.accept(c) ==> exists r :: r in Consolidate([c], rules) && !ResultValid(r)
  {
    c := Candidate(" ", "likes tea", Note, 0.5, 0.5, "user", None, "durable", "normal", None, None, None, None, 0.0,
                   map[]);
    BlankIff(c.id);
    ValidatorIff([c], rules);
    assert c in [c] && Blank(c.id);
  }

  // ----- the fixpoint -------------------------------------------------------------------------------

  function Proposals(rs: seq<Result>): (r: seq<Candidate>)
    ensures |r| == |rs|
    ensures forall i :: 0 <= i < |rs| ==> r[i] == rs[i].proposed
  {
    seq(|rs|, i requires 0 <= i < |rs| => rs[i].proposed)
  }

  /** Nothing left to merge: ids are functional, everything is accepted, and recent candidates have scopes of
      their own. */
  ghost predicate Settled(xs: seq<Candidate>, rules: Rules) {
    && Functional(xs, SourceId)
    && (forall c :: c in xs ==> rules.accept(c))
    && (forall a, b ::
          a in xs && b in xs && a.createdAt >= rules.cutoff && b.createdAt >= rules.cutoff && KeyOf(a) == KeyOf(b) ==>
          a == b)
  }

  /** The proposals of one pass are settled. */
  lemma ProposalsSettled(cs: seq<Candidate>, rules: Rules)
    ensures Settled(Proposals(Consolidate(cs, rules)), rules)
  {
    var out := Consolidate(cs, rules);
    var xs := Proposals(out);
    forall i, j | 0 <= i < |out| && 0 <= j < |out|
      ensures rules.accept(xs[i]) && (xs[i].id == xs[j].id ==> xs[i] == xs[j])
      ensures xs[i].createdAt >= rules.cutoff && xs[j].createdAt >= rules.cutoff && KeyOf(xs[i]) == KeyOf(xs[j]) ==>
              xs[i] == xs[j]
    {
      PairSettled(cs, rules, i, j);
    }
  }

  /** The stale proposals are the stale survivors of deduplication. */
  lemma StaleProposals(cs: seq<Candidate>, rules: Rules, c: Candidate)
    requires c.createdAt < rules.cutoff
    ensures c in Proposals(Consolidate(cs, rules)) <==> c in Unique(cs, rules)
  {
    var out := Consolidate(cs, rules);
    var xs := Proposals(out);
    UniqueSpec(cs, rules);
    if c in xs {
      var i :| 0 <= i < |xs| && xs[i] == c;
      PairSettled(cs, rules, i, i);
    }
    if c in Unique(cs, rules) {
      assert c in Accepted(cs, rules);
      Partition(cs, rules, c.id);
      var i :| 0 <= i < |out| && c.id in out[i].sourceIds;
      StaleOwner(cs, rules, i, c);
      assert xs[i] == c;
    }
  }

  lemma PairSettled(cs: seq<Candidate>, rules: Rules, i: nat, j: nat)
    requires i < |Consolidate(cs, rules)| && j < |Consolidate(cs, rules)|
    ensures var a, b := Consolidate(cs, rules)[i].proposed, Consolidate(cs, rules)[j].proposed;
            && a in Unique(cs, rules) && rules.accept(a)
            && (a.id == b.id ==> a == b)
            && (a.createdAt >= rules.cutoff && b.createdAt >= rules.cutoff && KeyOf(a) == KeyOf(b) ==> a == b)
  {
    var out, u := Consolidate(cs, rules), Unique(cs, rules);
    var a, b := out[i].proposed, out[j].proposed;
    UniqueSpec(cs, rules);
    var ma := DecisionSpec(cs, rules, i);
    var mb := DecisionSpec(cs, rules, j);
    assert a in Accepted(cs, rules);
    if a.id == b.id { SameId(u, a, b); }
    if a.createdAt >= rules.cutoff && b.createdAt >= rules.cutoff && KeyOf(a) == KeyOf(b) {
      MemberId(ma, a);
      MemberId(mb, a);
      Partition(cs, rules, a.id);
    }
  }

  lemma StaleOwner(cs: seq<Candidate>, rules: Rules, i: nat, c: Candidate)
    requires i < |Consolidate(cs, rules)| && c in Unique(cs, rules) && c.createdAt < rules.cutoff
    requires c.id in Consolidate(cs, rules)[i].sourceIds
    ensures Consolidate(cs, rules)[i].proposed == c
  {
    UniqueSpec(cs, rules);
    var r := Consolidate(cs, rules)[i];
    var members := DecisionSpec(cs, rules, i);
    if r.decision == Stale {
      SameId(Unique(cs, rules), r.proposed, c);
    } else {
      var m := IdsMember(members, c.id);
      SameId(Unique(cs, rules), m, c);
    }
  }

  lemma FirstTwoDiffer(members: seq<Candidate>)
    requires Distinct(members, SourceId) && |members| > 1
    ensures members[0] != members[1]
  {
    assert SourceId(members[0]) != SourceId(members[1]);
  }

  lemma OnlyOne(members: seq<Candidate>, c: Candidate)
    requires Distinct(members, SourceId) && members != [] && forall x :: x in members ==> x == c
    ensures members == [c]
  {
    forall i | 0 <= i < |members| ensures members[i] == c { assert members[i] in members; }
    if |members| > 1 { FirstTwoDiffer(members); }
  }

  /** On settled candidates every result is the candidate itself, stale or retained. */
  lemma SettledPass(xs: seq<Candidate>, rules: Rules, i: nat)
    requires Settled(xs, rules) && i < |Consolidate(xs, rules)|
    ensures var r := Consolidate(xs, rules)[i];
            r.decision in {Stale, Retained} && r.sourceIds == [r.proposed.id] && r.proposed in xs
  {
    var r := Consolidate(xs, rules)[i];
    var members := DecisionSpec(xs, rules, i);
    UniqueMembers(xs, rules);
    if r.decision != Stale { AloneInScope(xs, rules, r, members, Unique(xs, rules)); }
  }

  lemma AloneInScope(xs: seq<Candidate>, rules: Rules, r: Result, members: seq<Candidate>, u: seq<Candidate>)
    requires Settled(xs, rules) && Decided(r, members, u, rules) && r.decision != Stale
    requires forall c :: c in u ==> c in xs
    ensures r.decision == Retained && r.sourceIds == [r.proposed.id]
  {
    forall c | c in members ensures c == r.proposed { assert KeyOf(c) == KeyOf(r.proposed); }
    OnlyOne(members, r.proposed);
    assert Ids(members) == [r.proposed.id];
  }

  lemma SettledProposes(xs: seq<Candidate>, rules: Rules, c: Candidate)
    requires Settled(xs, rules) && c in xs
    ensures c in Proposals(Consolidate(xs, rules))
  {
    var i := ResultWith(xs, rules, c);
    SettledPass(xs, rules, i);
    var proposed := Consolidate(xs, rules)[i].proposed;
    assert SourceId(proposed) == SourceId(c);
    assert Proposals(Consolidate(xs, rules))[i] == proposed == c;
  }

  /** A settled list proposes itself. */
  lemma SettledProposals(xs: seq<Candidate>, rules: Rules)
    requires Settled(xs, rules)
    ensures forall c :: c in Proposals(Consolidate(xs, rules)) <==> c in xs
  {
    var out := Consolidate(xs, rules);
    forall i | 0 <= i < |out| ensures Proposals(out)[i] in xs { SettledPass(xs, rules, i); }
    forall c | c in xs ensures c in Proposals(out) { SettledProposes(xs, rules, c); }
  }

  /** Consolidating the proposals at the same moment yields only retained and stale results, and doing it once
      more changes nothing. */
  lemma Fixpoint(cs: seq<Candidate>, rules: Rules)
    ensures var again := Consolidate(Proposals(Consolidate(cs, rules)), rules);
            && (forall r :: r in again ==> r.decision in {Stale, Retained})
            && Consolidate(Proposals(again), rules) == again
  {
    var xs := Proposals(Consolidate(cs, rules));
    ProposalsSettled(cs, rules);
    var again := Consolidate(xs, rules);
    forall r | r in again ensures r.decision in {Stale, Retained} {
      var i :| 0 <= i < |again| && again[i] == r;
      SettledPass(xs, rules, i);
    }
    SettledProposals(xs, rules);
    ConsolidateDependsOnSet(xs, Proposals(again), rules);
  }

  /** The second pass reports exactly the stale results of the first. */
  lemma SameStaleResults(cs: seq<Candidate>, rules: Rules, r: Result)
    requires r.decision == Stale
    ensures r in Consolidate(Proposals(Consolidate(cs, rules)), rules) <==> r in Consolidate(cs, rules)
  {
    var xs := Proposals(Consolidate(cs, rules));
    ProposalsSettled(cs, rules);
    UniqueMembers(xs, rules);
    if r.proposed.createdAt < rules.cutoff { StaleProposals(cs, rules, r.proposed); }
    StaleResults(cs, rules, r);
    StaleResults(xs, rules, r);
  }

  /** The stale results are the stale survivors of deduplication. */
  lemma StaleResults(cs: seq<Candidate>, rules: Rules, r: Result)
    requires r.decision == Stale
    ensures r in Consolidate(cs, rules) <==>
            r.proposed in Unique(cs, rules) && r.proposed.createdAt < rules.cutoff && r == BuildStale(r.proposed, rules)
  {
    var out, u := Consolidate(cs, rules), Unique(cs, rules);
    UniqueSpec(cs, rules);
    if r in out {
      var i :| 0 <= i < |out| && out[i] == r;
      var m := DecisionSpec(cs, rules, i);
    }
    if r.proposed in u && r.proposed.createdAt < rules.cutoff && r == BuildStale(r.proposed, rules) {
      var stale := StaleOf(u, rules.cutoff);
      var a :| 0 <= a < |stale| && stale[a] == r.proposed;
      assert Unsorted(u, rules)[a] == BuildStales(stale, rules)[a] == r;
      SortByElements(Unsorted(u, rules), ResultLeq, r);
    }
  }

  // ----- the procedures -----------------------------------------------------------------------------

  lemma DedupeStep(byId: seq<Candidate>, rest: seq<Candidate>, rules: Rules)
    requires rest != []
    ensures PutAll(byId, SourceId, Accepted(rest, rules)) ==
            var next := if rules.accept(rest[0]) then Put(byId, SourceId, rest[0]) else byId;
            PutAll(next, SourceId, Accepted(rest[1..], rules))
  {
    if rules.accept(rest[0]) {
      var tail := Accepted(rest[1..], rules);
      assert Accepted(rest, rules) == [rest[0]] + tail && ([rest[0]] + tail)[1..] == tail;
    }
  }

  method UniqueCandidates(candidates: seq<Candidate>, rules: Rules) returns (r: seq<Candidate>)
    ensures r == Unique(candidates, rules)
  {
    var byId: seq<Candidate> := [];
    var i := 0;
    while i < |candidates|
      invariant i <= |candidates|
      invariant PutAll(byId, SourceId, Accepted(candidates[i..], rules)) ==
                PutAll([], SourceId, Accepted(candidates, rules))
    {
      ghost var rest := candidates[i..];
      assert rest[0] == candidates[i] && rest[1..] == candidates[i + 1..];
      DedupeStep(byId, rest, rules);
      if rules.accept(candidates[i]) { byId := Put(byId, SourceId, candidates[i]); }
      i := i + 1;
    }
    assert candidates[i..] == [];
    r := SortBy(byId, SourceLeq);
  }

  method GroupByScopeAndKind(candidates: seq<Candidate>) returns (r: seq<ScopeGroup>)
    ensures r == GroupsOf(candidates)
  {
    var groups: seq<ScopeGroup> := [];
    var i := 0;
    while i < |candidates|
      invariant i <= |candidates| && GroupAll(groups, KeyOf, candidates[i..]) == GroupAll([], KeyOf, candidates)
    {
      ghost var rest := candidates[i..];
      assert rest[0] == candidates[i] && rest[1..] == candidates[i + 1..];
      groups := AddTo(groups, KeyOf, candidates[i]);
      i := i + 1;
    }
    assert candidates[i..] == [];
    r := SortMembers(SortBy(groups, GroupLeq));
  }

  /** Counts the distinct normalised texts of a group, as the number of keys of a dict. */
  method ContentGroups(members: seq<Candidate>, rules: Rules) returns (texts: seq<string>)
    requires members != []
    ensures |texts| == 1 <==> OneText(members, rules)
  {
    texts := [rules.normalize(members[0].text)];
    assert members[0] in members;
    var i := 1;
    while i < |members|
      invariant 1 <= i <= |members| && |texts| >= 1 && texts[0] == rules.normalize(members[0].text)
      invariant |texts| == 1 <==> forall j :: 0 <= j < i ==> rules.normalize(members[j].text) == texts[0]
      invariant |texts| > 1 ==> exists j :: 0 <= j < i && rules.normalize(members[j].text) != texts[0]
    {
      var text := rules.normalize(members[i].text);
      if text !in texts {
        assert text != texts[0];
        texts := texts + [text];
      }
      i := i + 1;
    }
    if |texts| > 1 {
      var j :| 0 <= j < |members| && rules.normalize(members[j].text) != texts[0];
      assert members[j] in members && members[0] in members;
    }
  }

  method BuildGroupResult(members: seq<Candidate>, rules: Rules) returns (r: Result)
    requires members != []
    ensures r == BuildGroup(members, rules)
  {
    var ids := Ids(members);
    var texts := ContentGroups(members, rules);
    if |texts| == 1 {
      var decision := if |members| > 1 then Duplicate else Retained;
      r := Result(rules.resultId(decision, ids), MaxBy(members, QualityLeq), decision, ids, [],
                  MaxOver(members, Confidence), true);
    } else {
      var proposed := MaxBy(members, NewestLeq);
      r := Result(rules.resultId(Conflict, ids), proposed, Conflict, ids, Without(ids, proposed.id),
                  MinOver(members, Confidence), true);
    }
  }

  method BuildGroupResults(groups: seq<ScopeGroup>, rules: Rules) returns (r: seq<Result>)
    requires Nonempty(groups)
    ensures r == BuildGroups(groups, rules)
  {
    r := [];
    var i := 0;
    while i < |groups|
      invariant i <= |groups| && r == BuildGroups(groups, rules)[..i]
    {
      var one := BuildGroupResult(groups[i].members, rules);
      BuildGroupsAt(groups, rules, i);
      r := r + [one];
      i := i + 1;
    }
    assert BuildGroups(groups, rules)[..i] == BuildGroups(groups, rules);
  }

  method ConsolidateMemoryCandidates(candidates: seq<Candidate>, rules: Rules) returns (r: seq<Result>)
    ensures r == Consolidate(candidates, rules)
  {
    var u := UniqueCandidates(candidates, rules);
    UniqueSpec(candidates, rules);
    SplitByAge(u, rules.cutoff);
    var groups := GroupByScopeAndKind(FreshOf(u, rules.cutoff));
    var grouped := BuildGroupResults(groups, rules);
    r := SortBy(BuildStales(StaleOf(u, rules.cutoff), rules) + grouped, ResultLeq);
  }
}
