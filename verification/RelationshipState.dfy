/** Relationship state over many turns (iris/cognitive/affect/relationship.py, iris/contracts/relationship.py). */
module RelationshipState {
  import opened Prelude
  import opened PyText
  import opened Reals

  // ----- one relationship -----------------------------------------------------------------------------

  datatype Relationship = Relationship(name: Option<string>, affinity: real, trust: real, familiarity: real)

  /** A legacy update moves with the valence; in semantic mode only familiarity grows. */
  datatype Update = ByValence(valence: real) | ContactOnly

  function DefaultRelationship(name: Option<string>): (r: Relationship) { Relationship(name, 0.0, 0.5, 0.0) }

  function ApplyDelta(r: Relationship, affinity: real, trust: real): (n: Relationship) {
    Relationship(
      r.name,
      Clamp(r.affinity + affinity, -1.0, 1.0),
      Clamp(r.trust + trust, 0.0, 1.0),
      Clamp(r.familiarity + 0.05, 0.0, 1.0))
  }

  function TrustDelta(valence: real): (d: real) {
    if valence > 0.1 then 0.02 else if valence < -0.1 then -0.02 else 0.0
  }

  function Updated(r: Relationship, u: Update): (n: Relationship) {
    match u
    case ByValence(v) => ApplyDelta(r, v * 0.05, TrustDelta(v))
    case ContactOnly => ApplyDelta(r, 0.0, 0.0)
  }

  function UpdatedAll(r: Relationship, us: seq<Update>): (n: Relationship) {
    if us == [] then r else Updated(UpdatedAll(r, us[..|us| - 1]), us[|us| - 1])
  }

  /** The value ranges of a relationship record. */
  predicate InRange(r: Relationship) {
    -1.0 <= r.affinity <= 1.0 && 0.0 <= r.trust <= 1.0 && 0.0 <= r.familiarity <= 1.0
  }

  predicate Moderate(us: seq<Update>) {
    forall i :: 0 <= i < |us| && us[i].ByValence? ==> -1.0 <= us[i].valence <= 1.0
  }

  lemma MoveBounded(r: Relationship, u: Update)
    requires InRange(r) && (u.ByValence? ==> -1.0 <= u.valence <= 1.0)
    ensures Abs(Updated(r, u).affinity - r.affinity) <= 0.05 && Abs(Updated(r, u).trust - r.trust) <= 0.02
  {
  }

  /** A warmer turn never leaves affinity or trust lower, over a whole run; a lukewarm one leaves trust alone. */
  lemma {:induction false} WarmerIsNoWorse(r: Relationship, us: seq<Update>, ws: seq<Update>)
    requires |us| == |ws|
    requires forall i :: 0 <= i < |us| ==> us[i].ByValence? && ws[i].ByValence? && us[i].valence <= ws[i].valence
    ensures UpdatedAll(r, us).affinity <= UpdatedAll(r, ws).affinity
            && UpdatedAll(r, us).trust <= UpdatedAll(r, ws).trust
    ensures (forall i :: 0 <= i < |us| ==> -0.1 <= us[i].valence <= 0.1) && InRange(r) ==>
            UpdatedAll(r, us).trust == r.trust
  {
    if us != [] {
      var n := |us| - 1;
      WarmerIsNoWorse(r, us[..n], ws[..n]);
      OneUpdateMonotone(UpdatedAll(r, us[..n]), UpdatedAll(r, ws[..n]), us[n].valence, ws[n].valence);
    }
  }

  lemma OneUpdateMonotone(r: Relationship, s: Relationship, v: real, w: real)
    requires r.affinity <= s.affinity && r.trust <= s.trust && v <= w
    ensures Updated(r, ByValence(v)).affinity <= Updated(s, ByValence(w)).affinity
    ensures Updated(r, ByValence(v)).trust <= Updated(s, ByValence(w)).trust
  {
  }

  /** Over any number of updates everything stays in range; familiarity is a plain count of contacts up to one;
      and with valences in range, affinity and trust move at most a fixed step per update. */
  lemma {:induction false} RunBounded(r: Relationship, us: seq<Update>)
    requires InRange(r)
    ensures var n := UpdatedAll(r, us);
            && InRange(n) && n.name == r.name
            && n.familiarity == (if r.familiarity + (|us| as real) / 20.0 <= 1.0
                                 then r.familiarity + (|us| as real) / 20.0 else 1.0)
            && (Moderate(us) ==>
                  && Abs(n.affinity - r.affinity) <= 0.05 * (|us| as real)
                  && Abs(n.trust - r.trust) <= 0.02 * (|us| as real))
  {
    if us != [] {
      var front, last := us[..|us| - 1], us[|us| - 1];
      RunBounded(r, front);
      assert (|us| as real) == |front| as real + 1.0;
      if Moderate(us) {
        assert Moderate(front);
        MoveBounded(UpdatedAll(r, front), last);
      }
    }
  }

  /** What an update would add to affinity and trust if nothing were clamped. */
  ghost function Push(u: Update): (d: (real, real)) {
    if u.ContactOnly? then (0.0, 0.0)
    else (u.valence / 20.0, if u.valence > 0.1 then 0.02 else if u.valence < -0.1 then -0.02 else 0.0)
  }

  ghost function Pushes(us: seq<Update>): (d: (real, real)) {
    if us == [] then (0.0, 0.0)
    else
      var before, last := Pushes(us[..|us| - 1]), Push(us[|us| - 1]);
      (before.0 + last.0, before.1 + last.1)
  }

  /** One update: the push is added and cut off at the ends of the range. */
  lemma UpdateExact(r: Relationship, u: Update)
    requires InRange(r)
    ensures var n, a, t := Updated(r, u), r.affinity + Push(u).0, r.trust + Push(u).1;
            && n.affinity == (if a > 1.0 then 1.0 else if a < -1.0 then -1.0 else a)
            && n.trust == (if t > 1.0 then 1.0 else if t < 0.0 then 0.0 else t)
            && n.name == r.name
  {
  }

  /** Over a run that never meets an end of the range, affinity and trust are their start and the sum of all pushes. */
  lemma {:induction false} UnclampedRun(r: Relationship, us: seq<Update>)
    requires InRange(r)
    requires forall n :: 0 <= n <= |us| ==>
               -1.0 <= r.affinity + Pushes(us[..n]).0 <= 1.0 && 0.0 <= r.trust + Pushes(us[..n]).1 <= 1.0
    ensures UpdatedAll(r, us).affinity == r.affinity + Pushes(us).0
    ensures UpdatedAll(r, us).trust == r.trust + Pushes(us).1
  {
    if us != [] {
      var m := |us| - 1;
      var front := us[..m];
      forall n | 0 <= n <= m
        ensures -1.0 <= r.affinity + Pushes(front[..n]).0 <= 1.0 && 0.0 <= r.trust + Pushes(front[..n]).1 <= 1.0
      {
        assert front[..n] == us[..n];
      }
      UnclampedRun(r, front);
      RunBounded(r, front);
      UpdateExact(UpdatedAll(r, front), us[m]);
      assert us[..|us|] == us;
    }
  }

  // ----- all relationships ----------------------------------------------------------------------------

  datatype Actor = Actor(id: string, displayName: Option<string>)

  datatype Turn = Turn(actorMessage: bool, actor: Option<Actor>, text: Option<string>, valence: real)

  datatype Skip = NonActorMessage | MissingActor | MissingInput

  datatype Reply = Skipped(reason: Skip) | Stored(relationship: Relationship)

  datatype Error = ActorIdRequired | OutOfRange

  type Relationships = map<string, Relationship>

  function SkipReason(t: Turn): (r: Option<Skip>) {
    if !t.actorMessage then Some(NonActorMessage)
    else if t.actor.None? then Some(MissingActor)
    else if t.text.None? || Blank(t.text.value) then Some(MissingInput)
    else None
  }

  function UpdateOf(t: Turn, semantic: bool): (u: Update) { if semantic then ContactOnly else ByValence(t.valence) }

  function Current(rs: Relationships, a: Actor): (r: Relationship) {
    if a.id in rs then rs[a.id] else DefaultRelationship(a.displayName)
  }

  /** The turn's new state of the relationships, or the error of the record contract. */
  function AfterTurn(rs: Relationships, t: Turn, semantic: bool): (r: Outcome<Relationships, Error>) {
    if SkipReason(t).Some? then Ok(rs)
    else
      var next := Updated(Current(rs, t.actor.value), UpdateOf(t, semantic));
      if t.actor.value.id == "" then Raised(ActorIdRequired)
      else if !InRange(next) then Raised(OutOfRange)
      else Ok(rs[t.actor.value.id := next])
  }

  ghost predicate AllInRange(rs: Relationships) { forall id :: id in rs ==> InRange(rs[id]) }

  /** The record contract only ever objects to an empty actor id. */
  lemma TurnRaisesIff(rs: Relationships, t: Turn, semantic: bool)
    requires AllInRange(rs)
    ensures AfterTurn(rs, t, semantic).Raised? <==> Heard(t, "")
    ensures AfterTurn(rs, t, semantic).Ok? ==> AllInRange(AfterTurn(rs, t, semantic).value)
  {
    HeardIff(t, "");
    if SkipReason(t).None? {
      var r, u := Current(rs, t.actor.value), UpdateOf(t, semantic);
      RunBounded(r, [u]);
      assert [u][..0] == [];
      assert UpdatedAll(r, [u]) == Updated(r, u);
    }
  }

  /** Turns of named actors, from an empty store. */
  function AfterTurns(ts: seq<Turn>, semantic: bool): (rs: Relationships)
    requires forall i :: 0 <= i < |ts| && ts[i].actor.Some? ==> ts[i].actor.value.id != ""
    ensures AllInRange(rs)
  {
    if ts == [] then map[]
    else
      var before := AfterTurns(ts[..|ts| - 1], semantic);
      TurnRaisesIff(before, ts[|ts| - 1], semantic);
      AfterTurn(before, ts[|ts| - 1], semantic).value
  }

  /** The turn is a message of this actor with something in it. */
  predicate Heard(t: Turn, id: string) {
    && t.actorMessage && t.actor.Some? && t.actor.value.id == id
    && t.text.Some? && exists i :: 0 <= i < |t.text.value| && !IsSpace(t.text.value[i])
  }

  lemma HeardIff(t: Turn, id: string)
    ensures Heard(t, id) <==> SkipReason(t).None? && t.actor.value.id == id
  {
    if t.text.Some? {
      BlankIff(t.text.value);
      if c :| c in t.text.value && !IsSpace(c) {
        var i :| 0 <= i < |t.text.value| && t.text.value[i] == c;
      }
    }
  }

  /** The updates one actor's own turns call for. */
  function UpdatesOf(ts: seq<Turn>, semantic: bool, id: string): (us: seq<Update>) {
    if ts == [] then []
    else
      var t, before := ts[|ts| - 1], UpdatesOf(ts[..|ts| - 1], semantic, id);
      if Heard(t, id) then before + [if semantic then ContactOnly else ByValence(t.valence)] else before
  }

  /** The display name in the actor's first turn that counts. */
  function FirstName(ts: seq<Turn>, id: string): (n: Option<Option<string>>) {
    if ts == [] then None
    else
      var t, before := ts[|ts| - 1], FirstName(ts[..|ts| - 1], id);
      if before.None? && Heard(t, id) then Some(t.actor.value.displayName) else before
  }

  /** The stored values of an actor depend on that actor's turns alone: whatever the interleaving, they are those
      of a fresh relationship, under the name of its first turn, after exactly its own updates. */
  lemma {:induction false} ActorsIndependent(ts: seq<Turn>, semantic: bool, id: string)
    requires forall i :: 0 <= i < |ts| && ts[i].actor.Some? ==> ts[i].actor.value.id != ""
    ensures var rs, us := AfterTurns(ts, semantic), UpdatesOf(ts, semantic, id);
            && (id in rs <==> us != [])
            && (FirstName(ts, id).Some? <==> us != [])
            && (id in rs ==> rs[id] == UpdatedAll(Relationship(FirstName(ts, id).value, 0.0, 0.5, 0.0), us))
  {
    if ts != [] {
      var front, t := ts[..|ts| - 1], ts[|ts| - 1];
      HeardIff(t, id);
      ActorsIndependent(front, semantic, id);
      var before, us := AfterTurns(front, semantic), UpdatesOf(front, semantic, id);
      TurnRaisesIff(before, t, semantic);
      if SkipReason(t).None? && t.actor.value.id == id {
        var u := UpdateOf(t, semantic);
        var r := Current(before, t.actor.value);
        AppendedUpdate(DefaultRelationship(FirstName(ts, id).value), us, u);
      }
    }
  }

  lemma AppendedUpdate(r: Relationship, us: seq<Update>, u: Update)
    ensures UpdatedAll(r, us + [u]) == Updated(UpdatedAll(r, us), u)
  {
    assert (us + [u])[..|us|] == us;
  }

  /** Familiarity counts an actor's contacts, whatever anybody else does. */
  lemma FamiliarityCounts(ts: seq<Turn>, semantic: bool, id: string)
    requires forall i :: 0 <= i < |ts| && ts[i].actor.Some? ==> ts[i].actor.value.id != ""
    requires id in AfterTurns(ts, semantic)
    ensures var n := |UpdatesOf(ts, semantic, id)|;
            AfterTurns(ts, semantic)[id].familiarity == if n <= 20 then n as real / 20.0 else 1.0
  {
    ActorsIndependent(ts, semantic, id);
    RunBounded(DefaultRelationship(FirstName(ts, id).value), UpdatesOf(ts, semantic, id));
  }

  class RelationshipStep {
    const semantic: bool
    var records: Relationships

    constructor (semantic: bool)
      ensures this.semantic == semantic && records == map[]
    {
      this.semantic := semantic;
      this.records := map[];
    }

    method Run(t: Turn) returns (r: Outcome<Reply, Error>)
      requires AllInRange(records)
      modifies this
      ensures AllInRange(records)
      ensures r.Raised? ==> AfterTurn(old(records), t, semantic) == Raised(r.error) && records == old(records)
      ensures r.Ok? ==> AfterTurn(old(records), t, semantic) == Ok(records)
      ensures r.Ok? && r.value.Skipped? ==> records == old(records) && SkipReason(t) == Some(r.value.reason)
      ensures r == Ok(Skipped(NonActorMessage)) <==> !t.actorMessage
      ensures r == Ok(Skipped(MissingActor)) <==> t.actorMessage && t.actor.None?
      ensures r == Ok(Skipped(MissingInput)) <==>
                t.actorMessage && t.actor.Some? && (t.text.Some? ==> forall c :: c in t.text.value ==> IsSpace(c))
      ensures r.Ok? && r.value.Stored? ==> SkipReason(t).None? && records[t.actor.value.id] == r.value.relationship
    {
      TurnRaisesIff(records, t, semantic);
      if t.text.Some? { BlankIff(t.text.value); }
      if !t.actorMessage { return Ok(Skipped(NonActorMessage)); }
      if t.actor.None? { return Ok(Skipped(MissingActor)); }
      if t.text.None? || Blank(t.text.value) { return Ok(Skipped(MissingInput)); }
      var actor := t.actor.value;
      var current := if actor.id in records then records[actor.id] else DefaultRelationship(actor.displayName);
      var next := if semantic then Updated(current, ContactOnly) else Updated(current, ByValence(t.valence));
      if actor.id == "" { return Raised(ActorIdRequired); }
      if !InRange(next) { return Raised(OutOfRange); }
      records := records[actor.id := next];
      r := Ok(Stored(next));
    }
  }
}
