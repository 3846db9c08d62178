/**
 Stages 2 to 4 for one stored observation at a time (pipeline.ts), against the canonical writer of
 memory.ts: resolve the identity, merge its claims, stamp its upkeep, replace its display, tell its events.
 */
module Corpus {
  import opened Prelude
  import opened Claims
  import opened ClaimOrder
  import opened RawStore
  import opened Lifecycle

  datatype Display = Display(content: string, fetchedAt: int)

  /** `sourceUpdatedAt` of a candidate: `undefined`, or a stamp that may be null. */
  datatype Upkeep = Absent | Stamp(at: Option<int>)

  datatype Normalized = Normalized(claims: AnimalClaims, display: Option<Display>, upkeep: Upkeep)

  /** A deterministic normalizer; no answer is a failure it threw. */
  type Normalizer = Stored -> Option<Normalized>

  datatype Told =
    | AnimalSeen(animalId: nat, key: Key, rawId: nat, changed: seq<Field>, occurredAt: int)
    | AnimalUpdated(animalId: nat, key: Key, rawId: nat, changed: seq<Field>, occurredAt: int)

  datatype Corpus = Corpus(
    rows: seq<RawRow>,
    animals: map<nat, AnimalClaims>,
    identities: Identities,
    display: map<(nat, Source), Display>,
    events: seq<Told>,
    nextAnimalId: nat)

  const EMPTY := Corpus([], map[], map[], map[], [], 1)

  predicate Viable(claims: AnimalClaims) { Name in claims && Species in claims }

  /** A new identity's last sighting is its raw row's, not the write's. */
  function FirstSighting(rows: seq<RawRow>, key: Key, occurredAt: Option<int>): int {
    var latest := Latest(rows, key);
    if latest.Some? then rows[latest.value].lastSeen else if occurredAt.Some? then occurredAt.value else 0
  }

  function ClaimsOf(c: Corpus, animalId: nat): AnimalClaims {
    if animalId in c.animals then c.animals[animalId] else map[]
  }

  /** The identity row after the write. */
  function IdentityAfter(c: Corpus, key: Key, id: nat, n: Normalized, occurredAt: Option<int>): Identity {
    if key !in c.identities then Identity(id, FirstSighting(c.rows, key, occurredAt), None, if n.upkeep.Stamp? then n.upkeep.at else None)
    else if n.upkeep.Stamp? then c.identities[key].(sourceUpdatedAt := n.upkeep.at)
    else c.identities[key]
  }

  /** No event when a merge changes no value: a phantom update could never be corrected. */
  function EventsOf(isNew: bool, id: nat, key: Key, rawId: nat, merged: MergeOutcome): seq<Told> {
    if merged.occurredAt.None? || (!isNew && merged.changed == []) then []
    else if isNew then [AnimalSeen(id, key, rawId, merged.changed, merged.occurredAt.value)]
    else [AnimalUpdated(id, key, rawId, merged.changed, merged.occurredAt.value)]
  }

  /** Everything one write changes, once the merge is known. */
  function Written(c: Corpus, key: Key, id: nat, isNew: bool, rawId: nat, n: Normalized, merged: MergeOutcome): Corpus {
    c.(animals := c.animals[id := merged.claims],
       identities := c.identities[key := IdentityAfter(c, key, id, n, merged.occurredAt)],
       display := if n.display.Some? then c.display[(id, key.source) := n.display.value] else c.display,
       events := c.events + EventsOf(isNew, id, key, rawId, merged),
       nextAnimalId := if isNew then c.nextAnimalId + 1 else c.nextAnimalId)
  }

  function Apply(c: Corpus, key: Key, rawId: nat, n: Normalized): Corpus {
    var isNew := key !in c.identities;
    if isNew && !Viable(n.claims) then c
    else
      var id := if isNew then c.nextAnimalId else c.identities[key].animalId;
      Written(c, key, id, isNew, rawId, n, Merge(if isNew then map[] else ClaimsOf(c, id), n.claims, rawId))
  }

  function Derive(c: Corpus, norm: Normalizer, o: Stored): Corpus {
    match norm(o)
    case None => c
    case Some(n) => Apply(c, o.key, o.rawId, n)
  }

  /** `replay`: the same stages over stored rows, with no source contact. */
  function Replay(c: Corpus, norm: Normalizer, stored: seq<Stored>): Corpus {
    if stored == [] then c else Derive(Replay(c, norm, stored[..|stored| - 1]), norm, stored[|stored| - 1])
  }

  function StoredRows(rows: seq<RawRow>): seq<Stored> { seq(|rows|, i requires 0 <= i < |rows| => StoredOf(rows[i])) }

  /** One turn of `runIngest`'s loop: persist, then derive what was persisted. */
  function Observe(c: Corpus, norm: Normalizer, obs: Observation): Corpus {
    var rows := Persist(c.rows, obs);
    Derive(c.(rows := rows), norm, StoredOf(rows[RowFor(c.rows, obs)]))
  }

  function ObserveAll(c: Corpus, norm: Normalizer, feed: seq<Observation>): Corpus {
    if feed == [] then c else Observe(ObserveAll(c, norm, feed[..|feed| - 1]), norm, feed[|feed| - 1])
  }

  function Rebuilt(rows: seq<RawRow>, norm: Normalizer): Corpus {
    Replay(EMPTY.(rows := rows), norm, StoredRows(rows))
  }

  // ---------- what a rebuild must restore ----------

  /** Equal in everything stages 2 to 4 own: claims, display, upkeep, ids and events. Presence is stage 5's. */
  ghost predicate Same(c: Corpus, d: Corpus) {
    && c.animals == d.animals && c.display == d.display && c.events == d.events && c.nextAnimalId == d.nextAnimalId
    && c.identities.Keys == d.identities.Keys
    && forall k :: k in c.identities ==>
         c.identities[k].animalId == d.identities[k].animalId && c.identities[k].sourceUpdatedAt == d.identities[k].sourceUpdatedAt
  }

  lemma WriteKeepsSame(c: Corpus, d: Corpus, key: Key, id: nat, isNew: bool, rawId: nat, n: Normalized,
      merged: MergeOutcome)
    requires Same(c, d) && (key in c.identities ==> c.identities[key].animalId == id)
    ensures Same(Written(c, key, id, isNew, rawId, n, merged), Written(d, key, id, isNew, rawId, n, merged))
  {
  }

  lemma DeriveKeepsSame(c: Corpus, d: Corpus, norm: Normalizer, o: Stored)
    requires Same(c, d)
    ensures Same(Derive(c, norm, o), Derive(d, norm, o))
  {
    if norm(o).Some? {
      var n := norm(o).value;
      var isNew := o.key !in c.identities;
      var id := if isNew then c.nextAnimalId else c.identities[o.key].animalId;
      var merged := Merge(if isNew then map[] else ClaimsOf(c, id), n.claims, o.rawId);
      WriteKeepsSame(c, d, o.key, id, isNew, o.rawId, n, merged);
    }
  }

  lemma {:induction false} ReplayKeepsSame(c: Corpus, d: Corpus, norm: Normalizer, stored: seq<Stored>)
    requires Same(c, d)
    ensures Same(Replay(c, norm, stored), Replay(d, norm, stored))
  {
    if stored != [] {
      ReplayKeepsSame(c, d, norm, stored[..|stored| - 1]);
      DeriveKeepsSame(Replay(c, norm, stored[..|stored| - 1]), Replay(d, norm, stored[..|stored| - 1]), norm, stored[|stored| - 1]);
    }
  }

  /** Each identity has an animal of its own. */
  ghost predicate OwnAnimals(c: Corpus) {
    && (forall k :: k in c.identities ==> c.identities[k].animalId < c.nextAnimalId && c.identities[k].animalId in c.animals)
    && (forall k, j :: k in c.identities && j in c.identities && c.identities[k].animalId == c.identities[j].animalId ==> k == j)
  }

  lemma DeriveKeepsOwn(c: Corpus, norm: Normalizer, o: Stored)
    requires OwnAnimals(c)
    ensures OwnAnimals(Derive(c, norm, o))
  {
  }

  lemma {:induction false} ReplayKeepsOwn(c: Corpus, norm: Normalizer, stored: seq<Stored>)
    requires OwnAnimals(c)
    ensures OwnAnimals(Replay(c, norm, stored))
  {
    if stored != [] {
      ReplayKeepsOwn(c, norm, stored[..|stored| - 1]);
      DeriveKeepsOwn(Replay(c, norm, stored[..|stored| - 1]), norm, stored[|stored| - 1]);
    }
  }

  // ---------- deriving the newest row again ----------

  /** Deriving `o` now would change nothing and tell nothing. */
  ghost predicate Settled(c: Corpus, norm: Normalizer, o: Stored) {
    match norm(o)
    case None => true
    case Some(n) =>
      if o.key !in c.identities then !Viable(n.claims)
      else
        var id := c.identities[o.key].animalId;
        && id in c.animals && Silent(c.animals[id], n.claims, o.rawId)
        && (n.display.Some? ==> (id, o.key.source) in c.display && c.display[(id, o.key.source)] == n.display.value)
        && (n.upkeep.Stamp? ==> c.identities[o.key].sourceUpdatedAt == n.upkeep.at)
  }

  lemma SettledIsSame(c: Corpus, norm: Normalizer, o: Stored)
    requires Settled(c, norm, o)
    ensures Same(Derive(c, norm, o), c)
  {
  }

  lemma DeriveSettles(c: Corpus, norm: Normalizer, o: Stored)
    requires OwnAnimals(c)
    ensures Settled(Derive(c, norm, o), norm, o)
  {
    if norm(o).Some? {
      var n := norm(o).value;
      MergeTwiceIsSilent(if o.key in c.identities then ClaimsOf(c, c.identities[o.key].animalId) else map[], n.claims, o.rawId);
    }
  }

  lemma OthersStaySettled(c: Corpus, norm: Normalizer, o: Stored, other: Stored)
    requires OwnAnimals(c) && Settled(c, norm, o) && other.key != o.key
    ensures Settled(Derive(c, norm, other), norm, o)
  {
  }

  /** Once a row is its identity's newest, deriving it again changes nothing. */
  lemma {:induction false} NewestRowIsSettled(c: Corpus, norm: Normalizer, stored: seq<Stored>, i: nat)
    requires OwnAnimals(c) && i < |stored| && forall j :: i < j < |stored| ==> stored[j].key != stored[i].key
    ensures Settled(Replay(c, norm, stored), norm, stored[i])
  {
    var init := stored[..|stored| - 1];
    ReplayKeepsOwn(c, norm, init);
    if i == |stored| - 1 {
      DeriveSettles(Replay(c, norm, init), norm, stored[i]);
    } else {
      NewestRowIsSettled(c, norm, init, i);
      OthersStaySettled(Replay(c, norm, init), norm, stored[i], stored[|stored| - 1]);
    }
  }

  // ---------- rebuild ----------

  /** A repeat derives again the row that already is its identity's newest. */
  lemma RepeatIsSettled(rows: seq<RawRow>, norm: Normalizer, obs: Observation)
    requires Repeats(rows, obs)
    ensures
      var after := Persist(rows, obs);
      && StoredRows(after) == StoredRows(rows)
      && Same(Derive(Rebuilt(after, norm), norm, StoredOf(after[RowFor(rows, obs)])), Rebuilt(after, norm))
  {
    var after, at := Persist(rows, obs), RowFor(rows, obs);
    var stored := StoredRows(after);
    assert stored == StoredRows(rows);
    assert forall j :: at < j < |stored| ==> stored[j].key == after[j].key;
    NewestRowIsSettled(EMPTY.(rows := after), norm, stored, at);
    SettledIsSame(Rebuilt(after, norm), norm, stored[at]);
  }

  lemma NewRowRebuilds(rows: seq<RawRow>, norm: Normalizer, obs: Observation)
    requires !Repeats(rows, obs)
    ensures
      var after := Persist(rows, obs);
      Rebuilt(after, norm) == Derive(Replay(EMPTY.(rows := after), norm, StoredRows(rows)), norm, StoredOf(after[RowFor(rows, obs)]))
  {
    var stored := StoredRows(Persist(rows, obs));
    assert stored[..|stored| - 1] == StoredRows(rows);
  }

  lemma ObserveRebuilds(c: Corpus, norm: Normalizer, obs: Observation)
    requires Same(c, Rebuilt(c.rows, norm))
    ensures Observe(c, norm, obs).rows == Persist(c.rows, obs)
    ensures Same(Observe(c, norm, obs), Rebuilt(Persist(c.rows, obs), norm))
  {
    var rows := Persist(c.rows, obs);
    var o := StoredOf(rows[RowFor(c.rows, obs)]);
    var r := Replay(EMPTY.(rows := rows), norm, StoredRows(c.rows));
    ReplayKeepsSame(EMPTY.(rows := c.rows), EMPTY.(rows := rows), norm, StoredRows(c.rows));
    DeriveKeepsSame(c.(rows := rows), r, norm, o);
    if Repeats(c.rows, obs) { RepeatIsSettled(c.rows, norm, obs); } else { NewRowRebuilds(c.rows, norm, obs); }
  }

  /** What a run may do to the corpus besides polling: stage 5 moves presence alone. */
  ghost predicate PresenceOnly(c: Corpus, d: Corpus) {
    d == c.(identities := d.identities) && Same(c, d)
  }

  datatype Op = Poll(obs: Observation) | MovePresence

  ghost predicate Step(c: Corpus, norm: Normalizer, op: Op, d: Corpus) {
    match op
    case Poll(obs) => d == Observe(c, norm, obs)
    case MovePresence => PresenceOnly(c, d)
  }

  ghost predicate History(cs: seq<Corpus>, norm: Normalizer, ops: seq<Op>) {
    && |cs| == |ops| + 1 && cs[0] == EMPTY
    && forall i :: 0 <= i < |ops| ==> Step(cs[i], norm, ops[i], cs[i + 1])
  }

  lemma StepRebuilds(c: Corpus, norm: Normalizer, op: Op, d: Corpus)
    requires Step(c, norm, op, d) && Same(c, Rebuilt(c.rows, norm)) && Numbered(c.rows)
    ensures Same(d, Rebuilt(d.rows, norm)) && Numbered(d.rows)
  {
    match op
    case Poll(obs) => ObserveRebuilds(c, norm, obs);
    case MovePresence =>
  }

  /**
   Replaying from empty the corpus any run left rebuilds its claims, display, upkeep, animal ids and
   events: repeated polls, returning payloads and refused first observations included.
   */
  lemma {:induction false} RebuildIsFaithful(cs: seq<Corpus>, norm: Normalizer, ops: seq<Op>, n: nat)
    requires History(cs, norm, ops) && n < |cs|
    ensures Same(cs[n], Rebuilt(cs[n].rows, norm)) && Numbered(cs[n].rows)
    decreases n
  {
    if n > 0 {
      RebuildIsFaithful(cs, norm, ops, n - 1);
      StepRebuilds(cs[n - 1], norm, ops[n - 1], cs[n]);
    }
  }
}
