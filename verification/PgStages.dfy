/**
 The Postgres stages (pg.ts): a row per animal holding only what some claim has won, a writer that stores only what was touched,
 and the steps they take, which differ from the reference's in two places.
 */
module PgStages {
  import opened Prelude
  import opened Claims
  import opened ClaimOrder
  import opened RawStore
  import opened Lifecycle
  import opened Corpus

  datatype Provenance = Provenance(source: Source, fetchedAt: int, rawId: nat)

  /** A row of `animals`: a column per field, and the provenance of the columns some claim has won. */
  datatype AnimalRow = AnimalRow(values: map<Field, Value>, provenance: map<Field, Provenance>)

  ghost predicate WellFormed(row: AnimalRow) { row.provenance.Keys <= row.values.Keys }

  /** `currentClaimsOf`: the claims a row holds, from value and provenance together. */
  function CurrentClaims(row: AnimalRow): AnimalClaims
    requires WellFormed(row)
  {
    map f | f in row.provenance :: Claim(row.values[f], row.provenance[f].source, row.provenance[f].fetchedAt, row.provenance[f].rawId)
  }

  function StampRow(row: AnimalRow, f: Field, c: Claim): AnimalRow {
    AnimalRow(row.values[f := c.value], row.provenance[f := Provenance(c.source, c.fetchedAt, c.rawId)])
  }

  lemma StampRowClaims(row: AnimalRow, f: Field, c: Claim)
    requires WellFormed(row)
    ensures WellFormed(StampRow(row, f, c)) && CurrentClaims(StampRow(row, f, c)) == CurrentClaims(row)[f := c]
  {
  }

  /** The held claims with those of `fields` replaced. */
  function Overlaid(held: AnimalClaims, claims: AnimalClaims, fields: seq<Field>): AnimalClaims
    requires forall f :: f in fields ==> f in claims
  {
    map f | f in held.Keys + (set g | g in fields) :: if f in fields then claims[f] else held[f]
  }

  lemma OverlaySnoc(held: AnimalClaims, claims: AnimalClaims, fields: seq<Field>, f: Field)
    requires (forall g :: g in fields ==> g in claims) && f in claims
    ensures Overlaid(held, claims, fields + [f]) == Overlaid(held, claims, fields)[f := claims[f]]
  {
  }

  /** The loop over the touched fields. */
  method StampAll(was: AnimalRow, claims: AnimalClaims, touched: seq<Field>) returns (row: AnimalRow)
    requires WellFormed(was) && forall f :: f in touched ==> f in claims
    ensures WellFormed(row) && CurrentClaims(row) == Overlaid(CurrentClaims(was), claims, touched)
    ensures touched == [] ==> row == was
  {
    row := was;
    for n := 0 to |touched|
      invariant WellFormed(row) && CurrentClaims(row) == Overlaid(CurrentClaims(was), claims, touched[..n])
      invariant n == 0 ==> row == was
    {
      StampRowClaims(row, touched[n], claims[touched[n]]);
      OverlaySnoc(CurrentClaims(was), claims, touched[..n], touched[n]);
      assert touched[..n + 1] == touched[..n] + [touched[n]];
      row := StampRow(row, touched[n], claims[touched[n]]);
    }
    assert touched[..|touched|] == touched;
  }

  // ---------- its steps ----------

  /** `max(last_seen)` over a key's rows. */
  function MaxLastSeen(rows: seq<RawRow>, key: Key): (r: Option<int>)
    ensures r.None? <==> forall i :: 0 <= i < |rows| ==> rows[i].key != key
    ensures r.Some? ==> exists i :: 0 <= i < |rows| && rows[i].key == key && rows[i].lastSeen == r.value
    ensures forall i :: 0 <= i < |rows| && rows[i].key == key ==> r.Some? && rows[i].lastSeen <= r.value
  {
    if rows == [] then None else
      var rest, row := MaxLastSeen(rows[..|rows| - 1], key), rows[|rows| - 1];
      if row.key != key then rest else if rest.None? || row.lastSeen > rest.value then Some(row.lastSeen) else rest
  }

  /** A new identity's last sighting: the newest of its rows', where the reference takes its newest row's. */
  function PgFirstSighting(rows: seq<RawRow>, key: Key, occurredAt: Option<int>): int {
    var newest := MaxLastSeen(rows, key);
    if newest.Some? then newest.value else if occurredAt.Some? then occurredAt.value else 0
  }

  /**
   What is handed on to be derived: on a repeat, the row's own stamps with the payload just fetched, where the reference hands on the
   stored one.
   */
  function PgStored(rows: seq<RawRow>, obs: Observation): Stored {
    var row := Persist(rows, obs)[RowFor(rows, obs)];
    Stored(row.rawId, obs.key, obs.payload, row.fetchedAt)
  }

  function PgIdentityAfter(c: Corpus, key: Key, id: nat, n: Normalized, occurredAt: Option<int>): Identity {
    if key !in c.identities then Identity(id, PgFirstSighting(c.rows, key, occurredAt), None, if n.upkeep.Stamp? then n.upkeep.at else None)
    else IdentityAfter(c, key, id, n, occurredAt)
  }

  /** The reference's write, but for a new identity's last sighting. */
  function PgWritten(c: Corpus, key: Key, id: nat, isNew: bool, rawId: nat, n: Normalized, merged: MergeOutcome): Corpus {
    Written(c, key, id, isNew, rawId, n, merged).(identities := c.identities[key := PgIdentityAfter(c, key, id, n, merged.occurredAt)])
  }

  function PgApply(c: Corpus, key: Key, rawId: nat, n: Normalized): Corpus {
    var isNew := key !in c.identities;
    if isNew && !Viable(n.claims) then c
    else
      var id := if isNew then c.nextAnimalId else c.identities[key].animalId;
      PgWritten(c, key, id, isNew, rawId, n, Merge(if isNew then map[] else ClaimsOf(c, id), n.claims, rawId))
  }

  function PgDerive(c: Corpus, norm: Normalizer, o: Stored): Corpus {
    match norm(o)
    case None => c
    case Some(n) => PgApply(c, o.key, o.rawId, n)
  }

  function PgObserve(c: Corpus, norm: Normalizer, obs: Observation): Corpus {
    PgDerive(c.(rows := Persist(c.rows, obs)), norm, PgStored(c.rows, obs))
  }

  ghost predicate AllWellFormed(animals: map<nat, AnimalRow>) { forall id :: id in animals ==> WellFormed(animals[id]) }

  function ClaimsHeld(animals: map<nat, AnimalRow>): map<nat, AnimalClaims>
    requires AllWellFormed(animals)
  {
    map id | id in animals :: CurrentClaims(animals[id])
  }

  lemma HeldAfter(animals: map<nat, AnimalRow>, id: nat, row: AnimalRow)
    requires AllWellFormed(animals) && WellFormed(row)
    ensures AllWellFormed(animals[id := row])
    ensures ClaimsHeld(animals[id := row]) == ClaimsHeld(animals)[id := CurrentClaims(row)]
  {
  }

  lemma WrittenIs(c: Corpus, key: Key, id: nat, isNew: bool, rawId: nat, n: Normalized, merged: MergeOutcome, d: Corpus)
    requires d.rows == c.rows && d.animals == c.animals[id := merged.claims] && d.events == c.events + EventsOf(isNew, id, key, rawId, merged)
    requires d.identities == c.identities[key := PgIdentityAfter(c, key, id, n, merged.occurredAt)]
    requires d.display == (if n.display.Some? then c.display[(id, key.source) := n.display.value] else c.display)
    requires d.nextAnimalId == c.nextAnimalId + (if isNew then 1 else 0)
    ensures d == PgWritten(c, key, id, isNew, rawId, n, merged)
  {
  }

  class PgTables {
    var rows: seq<RawRow>
    var animals: map<nat, AnimalRow>
    var identities: Identities
    var display: map<(nat, Source), Display>
    var events: seq<Told>
    var nextAnimalId: nat

    /** Every animal row can be read, and every identity's animal is there. */
    ghost predicate Valid()
      reads this
    {
      && AllWellFormed(animals)
      && (forall k :: k in identities ==> identities[k].animalId in animals)
    }

    ghost function State(): Corpus
      requires Valid()
      reads this
    {
      Corpus(rows, ClaimsHeld(animals), identities, display, events, nextAnimalId)
    }

    constructor ()
      ensures Valid() && State() == EMPTY
    {
      rows, animals, identities, display, events, nextAnimalId := [], map[], map[], map[], [], 1;
    }

    /** Compares with the latest row only; touches it, or inserts. */
    method PersistRow(obs: Observation) returns (stored: Stored, inserted: bool)
      requires Valid()
      modifies this`rows
      ensures Valid() && rows == Persist(old(rows), obs)
      ensures stored == PgStored(old(rows), obs) && (inserted <==> !Repeats(old(rows), obs))
    {
      var latest := Latest(rows, obs.key);
      if latest.Some? && rows[latest.value].contentHash == obs.contentHash {
        rows := rows[latest.value := rows[latest.value].(lastSeen := obs.fetchedAt)];
        return Stored(rows[latest.value].rawId, obs.key, obs.payload, rows[latest.value].fetchedAt), false;
      }
      rows := rows + [RawRow(|rows| + 1, obs.key, obs.payload, obs.fetchedAt, obs.contentHash, obs.fetchedAt)];
      return Stored(|rows|, obs.key, obs.payload, obs.fetchedAt), true;
    }

    /** Only the touched fields' values and stamps, and no statement for a known animal when nothing was touched. */
    method WriteAnimal(known: Option<nat>, claims: AnimalClaims, rawId: nat) returns (id: nat, merged: MergeOutcome)
      requires Valid() && (known.Some? ==> known.value in animals)
      modifies this`animals, this`nextAnimalId
      ensures Valid() && id == (if known.Some? then known.value else old(nextAnimalId))
      ensures nextAnimalId == old(nextAnimalId) + (if known.Some? then 0 else 1)
      ensures merged == Merge(if known.Some? then ClaimsHeld(old(animals))[id] else map[], claims, rawId)
      ensures id in animals && ClaimsHeld(animals) == ClaimsHeld(old(animals))[id := merged.claims]
    {
      var row := if known.Some? then animals[known.value] else AnimalRow(map[], map[]);
      merged := MergeClaims(CurrentClaims(row), claims, rawId);
      TouchedFieldsSuffice(CurrentClaims(row), claims, rawId);
      row := StampAll(row, merged.claims, merged.touched);
      if known.Some? {
        id := known.value;
      } else {
        id := nextAnimalId;
        nextAnimalId := nextAnimalId + 1;
      }
      HeldAfter(animals, id, row);
      if known.None? || merged.touched != [] { animals := animals[id := row]; }
    }

    /** A new identity, or the upkeep stamp of one known. */
    method WriteIdentity(key: Key, id: nat, n: Normalized, occurredAt: Option<int>, ghost c: Corpus)
      requires Valid() && id in animals && c.identities == identities && c.rows == rows
      modifies this`identities
      ensures Valid() && identities == c.identities[key := PgIdentityAfter(c, key, id, n, occurredAt)]
    {
      if key !in identities {
        var newest := MaxLastSeen(rows, key);
        var sighting := if newest.Some? then newest.value else if occurredAt.Some? then occurredAt.value else 0;
        identities := identities[key := Identity(id, sighting, None, if n.upkeep.Stamp? then n.upkeep.at else None)];
      } else if n.upkeep.Stamp? {
        identities := identities[key := identities[key].(sourceUpdatedAt := n.upkeep.at)];
      }
    }

    method WriteCandidate(known: Option<nat>, key: Key, rawId: nat, n: Normalized)
      requires Valid() && (known.Some? <==> key in identities) && (known.Some? ==> identities[key].animalId == known.value)
      modifies this
      ensures Valid()
      ensures
        var c := old(State());
        var id := if known.Some? then known.value else c.nextAnimalId;
        State() == PgWritten(c, key, id, known.None?, rawId, n, Merge(if known.Some? then c.animals[id] else map[], n.claims, rawId))
    {
      ghost var c := State();
      var id, merged := WriteAnimal(known, n.claims, rawId);
      WriteIdentity(key, id, n, merged.occurredAt, c);
      if n.display.Some? { display := display[(id, key.source) := n.display.value]; }
      events := events + EventsOf(known.None?, id, key, rawId, merged);
      WrittenIs(c, key, id, known.None?, rawId, n, merged, State());
    }

    /** The canonical writer's one transaction; `applied` is false when it throws on a first observation it can't show. */
    method ApplyCandidate(key: Key, rawId: nat, n: Normalized) returns (applied: bool)
      requires Valid()
      modifies this
      ensures Valid() && State() == PgApply(old(State()), key, rawId, n)
      ensures applied <==> key in old(identities) || Viable(n.claims)
    {
      var known := if key in identities then Some(identities[key].animalId) else None;
      if known.None? && !Viable(n.claims) { return false; }
      WriteCandidate(known, key, rawId, n);
      return true;
    }

    method ObserveOne(norm: Normalizer, obs: Observation)
      requires Valid()
      modifies this
      ensures Valid() && State() == PgObserve(old(State()), norm, obs)
    {
      var stored, inserted := PersistRow(obs);
      var normalized := norm(stored);
      if normalized.Some? {
        var applied := ApplyCandidate(stored.key, stored.rawId, normalized.value);
      }
    }
  }
}
