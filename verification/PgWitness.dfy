/** Two short histories on which Postgres and the reference part. */
module PgWitness {
  import opened Prelude
  import opened Claims
  import opened ClaimOrder
  import opened RawStore
  import opened Lifecycle
  import opened Corpus
  import opened PgStages
  import opened PgRefinement

  const CAT: Key := Key(RescueGroups, "1")

  /** Reads the payload as the animal's name; of an empty one, no more than its species. */
  function Naming(): Normalizer {
    (o: Stored) =>
      var species := map[Species := Claim(Text("Cat"), RescueGroups, o.fetchedAt, o.rawId)];
      var named := species[Name := Claim(Text(o.payload), RescueGroups, o.fetchedAt, o.rawId)];
      Some(Normalized(if o.payload == "" then species else named, None, Absent))
  }

  function NameIn(c: Corpus): Option<Value> {
    if 1 in c.animals && Name in c.animals[1] then Some(c.animals[1][Name].value) else None
  }

  function TwoPolls(a: Observation, b: Observation): seq<PgRefinement.Op> { [PgRefinement.Op.Poll(a), PgRefinement.Op.Poll(b)] }

  lemma RunTwo(a: Observation, b: Observation)
    ensures Run(Naming(), TwoPolls(a, b)) == Observe(Observe(EMPTY, Naming(), a), Naming(), b)
    ensures PgRun(Naming(), TwoPolls(a, b)) == PgObserve(PgObserve(EMPTY, Naming(), a), Naming(), b)
  {
    var ops := TwoPolls(a, b);
    assert ops[..1] == [PgRefinement.Op.Poll(a)] && ops[..1][..0] == [];
    assert Run(Naming(), ops[..1]) == Observe(Run(Naming(), []), Naming(), a);
    assert PgRun(Naming(), ops[..1]) == PgObserve(PgRun(Naming(), []), Naming(), a);
  }

  /** The first poll of all founds the one animal, alike in both stores. */
  lemma FirstPoll(obs: Observation)
    requires obs.key == CAT && obs.payload != ""
    ensures
      var c := Observe(EMPTY, Naming(), obs);
      && PgObserve(EMPTY, Naming(), obs) == c && c.rows == [RawRow(1, CAT, obs.payload, obs.fetchedAt, obs.contentHash, obs.fetchedAt)]
      && CAT in c.identities && c.identities[CAT].animalId == 1 && c.identities[CAT].lastSeenAt == obs.fetchedAt
      && 1 in c.animals && Name in c.animals[1]
      && c.animals[1][Name] == Claim(Text(obs.payload), RescueGroups, obs.fetchedAt, 1)
  {
    NewRowIsLatest([], obs);
    NewRowAgreesExactly(EMPTY, Naming(), obs);
    var n := Naming()(PgStored([], obs)).value;
    MergedAt(map[], n.claims, 1, Name);
  }

  /** The fetched payload is claimed under the stored row's id and date, so it takes the field over. */
  lemma TakesTheName(c: Corpus, a: Observation, b: Observation)
    requires b == Observation(CAT, "Tim", b.fetchedAt, a.contentHash)
    requires c.rows == [RawRow(1, CAT, a.payload, a.fetchedAt, a.contentHash, a.fetchedAt)]
    requires CAT in c.identities && c.identities[CAT].animalId == 1 && 1 in c.animals && Name in c.animals[1]
    requires c.animals[1][Name] == Claim(Text(a.payload), RescueGroups, a.fetchedAt, 1)
    ensures Repeats(c.rows, b) && NameIn(PgObserve(c, Naming(), b)) == Some(Text("Tim"))
    ensures PgObserve(c, Naming(), b).rows == Persist(c.rows, b)
  {
    assert Latest(c.rows, CAT) == Some(0);
    var o := PgStored(c.rows, b);
    MergedAt(c.animals[1], Naming()(o).value.claims, 1, Name);
  }

  /** The reference reads a repeat as the row it repeats. */
  lemma RepeatKeepsMemory(a: Observation, b: Observation)
    requires a.key == CAT && a.payload != "" && b.key == CAT && b.contentHash == a.contentHash
    ensures
      var c := Observe(EMPTY, Naming(), a);
      Repeats(c.rows, b) && Observe(c, Naming(), b) == c.(rows := Persist(c.rows, b))
  {
    var c, ops := Observe(EMPTY, Naming(), a), [PgRefinement.Op.Poll(a)];
    FirstPoll(a);
    assert ops[..0] == [] && Run(Naming(), ops) == Observe(Run(Naming(), []), Naming(), a) == c;
    RunRebuilds(Naming(), ops);
    RebuiltIsCaught(c, Naming());
    assert Latest(c.rows, CAT) == Some(0);
    RepeatAgreesExactly(c, Naming(), b);
  }

  lemma DifferentNamesApart(pg: Corpus, mem: Corpus, rebuilt: Corpus)
    requires Same(mem, rebuilt) && NameIn(pg) != NameIn(mem)
    ensures !Same(pg, rebuilt)
  {
  }

  /** The second of two polls of one hash, after the first. */
  lemma SecondPollParts(a: Observation, b: Observation)
    requires a == Observation(CAT, "Tom", a.fetchedAt, "hash") && b == Observation(CAT, "Tim", b.fetchedAt, "hash")
    ensures
      var c := Observe(EMPTY, Naming(), a);
      var mem, pg := Observe(c, Naming(), b), PgObserve(PgObserve(EMPTY, Naming(), a), Naming(), b);
      NameIn(mem) == Some(Text("Tom")) && NameIn(pg) == Some(Text("Tim")) && pg.rows == mem.rows
  {
    FirstPoll(a);
    RepeatKeepsMemory(a, b);
    TakesTheName(Observe(EMPTY, Naming(), a), a, b);
  }

  lemma NamesDiffer()
    ensures "Tom" != "Tim"
  {
    assert "Tom"[1] != "Tim"[1];
  }

  /** The reference's corpus can be rebuilt from rows that no longer give the name Postgres holds. */
  lemma NotRebuilt(norm: Normalizer, ops: seq<PgRefinement.Op>, pg: Corpus)
    requires NameIn(Run(norm, ops)) == Some(Text("Tom")) && NameIn(pg) == Some(Text("Tim")) && pg.rows == Run(norm, ops).rows
    ensures Same(Run(norm, ops), Rebuilt(Run(norm, ops).rows, norm)) && !Same(pg, Rebuilt(pg.rows, norm))
  {
    RunRebuilds(norm, ops);
    NamesDiffer();
    DifferentNamesApart(pg, Run(norm, ops), Rebuilt(pg.rows, norm));
  }

  /**
   One hash, two payloads: the reference keeps the name it read from the stored one and Postgres takes the fetched one's, which a
   rebuild from its rows then loses.
   */
  lemma PayloadsPart(at: int)
    ensures
      var a, b := Observation(CAT, "Tom", at, "hash"), Observation(CAT, "Tim", at + 1, "hash");
      var mem, pg := Run(Naming(), TwoPolls(a, b)), PgRun(Naming(), TwoPolls(a, b));
      && NameIn(mem) == Some(Text("Tom")) && NameIn(pg) == Some(Text("Tim"))
      && pg.rows == mem.rows && Same(mem, Rebuilt(mem.rows, Naming())) && !Same(pg, Rebuilt(pg.rows, Naming()))
  {
    var a, b := Observation(CAT, "Tom", at, "hash"), Observation(CAT, "Tim", at + 1, "hash");
    RunTwo(a, b);
    SecondPollParts(a, b);
    NotRebuilt(Naming(), TwoPolls(a, b), PgRun(Naming(), TwoPolls(a, b)));
  }

  /** A corpus holding one row, too poor to found the animal. */
  function OnePoorRow(at: int): Corpus { EMPTY.(rows := [RawRow(1, CAT, "", at, "poor", at)]) }

  lemma PoorRowFoundsNothing(at: int)
    ensures
      var a := Observation(CAT, "", at, "poor");
      Observe(EMPTY, Naming(), a) == OnePoorRow(at) && PgObserve(EMPTY, Naming(), a) == OnePoorRow(at)
  {
    var a := Observation(CAT, "", at, "poor");
    assert Persist([], a) == OnePoorRow(at).rows;
  }

  lemma RichRowIsNew(at: int)
    ensures
      var c, b := OnePoorRow(at), Observation(CAT, "Tom", at - 1, "rich");
      !Repeats(c.rows, b) && MaxLastSeen(Persist(c.rows, b), CAT) == Some(at)
  {
    var c, b := OnePoorRow(at), Observation(CAT, "Tom", at - 1, "rich");
    assert Latest(c.rows, CAT) == Some(0);
    assert "poor"[0] != "rich"[0];
    var rows := Persist(c.rows, b);
    assert rows == [c.rows[0], RawRow(2, CAT, "Tom", at - 1, "rich", at - 1)];
    assert rows[..1] == [c.rows[0]] && [c.rows[0]][..0] == [];
    assert MaxLastSeen(rows[..1], CAT) == Some(at);
  }

  /** A row too poor to found the animal, then, the clock having stepped back, one that founds it: the stores date it differently. */
  lemma SightingsPart(at: int)
    ensures
      var a, b := Observation(CAT, "", at, "poor"), Observation(CAT, "Tom", at - 1, "rich");
      var mem, pg := Run(Naming(), TwoPolls(a, b)), PgRun(Naming(), TwoPolls(a, b));
      && CAT in mem.identities && mem.identities[CAT].lastSeenAt == at - 1
      && CAT in pg.identities && pg.identities[CAT].lastSeenAt == at
  {
    var a, b := Observation(CAT, "", at, "poor"), Observation(CAT, "Tom", at - 1, "rich");
    RunTwo(a, b);
    PoorRowFoundsNothing(at);
    RichRowIsNew(at);
    var c := OnePoorRow(at);
    NewRowIsLatest(c.rows, b);
    FoundingDates(c.(rows := Persist(c.rows, b)), PgStored(c.rows, b));
  }

  lemma FoundingDates(c: Corpus, o: Stored)
    requires o.key !in c.identities && o.payload != "" && Latest(c.rows, o.key).Some? && MaxLastSeen(c.rows, o.key).Some?
    ensures
      var mem, pg := Derive(c, Naming(), o), PgDerive(c, Naming(), o);
      && o.key in mem.identities && mem.identities[o.key].lastSeenAt == c.rows[Latest(c.rows, o.key).value].lastSeen
      && o.key in pg.identities && pg.identities[o.key].lastSeenAt == MaxLastSeen(c.rows, o.key).value
  {
  }
}
