/**
 Postgres beside the reference, poll by poll: exactly when the two corpora are equal over a whole history, and exactly when what
 Postgres holds can be rebuilt from its rows.
 */
module PgRefinement {
  import opened Prelude
  import opened Claims
  import opened ClaimOrder
  import opened RawStore
  import opened Lifecycle
  import opened Corpus
  import opened PgStages

  /** A poll, or a reconcile that went through: stage 5 does the same to equal identities in both stores. */
  datatype Op = Poll(obs: Observation) | Reconcile(source: Source, seen: set<string>, at: int)

  function Moved(c: Corpus, source: Source, seen: set<string>, at: int): Corpus {
    c.(identities := Reconciled(c.identities, source, seen, at))
  }

  function Run(norm: Normalizer, ops: seq<Op>): Corpus {
    if ops == [] then EMPTY else
      var before := Run(norm, ops[..|ops| - 1]);
      match ops[|ops| - 1]
      case Poll(obs) => Observe(before, norm, obs)
      case Reconcile(source, seen, at) => Moved(before, source, seen, at)
  }

  function PgRun(norm: Normalizer, ops: seq<Op>): Corpus {
    if ops == [] then EMPTY else
      var before := PgRun(norm, ops[..|ops| - 1]);
      match ops[|ops| - 1]
      case Poll(obs) => PgObserve(before, norm, obs)
      case Reconcile(source, seen, at) => Moved(before, source, seen, at)
  }

  // ---------- one poll ----------

  /**
   A repeat whose fetched payload, read in the stored one's place, adds nothing. Payloads of one hash can differ in what the hash
   leaves out.
   */
  ghost predicate RepeatReadsAlike(c: Corpus, norm: Normalizer, obs: Observation) {
    Repeats(c.rows, obs) ==> Settled(c, norm, PgStored(c.rows, obs))
  }

  predicate FoundsAnimal(c: Corpus, norm: Normalizer, obs: Observation) {
    var n := norm(PgStored(c.rows, obs));
    obs.key !in c.identities && n.Some? && Viable(n.value.claims)
  }

  /** A poll that founds an animal, none of whose earlier rows was seen later. */
  ghost predicate FoundsInOrder(c: Corpus, norm: Normalizer, obs: Observation) {
    !Repeats(c.rows, obs) && FoundsAnimal(c, norm, obs) ==> forall r :: r in c.rows && r.key == obs.key ==> r.lastSeen <= obs.fetchedAt
  }

  /** Where a history stands: the newest row of each identity is settled. */
  ghost predicate Caught(c: Corpus, norm: Normalizer) {
    && OwnAnimals(c)
    && forall key :: Latest(c.rows, key).Some? ==> Settled(c, norm, StoredOf(c.rows[Latest(c.rows, key).value]))
  }

  lemma SettledChangesNothing(c: Corpus, norm: Normalizer, o: Stored)
    requires OwnAnimals(c) && Settled(c, norm, o)
    ensures Derive(c, norm, o) == c
  {
  }

  lemma UnchangedIsSettled(c: Corpus, norm: Normalizer, o: Stored)
    requires OwnAnimals(c) && Same(Derive(c, norm, o), c)
    ensures Settled(c, norm, o)
  {
    if norm(o).Some? && o.key in c.identities {
      var id := c.identities[o.key].animalId;
      assert Derive(c, norm, o).animals[id] == Merge(c.animals[id], norm(o).value.claims, o.rawId).claims;
      SameClaimsAreSilent(c.animals[id], norm(o).value.claims, o.rawId);
    }
  }

  /** Deriving a row leaves the corpus just as it was exactly when the row is settled. */
  lemma SettledExactly(c: Corpus, norm: Normalizer, o: Stored)
    requires OwnAnimals(c)
    ensures Derive(c, norm, o) == c <==> Settled(c, norm, o)
    ensures Same(Derive(c, norm, o), c) <==> Settled(c, norm, o)
  {
    if Settled(c, norm, o) { SettledChangesNothing(c, norm, o); }
    if Same(Derive(c, norm, o), c) { UnchangedIsSettled(c, norm, o); }
  }

  /** Of what a rebuild restores, the two writers store the same; of the rest, they differ in a new identity's sighting. */
  lemma DerivesSame(c: Corpus, norm: Normalizer, o: Stored)
    ensures Same(PgDerive(c, norm, o), Derive(c, norm, o))
    ensures o.key in c.identities ==> PgDerive(c, norm, o) == Derive(c, norm, o)
  {
  }

  lemma SettledRowsApart(c: Corpus, norm: Normalizer, o: Stored, rows: seq<RawRow>)
    ensures Settled(c.(rows := rows), norm, o) <==> Settled(c, norm, o)
  {
  }

  lemma PgSettledExactly(c: Corpus, norm: Normalizer, o: Stored)
    requires OwnAnimals(c)
    ensures PgDerive(c, norm, o) == c <==> Settled(c, norm, o)
    ensures Same(PgDerive(c, norm, o), c) <==> Settled(c, norm, o)
  {
    SettledExactly(c, norm, o);
    DerivesSame(c, norm, o);
  }

  lemma RepeatAgreesExactly(c: Corpus, norm: Normalizer, obs: Observation)
    requires Caught(c, norm) && Repeats(c.rows, obs)
    ensures Observe(c, norm, obs) == c.(rows := Persist(c.rows, obs))
    ensures PgObserve(c, norm, obs) == Observe(c, norm, obs) <==> RepeatReadsAlike(c, norm, obs)
    ensures Same(PgObserve(c, norm, obs), c) <==> RepeatReadsAlike(c, norm, obs)
  {
    var rows := Persist(c.rows, obs);
    var touched := c.(rows := rows);
    var o := StoredOf(rows[RowFor(c.rows, obs)]);
    assert o == StoredOf(c.rows[Latest(c.rows, obs.key).value]);
    SettledRowsApart(c, norm, o, rows);
    SettledExactly(touched, norm, o);
    SettledRowsApart(c, norm, PgStored(c.rows, obs), rows);
    PgSettledExactly(touched, norm, PgStored(c.rows, obs));
  }

  lemma NewestSeenWhen(rows: seq<RawRow>, row: RawRow)
    ensures MaxLastSeen(rows + [row], row.key) == Some(row.lastSeen) <==>
      forall r :: r in rows && r.key == row.key ==> r.lastSeen <= row.lastSeen
  {
    assert (rows + [row])[..|rows|] == rows;
    assert forall r :: r in rows ==> exists i :: 0 <= i < |rows| && rows[i] == r;
  }

  lemma NewRowIsLatest(rows: seq<RawRow>, obs: Observation)
    requires !Repeats(rows, obs)
    ensures
      var after := Persist(rows, obs);
      && Latest(after, obs.key) == Some(|rows|) && after[|rows|].lastSeen == obs.fetchedAt
      && PgStored(rows, obs) == StoredOf(after[RowFor(rows, obs)])
      && (MaxLastSeen(after, obs.key) == Some(obs.fetchedAt) <==> forall r :: r in rows && r.key == obs.key ==> r.lastSeen <= obs.fetchedAt)
  {
    var after := Persist(rows, obs);
    NewestSeenWhen(rows, after[|rows|]);
  }

  /** A founding is the same in both stores exactly when both date it alike. */
  lemma FoundingAgreesExactly(c: Corpus, norm: Normalizer, o: Stored)
    requires o.key !in c.identities && norm(o).Some? && Viable(norm(o).value.claims)
    ensures
      var occurredAt := Merge(map[], norm(o).value.claims, o.rawId).occurredAt;
      PgDerive(c, norm, o) == Derive(c, norm, o) <==> PgFirstSighting(c.rows, o.key, occurredAt) == FirstSighting(c.rows, o.key, occurredAt)
  {
    var n, id := norm(o).value, c.nextAnimalId;
    var merged := Merge(map[], n.claims, o.rawId);
    assert PgDerive(c, norm, o).identities[o.key] == PgIdentityAfter(c, o.key, id, n, merged.occurredAt);
    assert Derive(c, norm, o).identities[o.key] == IdentityAfter(c, o.key, id, n, merged.occurredAt);
  }

  /** Nothing founded, nothing dated. */
  lemma NoFoundingAgrees(c: Corpus, norm: Normalizer, o: Stored)
    requires o.key in c.identities || norm(o).None? || !Viable(norm(o).value.claims)
    ensures PgDerive(c, norm, o) == Derive(c, norm, o)
  {
  }

  lemma NewRowAgreesExactly(c: Corpus, norm: Normalizer, obs: Observation)
    requires !Repeats(c.rows, obs)
    ensures Same(PgObserve(c, norm, obs), Observe(c, norm, obs))
    ensures PgObserve(c, norm, obs) == Observe(c, norm, obs) <==> FoundsInOrder(c, norm, obs)
  {
    var o, d := PgStored(c.rows, obs), c.(rows := Persist(c.rows, obs));
    NewRowIsLatest(c.rows, obs);
    DerivesSame(d, norm, o);
    if FoundsAnimal(c, norm, obs) { FoundingAgreesExactly(d, norm, o); } else { NoFoundingAgrees(d, norm, o); }
  }

  /** The two stores do the same with a poll exactly when a repeat reads alike and a founding comes in order. */
  lemma PollAgreesExactly(c: Corpus, norm: Normalizer, obs: Observation)
    requires Caught(c, norm)
    ensures PgObserve(c, norm, obs) == Observe(c, norm, obs) <==> RepeatReadsAlike(c, norm, obs) && FoundsInOrder(c, norm, obs)
  {
    if Repeats(c.rows, obs) { RepeatAgreesExactly(c, norm, obs); } else { NewRowAgreesExactly(c, norm, obs); }
  }

  // ---------- whole histories ----------

  lemma SettledAcross(c: Corpus, d: Corpus, norm: Normalizer, o: Stored)
    requires Same(c, d)
    ensures Settled(c, norm, o) <==> Settled(d, norm, o)
  {
  }

  lemma OwnAcross(c: Corpus, d: Corpus)
    requires Same(c, d) && OwnAnimals(d)
    ensures OwnAnimals(c)
  {
  }

  /** What can be rebuilt from its rows has caught up with them. */
  lemma RebuiltIsCaught(c: Corpus, norm: Normalizer)
    requires Same(c, Rebuilt(c.rows, norm))
    ensures Caught(c, norm)
  {
    var stored := StoredRows(c.rows);
    ReplayKeepsOwn(EMPTY.(rows := c.rows), norm, stored);
    OwnAcross(c, Rebuilt(c.rows, norm));
    forall key | Latest(c.rows, key).Some? ensures Settled(c, norm, StoredOf(c.rows[Latest(c.rows, key).value])) {
      var i := Latest(c.rows, key).value;
      assert forall j :: i < j < |stored| ==> stored[j].key == c.rows[j].key;
      NewestRowIsSettled(EMPTY.(rows := c.rows), norm, stored, i);
      SettledAcross(c, Rebuilt(c.rows, norm), norm, stored[i]);
    }
  }

  lemma MovedRebuilds(c: Corpus, norm: Normalizer, source: Source, seen: set<string>, at: int)
    requires Same(c, Rebuilt(c.rows, norm))
    ensures Same(Moved(c, source, seen, at), Rebuilt(c.rows, norm))
  {
  }

  lemma {:induction false} RunRebuilds(norm: Normalizer, ops: seq<Op>)
    ensures Same(Run(norm, ops), Rebuilt(Run(norm, ops).rows, norm))
  {
    if ops != [] {
      var c := Run(norm, ops[..|ops| - 1]);
      RunRebuilds(norm, ops[..|ops| - 1]);
      match ops[|ops| - 1]
      case Poll(obs) => ObserveRebuilds(c, norm, obs);
      case Reconcile(source, seen, at) => MovedRebuilds(c, norm, source, seen, at);
    }
  }

  ghost predicate EqualThroughout(norm: Normalizer, ops: seq<Op>) {
    forall n :: 0 <= n <= |ops| ==> PgRun(norm, ops[..n]) == Run(norm, ops[..n])
  }

  ghost predicate PollsAgree(norm: Normalizer, ops: seq<Op>) {
    forall n :: 0 <= n < |ops| && ops[n].Poll? ==>
      RepeatReadsAlike(Run(norm, ops[..n]), norm, ops[n].obs) && FoundsInOrder(Run(norm, ops[..n]), norm, ops[n].obs)
  }

  lemma Prefixes<T>(s: seq<T>, n: nat)
    requires n < |s|
    ensures s[..n + 1][..n] == s[..n] && s[..n + 1][|s[..n + 1]| - 1] == s[n]
  {
  }

  lemma StepAgreesExactly(norm: Normalizer, ops: seq<Op>, n: nat)
    requires n < |ops| && PgRun(norm, ops[..n]) == Run(norm, ops[..n])
    ensures PgRun(norm, ops[..n + 1]) == Run(norm, ops[..n + 1]) <==>
      (ops[n].Poll? ==> RepeatReadsAlike(Run(norm, ops[..n]), norm, ops[n].obs) && FoundsInOrder(Run(norm, ops[..n]), norm, ops[n].obs))
  {
    var c := Run(norm, ops[..n]);
    Prefixes(ops, n);
    RunRebuilds(norm, ops[..n]);
    RebuiltIsCaught(c, norm);
    if ops[n].Poll? { PollAgreesExactly(c, norm, ops[n].obs); }
  }

  lemma {:induction false} AgreesUpTo(norm: Normalizer, ops: seq<Op>, n: nat)
    requires n <= |ops| && PollsAgree(norm, ops)
    ensures PgRun(norm, ops[..n]) == Run(norm, ops[..n])
  {
    if n > 0 {
      AgreesUpTo(norm, ops, n - 1);
      StepAgreesExactly(norm, ops, n - 1);
    }
  }

  /**
   The Postgres corpus is the reference's at every point of a history exactly when no repeat read differently to any effect, and at no
   founding had an earlier row been seen later.
   */
  lemma PgAgreesExactly(norm: Normalizer, ops: seq<Op>)
    ensures EqualThroughout(norm, ops) <==> PollsAgree(norm, ops)
  {
    if PollsAgree(norm, ops) {
      forall n | 0 <= n <= |ops| ensures PgRun(norm, ops[..n]) == Run(norm, ops[..n]) { AgreesUpTo(norm, ops, n); }
    }
    if EqualThroughout(norm, ops) {
      forall n | 0 <= n < |ops| && ops[n].Poll?
        ensures RepeatReadsAlike(Run(norm, ops[..n]), norm, ops[n].obs) && FoundsInOrder(Run(norm, ops[..n]), norm, ops[n].obs)
      {
        assert PgRun(norm, ops[..n + 1]) == Run(norm, ops[..n + 1]);
        StepAgreesExactly(norm, ops, n);
      }
    }
  }

  /** Payloads that normalize alike are one way for a repeat to read alike. */
  lemma SamePayloadReadsAlike(norm: Normalizer, ops: seq<Op>, obs: Observation)
    requires
      var c := Run(norm, ops);
      Repeats(c.rows, obs) ==>
        norm(PgStored(c.rows, obs)) == norm(StoredOf(c.rows[Latest(c.rows, obs.key).value]))
    ensures RepeatReadsAlike(Run(norm, ops), norm, obs)
  {
    RunRebuilds(norm, ops);
    RebuiltIsCaught(Run(norm, ops), norm);
  }

  // ---------- rebuilding on Postgres ----------

  ghost predicate RebuildsThroughout(norm: Normalizer, ops: seq<Op>) {
    forall n :: 0 <= n <= |ops| ==> Same(PgRun(norm, ops[..n]), Rebuilt(PgRun(norm, ops[..n]).rows, norm))
  }

  ghost predicate RepeatsReadAlike(norm: Normalizer, ops: seq<Op>) {
    forall n :: 0 <= n < |ops| && ops[n].Poll? ==> RepeatReadsAlike(PgRun(norm, ops[..n]), norm, ops[n].obs)
  }

  lemma SameChain(a: Corpus, b: Corpus, c: Corpus)
    requires Same(a, b)
    ensures Same(a, c) <==> Same(b, c)
  {
  }

  lemma PollRebuildsExactly(c: Corpus, norm: Normalizer, obs: Observation)
    requires Same(c, Rebuilt(c.rows, norm))
    ensures PgObserve(c, norm, obs).rows == Persist(c.rows, obs)
    ensures Same(PgObserve(c, norm, obs), Rebuilt(Persist(c.rows, obs), norm)) <==> RepeatReadsAlike(c, norm, obs)
  {
    RebuiltIsCaught(c, norm);
    ObserveRebuilds(c, norm, obs);
    var rebuilt, pg, mem := Rebuilt(Persist(c.rows, obs), norm), PgObserve(c, norm, obs), Observe(c, norm, obs);
    if Repeats(c.rows, obs) {
      RepeatAgreesExactly(c, norm, obs);
      TouchedIsSame(c, Persist(c.rows, obs));
      SameTurned(c, mem);
      SameBetween(pg, c, mem, rebuilt);
    } else {
      NewRowAgreesExactly(c, norm, obs);
      SameChain(pg, mem, rebuilt);
    }
  }

  lemma TouchedIsSame(c: Corpus, rows: seq<RawRow>)
    ensures Same(c.(rows := rows), c)
  {
  }

  lemma SameTurned(a: Corpus, b: Corpus)
    ensures Same(a, b) <==> Same(b, a)
  {
  }

  lemma SameBetween(pg: Corpus, c: Corpus, mem: Corpus, rebuilt: Corpus)
    requires Same(c, mem) && Same(mem, rebuilt)
    ensures Same(pg, rebuilt) <==> Same(pg, c)
  {
    SameChain(c, mem, rebuilt);
    if Same(pg, c) { SameChain(pg, c, rebuilt); }
    if Same(pg, rebuilt) {
      SameTurned(c, rebuilt);
      SameChain(pg, rebuilt, c);
    }
  }

  lemma StepRebuildsExactly(norm: Normalizer, ops: seq<Op>, n: nat)
    requires n < |ops| && Same(PgRun(norm, ops[..n]), Rebuilt(PgRun(norm, ops[..n]).rows, norm))
    ensures Same(PgRun(norm, ops[..n + 1]), Rebuilt(PgRun(norm, ops[..n + 1]).rows, norm)) <==>
      (ops[n].Poll? ==> RepeatReadsAlike(PgRun(norm, ops[..n]), norm, ops[n].obs))
  {
    var c := PgRun(norm, ops[..n]);
    Prefixes(ops, n);
    match ops[n]
    case Poll(obs) => PollRebuildsExactly(c, norm, obs);
    case Reconcile(source, seen, at) => MovedRebuilds(c, norm, source, seen, at);
  }

  lemma {:induction false} RebuildsUpTo(norm: Normalizer, ops: seq<Op>, n: nat)
    requires n <= |ops| && RepeatsReadAlike(norm, ops)
    ensures Same(PgRun(norm, ops[..n]), Rebuilt(PgRun(norm, ops[..n]).rows, norm))
  {
    if n > 0 {
      RebuildsUpTo(norm, ops, n - 1);
      StepRebuildsExactly(norm, ops, n - 1);
    }
  }

  /**
   What Postgres holds can be rebuilt from its rows at every point exactly when no repeat read differently to any effect; foundings
   don't matter.
   */
  lemma PgRebuildsExactly(norm: Normalizer, ops: seq<Op>)
    ensures RebuildsThroughout(norm, ops) <==> RepeatsReadAlike(norm, ops)
  {
    if RepeatsReadAlike(norm, ops) {
      forall n | 0 <= n <= |ops| ensures Same(PgRun(norm, ops[..n]), Rebuilt(PgRun(norm, ops[..n]).rows, norm)) { RebuildsUpTo(norm, ops, n); }
    }
    if RebuildsThroughout(norm, ops) {
      forall n | 0 <= n < |ops| && ops[n].Poll? ensures RepeatReadsAlike(PgRun(norm, ops[..n]), norm, ops[n].obs) {
        assert Same(PgRun(norm, ops[..n + 1]), Rebuilt(PgRun(norm, ops[..n + 1]).rows, norm));
        StepRebuildsExactly(norm, ops, n);
      }
    }
  }
}
