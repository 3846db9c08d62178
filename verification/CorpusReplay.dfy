/** Replaying the whole corpus over what it already built: silent exactly when the rows refused before their animal was founded add nothing. */
module CorpusReplay {
  import opened Prelude
  import opened Claims
  import opened ClaimOrder
  import opened RawStore
  import opened Lifecycle
  import opened Corpus

  function RowOf(key: Key): Stored -> bool { (o: Stored) => o.key == key }

  function Reads(norm: Normalizer): Stored -> bool { (o: Stored) => norm(o).Some? }

  /** A row that may found an animal: it can show a donor something. */
  predicate Founds(norm: Normalizer, o: Stored) { norm(o).Some? && Viable(norm(o).value.claims) }

  /** The rows one identity has had applied: `held`, then each that normalizes, from a founding row on. */
  function Extended(norm: Normalizer, held: seq<Stored>, rows: seq<Stored>): seq<Stored> {
    if rows == [] then held else
      var before, o := Extended(norm, held, rows[..|rows| - 1]), rows[|rows| - 1];
      if norm(o).Some? && (before != [] || Founds(norm, o)) then before + [o] else before
  }

  function AppliedRows(norm: Normalizer, rows: seq<Stored>): seq<Stored> { Extended(norm, [], rows) }

  /** The rows that normalized and were refused, having come before any that could found the animal. */
  function RefusedRows(norm: Normalizer, rows: seq<Stored>): seq<Stored> {
    if rows == [] then [] else
      var init, o := rows[..|rows| - 1], rows[|rows| - 1];
      RefusedRows(norm, init) + if norm(o).Some? && AppliedRows(norm, init) == [] && !Founds(norm, o) then [o] else []
  }

  function DerivedOf(norm: Normalizer, o: Stored): Derived {
    Derived(o.rawId, if norm(o).Some? then norm(o).value.claims else map[])
  }

  function AllDerived(norm: Normalizer, rows: seq<Stored>): seq<Derived> {
    seq(|rows|, i requires 0 <= i < |rows| => DerivedOf(norm, rows[i]))
  }

  /** The newest display among the rows, if any row has one. */
  function LastDisplay(norm: Normalizer, rows: seq<Stored>): Option<Display> {
    if rows == [] then None
    else
      var n := norm(rows[|rows| - 1]);
      if n.Some? && n.value.display.Some? then n.value.display else LastDisplay(norm, rows[..|rows| - 1])
  }

  function LastUpkeep(norm: Normalizer, rows: seq<Stored>): Upkeep {
    if rows == [] then Absent
    else
      var n := norm(rows[|rows| - 1]);
      if n.Some? && n.value.upkeep.Stamp? then n.value.upkeep else LastUpkeep(norm, rows[..|rows| - 1])
  }

  /** The upkeep stamp an identity holds: none is null. */
  function StampOf(upkeep: Upkeep): Option<int> { if upkeep.Stamp? then upkeep.at else None }

  // ---------- what an identity shows ----------

  function DisplayAt(c: Corpus, key: Key): Option<Display>
    requires key in c.identities
  {
    var at := (c.identities[key].animalId, key.source);
    if at in c.display then Some(c.display[at]) else None
  }

  /** What an identity shows is what the rows applied to it say. */
  ghost predicate Shows(c: Corpus, norm: Normalizer, key: Key, rows: seq<Stored>) {
    && (key in c.identities <==> rows != [])
    && (key in c.identities ==>
          && ClaimsOf(c, c.identities[key].animalId) == Fold(AllDerived(norm, rows))
          && DisplayAt(c, key) == LastDisplay(norm, rows)
          && c.identities[key].sourceUpdatedAt == StampOf(LastUpkeep(norm, rows)))
  }

  ghost predicate OwnedAnimal(c: Corpus, id: nat) { exists k :: k in c.identities && c.identities[k].animalId == id }

  ghost predicate OwnedDisplay(c: Corpus, at: (nat, Source)) {
    exists k :: k in c.identities && at == (c.identities[k].animalId, k.source)
  }

  /** Every animal and every display is some identity's. */
  ghost predicate Attached(c: Corpus) {
    && OwnAnimals(c)
    && (forall id :: id in c.animals ==> OwnedAnimal(c, id))
    && (forall at :: at in c.display ==> OwnedDisplay(c, at))
  }

  lemma DerivedSnoc(norm: Normalizer, rows: seq<Stored>, o: Stored)
    ensures AllDerived(norm, rows + [o]) == AllDerived(norm, rows) + [DerivedOf(norm, o)]
    ensures Fold(AllDerived(norm, rows + [o])) == Merge(Fold(AllDerived(norm, rows)), DerivedOf(norm, o).claims, o.rawId).claims
  {
    var all := AllDerived(norm, rows + [o]);
    assert all == AllDerived(norm, rows) + [DerivedOf(norm, o)];
    assert all[..|all| - 1] == AllDerived(norm, rows);
  }

  lemma LastSnoc(norm: Normalizer, rows: seq<Stored>, o: Stored)
    ensures LastDisplay(norm, rows + [o]) ==
      if norm(o).Some? && norm(o).value.display.Some? then norm(o).value.display else LastDisplay(norm, rows)
    ensures LastUpkeep(norm, rows + [o]) ==
      if norm(o).Some? && norm(o).value.upkeep.Stamp? then norm(o).value.upkeep else LastUpkeep(norm, rows)
  {
    assert (rows + [o])[..|rows|] == rows;
  }

  lemma FoundingShows(c: Corpus, norm: Normalizer, o: Stored)
    requires Attached(c) && o.key !in c.identities && Founds(norm, o)
    ensures Shows(Derive(c, norm, o), norm, o.key, [o])
  {
    DerivedSnoc(norm, [], o);
    LastSnoc(norm, [], o);
    assert [] + [o] == [o] && AllDerived(norm, []) == [];
    assert (c.nextAnimalId, o.key.source) !in c.display;
  }

  lemma NextRowShows(c: Corpus, norm: Normalizer, o: Stored, rows: seq<Stored>)
    requires rows != [] && Shows(c, norm, o.key, rows) && norm(o).Some?
    ensures Shows(Derive(c, norm, o), norm, o.key, rows + [o])
  {
    DerivedSnoc(norm, rows, o);
    LastSnoc(norm, rows, o);
  }

  lemma OthersShow(c: Corpus, norm: Normalizer, o: Stored, key: Key, rows: seq<Stored>)
    requires Attached(c) && Shows(c, norm, key, rows) && o.key != key
    ensures Shows(Derive(c, norm, o), norm, key, rows)
  {
  }

  lemma DeriveShows(c: Corpus, norm: Normalizer, o: Stored, key: Key, rows: seq<Stored>)
    requires Attached(c) && Shows(c, norm, key, rows)
    ensures Shows(Derive(c, norm, o), norm, key,
                  if o.key == key && norm(o).Some? && (rows != [] || Founds(norm, o)) then rows + [o] else rows)
  {
    if o.key != key {
      OthersShow(c, norm, o, key, rows);
    } else if norm(o).Some? && rows == [] && Founds(norm, o) {
      assert rows + [o] == [o];
      FoundingShows(c, norm, o);
    } else if norm(o).Some? && rows != [] {
      NextRowShows(c, norm, o, rows);
    }
  }

  lemma DeriveKeepsIds(c: Corpus, norm: Normalizer, o: Stored)
    ensures KeepsIds(c, Derive(c, norm, o))
  {
  }

  ghost predicate KeepsIds(c: Corpus, d: Corpus) {
    forall k :: k in c.identities ==> k in d.identities && d.identities[k].animalId == c.identities[k].animalId
  }

  lemma OwnedStays(c: Corpus, d: Corpus)
    requires KeepsIds(c, d)
    ensures forall id :: OwnedAnimal(c, id) ==> OwnedAnimal(d, id)
    ensures forall at :: OwnedDisplay(c, at) ==> OwnedDisplay(d, at)
  {
    forall id | OwnedAnimal(c, id) ensures OwnedAnimal(d, id) {
      var k :| k in c.identities && c.identities[k].animalId == id;
      assert k in d.identities;
    }
    forall at | OwnedDisplay(c, at) ensures OwnedDisplay(d, at) {
      var k :| k in c.identities && at == (c.identities[k].animalId, k.source);
      assert k in d.identities && at == (d.identities[k].animalId, k.source);
    }
  }

  /** What a write adds is the identity's own. */
  lemma DeriveAddsOwn(c: Corpus, norm: Normalizer, o: Stored)
    ensures
      var d := Derive(c, norm, o);
      && (forall id :: id in d.animals && id !in c.animals ==> o.key in d.identities && d.identities[o.key].animalId == id)
      && (forall at :: at in d.display && at !in c.display ==> o.key in d.identities && at == (d.identities[o.key].animalId, o.key.source))
  {
  }

  lemma DeriveKeepsAttached(c: Corpus, norm: Normalizer, o: Stored)
    requires Attached(c)
    ensures Attached(Derive(c, norm, o)) && KeepsIds(c, Derive(c, norm, o))
  {
    DeriveKeepsOwn(c, norm, o);
    DeriveKeepsIds(c, norm, o);
    OwnedStays(c, Derive(c, norm, o));
    DeriveAddsOwn(c, norm, o);
  }

  lemma {:induction false} ReplayKeepsAttached(c: Corpus, norm: Normalizer, stored: seq<Stored>)
    requires Attached(c)
    ensures Attached(Replay(c, norm, stored))
    ensures KeepsIds(c, Replay(c, norm, stored))
  {
    if stored != [] {
      var init := stored[..|stored| - 1];
      ReplayKeepsAttached(c, norm, init);
      DeriveKeepsAttached(Replay(c, norm, init), norm, stored[|stored| - 1]);
    }
  }

  lemma ExtendedSnoc(norm: Normalizer, held: seq<Stored>, rows: seq<Stored>, o: Stored)
    ensures
      var before := Extended(norm, held, rows);
      Extended(norm, held, rows + [o]) == if norm(o).Some? && (before != [] || Founds(norm, o)) then before + [o] else before
  {
    assert (rows + [o])[..|rows|] == rows;
  }

  /** A replay, from any corpus, leaves each identity showing what it held and the rows applied since. */
  lemma {:induction false} ReplayShows(c: Corpus, norm: Normalizer, stored: seq<Stored>, key: Key, held: seq<Stored>)
    requires Attached(c) && Shows(c, norm, key, held)
    ensures Shows(Replay(c, norm, stored), norm, key, Extended(norm, held, Filter(RowOf(key), stored)))
  {
    if stored != [] {
      var init, o := stored[..|stored| - 1], stored[|stored| - 1];
      assert stored == init + [o];
      FilterSnoc(RowOf(key), init, o);
      ReplayShows(c, norm, init, key, held);
      ReplayKeepsAttached(c, norm, init);
      DeriveShows(Replay(c, norm, init), norm, o, key, Extended(norm, held, Filter(RowOf(key), init)));
      ExtendedSnoc(norm, held, Filter(RowOf(key), init), o);
    }
  }

  lemma EmptyShows(rows: seq<RawRow>, norm: Normalizer, key: Key)
    ensures Attached(EMPTY.(rows := rows)) && Shows(EMPTY.(rows := rows), norm, key, [])
  {
  }

  // ---------- refused and applied ----------

  lemma {:induction false} ExtendedHeld(norm: Normalizer, held: seq<Stored>, rows: seq<Stored>)
    requires held != []
    ensures Extended(norm, held, rows) == held + Filter(Reads(norm), rows)
  {
    if rows != [] {
      var init, o := rows[..|rows| - 1], rows[|rows| - 1];
      assert rows == init + [o];
      ExtendedHeld(norm, held, init);
      FilterSnoc(Reads(norm), init, o);
    }
  }

  /** Of the rows that normalize, first come those refused, then those applied. */
  lemma {:induction false} RefusedThenApplied(norm: Normalizer, rows: seq<Stored>)
    ensures Filter(Reads(norm), rows) == RefusedRows(norm, rows) + AppliedRows(norm, rows)
  {
    if rows != [] {
      var init, o := rows[..|rows| - 1], rows[|rows| - 1];
      assert rows == init + [o];
      RefusedThenApplied(norm, init);
      FilterSnoc(Reads(norm), init, o);
    }
  }

  lemma {:induction false} LastOfBoth(norm: Normalizer, a: seq<Stored>, b: seq<Stored>)
    ensures LastDisplay(norm, a + b) == if LastDisplay(norm, b).Some? then LastDisplay(norm, b) else LastDisplay(norm, a)
    ensures LastUpkeep(norm, a + b) == if LastUpkeep(norm, b).Stamp? then LastUpkeep(norm, b) else LastUpkeep(norm, a)
  {
    if b == [] {
      assert a + b == a;
    } else {
      var init, o := b[..|b| - 1], b[|b| - 1];
      assert a + b == (a + init) + [o] && b == init + [o];
      LastOfBoth(norm, a, init);
      LastSnoc(norm, a + init, o);
      LastSnoc(norm, init, o);
    }
  }

  ghost predicate OwnRowIds(rows: seq<Stored>) {
    forall i, j :: 0 <= i < j < |rows| ==> rows[i].rawId != rows[j].rawId
  }

  lemma {:induction false} FilterOwnRows(p: Stored -> bool, stored: seq<Stored>)
    requires OwnRowIds(stored)
    ensures OwnRowIds(Filter(p, stored))
  {
    if stored != [] {
      var init, o := stored[..|stored| - 1], stored[|stored| - 1];
      assert stored == init + [o];
      FilterOwnRows(p, init);
      FilterSnoc(p, init, o);
      assert forall x :: x in Filter(p, init) ==> x in init && x.rawId != o.rawId;
    }
  }

  lemma DerivedMembers(norm: Normalizer, rows: seq<Stored>, d: Derived)
    ensures d in AllDerived(norm, rows) <==> exists o :: o in rows && DerivedOf(norm, o) == d
  {
    if d in AllDerived(norm, rows) {
      var i :| 0 <= i < |rows| && AllDerived(norm, rows)[i] == d;
      assert rows[i] in rows;
    }
    if o :| o in rows && DerivedOf(norm, o) == d {
      var i :| 0 <= i < |rows| && rows[i] == o;
      assert AllDerived(norm, rows)[i] == d;
    }
  }

  /** However often rows are derived, each asserts one thing. */
  lemma DerivedOwnRows(norm: Normalizer, among: seq<Stored>, rows: seq<Stored>)
    requires OwnRowIds(among) && forall o :: o in rows ==> o in among
    ensures OwnRows(AllDerived(norm, rows))
  {
    forall d, e | d in AllDerived(norm, rows) && e in AllDerived(norm, rows) && d.rawId == e.rawId ensures d == e {
      DerivedMembers(norm, rows, d);
      DerivedMembers(norm, rows, e);
      var o :| o in rows && DerivedOf(norm, o) == d;
      var p :| p in rows && DerivedOf(norm, p) == e;
      var i :| 0 <= i < |among| && among[i] == o;
      var j :| 0 <= j < |among| && among[j] == p;
    }
  }

  // ---------- when a replay adds nothing ----------

  /** Nothing a refused row asserts would now win. */
  ghost predicate Outdone(norm: Normalizer, held: AnimalClaims, o: Stored) {
    forall f :: Competes(DerivedOf(norm, o).claims, f) ==> f in held && Beats(held[f], Stamped(DerivedOf(norm, o).claims[f], o.rawId))
  }

  /**
   The rows of one identity that were refused before it was founded add nothing: what they assert is beaten, and their display and
   their upkeep stamp, if they have one that is not null, give way to an applied row's. A row that never normalizes never counts,
   nor does any row of an animal never founded.
   */
  ghost predicate AddsNothing(norm: Normalizer, rows: seq<Stored>) {
    var refused, applied := RefusedRows(norm, rows), AppliedRows(norm, rows);
    applied != [] ==>
      && (forall o :: o in refused ==> Outdone(norm, Fold(AllDerived(norm, applied)), o))
      && (LastDisplay(norm, refused).Some? ==> LastDisplay(norm, applied).Some?)
      && (StampOf(LastUpkeep(norm, refused)).Some? ==> LastUpkeep(norm, applied).Stamp?)
  }

  /** The rows applied, and then some of them and of the refused again. */
  ghost predicate Again(norm: Normalizer, rows: seq<Stored>, all: seq<Stored>) {
    && AppliedRows(norm, rows) <= all
    && (forall o :: o in all ==> o in RefusedRows(norm, rows) + AppliedRows(norm, rows))
  }

  lemma ReadableOwnRows(norm: Normalizer, rows: seq<Stored>)
    requires OwnRowIds(rows)
    ensures OwnRowIds(RefusedRows(norm, rows) + AppliedRows(norm, rows))
  {
    RefusedThenApplied(norm, rows);
    FilterOwnRows(Reads(norm), rows);
  }

  lemma AppliedIsHeld(norm: Normalizer, rows: seq<Stored>, o: Stored)
    requires OwnRowIds(rows) && o in AppliedRows(norm, rows)
    ensures Holds(Fold(AllDerived(norm, AppliedRows(norm, rows))), DerivedOf(norm, o))
  {
    var applied := AppliedRows(norm, rows);
    ReadableOwnRows(norm, rows);
    DerivedOwnRows(norm, RefusedRows(norm, rows) + applied, applied);
    DerivedMembers(norm, applied, DerivedOf(norm, o));
    FoldHoldsEach(AllDerived(norm, applied), DerivedOf(norm, o));
  }

  /** A refused row is held only by being beaten: the winner is some applied row's claim. */
  lemma RefusedIsOutdone(norm: Normalizer, rows: seq<Stored>, o: Stored)
    requires OwnRowIds(rows) && o in RefusedRows(norm, rows)
    ensures
      var held := Fold(AllDerived(norm, AppliedRows(norm, rows)));
      Holds(held, DerivedOf(norm, o)) <==> Outdone(norm, held, o)
  {
    var refused, applied := RefusedRows(norm, rows), AppliedRows(norm, rows);
    var held, mine := Fold(AllDerived(norm, applied)), DerivedOf(norm, o);
    ReadableOwnRows(norm, rows);
    DerivedOwnRows(norm, refused + applied, applied);
    forall f | f in held ensures !Asserts(mine, f, held[f]) { NotMine(norm, refused, applied, o, f); }
    if Holds(held, mine) {
      forall f | Competes(mine.claims, f) ensures f in held && Beats(held[f], Stamped(mine.claims[f], o.rawId)) {
        assert HoldsAt(held, mine, f);
      }
    }
    if Outdone(norm, held, o) {
      forall f ensures HoldsAt(held, mine, f) {}
    }
  }

  lemma NotMine(norm: Normalizer, refused: seq<Stored>, applied: seq<Stored>, o: Stored, f: Field)
    requires OwnRowIds(refused + applied) && OwnRows(AllDerived(norm, applied)) && o in refused
    requires f in Fold(AllDerived(norm, applied))
    ensures !Asserts(DerivedOf(norm, o), f, Fold(AllDerived(norm, applied))[f])
  {
    var held, all := Fold(AllDerived(norm, applied)), refused + applied;
    FoldIsBest(AllDerived(norm, applied), f);
    var d :| d in AllDerived(norm, applied) && Asserts(d, f, held[f]);
    DerivedMembers(norm, applied, d);
    var p :| p in applied && DerivedOf(norm, p) == d;
    var i :| 0 <= i < |refused| && refused[i] == o;
    var j :| 0 <= j < |applied| && applied[j] == p;
    assert all[i] == o && all[|refused| + j] == p;
  }

  /** Outdone refused rows change no claim, however they are mixed with applied ones. */
  lemma OutdoneChangesNothing(norm: Normalizer, rows: seq<Stored>, all: seq<Stored>)
    requires OwnRowIds(rows) && Again(norm, rows, all)
    requires forall o :: o in RefusedRows(norm, rows) ==> Outdone(norm, Fold(AllDerived(norm, AppliedRows(norm, rows))), o)
    ensures Fold(AllDerived(norm, all)) == Fold(AllDerived(norm, AppliedRows(norm, rows)))
  {
    var applied := AppliedRows(norm, rows);
    ReadableOwnRows(norm, rows);
    DerivedOwnRows(norm, RefusedRows(norm, rows) + applied, all);
    forall d | d in AllDerived(norm, applied) ensures d in AllDerived(norm, all) {
      DerivedMembers(norm, applied, d);
      DerivedMembers(norm, all, d);
    }
    forall d | d in AllDerived(norm, all) ensures Holds(Fold(AllDerived(norm, applied)), d) {
      DerivedMembers(norm, all, d);
      var o :| o in all && DerivedOf(norm, o) == d;
      if o in applied { AppliedIsHeld(norm, rows, o); } else { RefusedIsOutdone(norm, rows, o); }
    }
    FoldOfMore(AllDerived(norm, applied), AllDerived(norm, all));
  }

  /** Everything one replay applies to a founded identity: what it held, then the refused, then the applied again. */
  lemma ReplayedRows(norm: Normalizer, rows: seq<Stored>)
    requires AppliedRows(norm, rows) != []
    ensures
      var refused, applied := RefusedRows(norm, rows), AppliedRows(norm, rows);
      Extended(norm, applied, rows) == applied + (refused + applied)
  {
    ExtendedHeld(norm, AppliedRows(norm, rows), rows);
    RefusedThenApplied(norm, rows);
  }

  /** One identity shows the same after the replay exactly when its refused rows add nothing. */
  lemma ShowsSameExactly(norm: Normalizer, rows: seq<Stored>)
    requires OwnRowIds(rows) && AppliedRows(norm, rows) != []
    ensures
      var applied := AppliedRows(norm, rows);
      var all := Extended(norm, applied, rows);
      AddsNothing(norm, rows) <==>
        && Fold(AllDerived(norm, all)) == Fold(AllDerived(norm, applied))
        && LastDisplay(norm, all) == LastDisplay(norm, applied)
        && StampOf(LastUpkeep(norm, all)) == StampOf(LastUpkeep(norm, applied))
  {
    var refused, applied := RefusedRows(norm, rows), AppliedRows(norm, rows);
    var all := Extended(norm, applied, rows);
    ReplayedRows(norm, rows);
    LastOfBoth(norm, refused, applied);
    LastOfBoth(norm, applied, refused + applied);
    assert Again(norm, rows, all);
    if Fold(AllDerived(norm, all)) == Fold(AllDerived(norm, applied)) {
      forall o | o in refused ensures Outdone(norm, Fold(AllDerived(norm, applied)), o) { SameFoldOutdoes(norm, rows, all, o); }
    }
    if forall o :: o in refused ==> Outdone(norm, Fold(AllDerived(norm, applied)), o) { OutdoneChangesNothing(norm, rows, all); }
  }

  lemma SameFoldOutdoes(norm: Normalizer, rows: seq<Stored>, all: seq<Stored>, o: Stored)
    requires OwnRowIds(rows) && Again(norm, rows, all) && o in RefusedRows(norm, rows) && o in all
    requires Fold(AllDerived(norm, all)) == Fold(AllDerived(norm, AppliedRows(norm, rows)))
    ensures Outdone(norm, Fold(AllDerived(norm, AppliedRows(norm, rows))), o)
  {
    ReadableOwnRows(norm, rows);
    DerivedOwnRows(norm, RefusedRows(norm, rows) + AppliedRows(norm, rows), all);
    DerivedMembers(norm, all, DerivedOf(norm, o));
    FoldHoldsEach(AllDerived(norm, all), DerivedOf(norm, o));
    RefusedIsOutdone(norm, rows, o);
  }

  // ---------- no event, step by step ----------

  lemma {:induction false} ExtendedGrows(norm: Normalizer, held: seq<Stored>, done: seq<Stored>, rest: seq<Stored>)
    ensures Extended(norm, held, done) <= Extended(norm, held, done + rest)
  {
    if rest == [] {
      assert done + rest == done;
    } else {
      var init, o := rest[..|rest| - 1], rest[|rest| - 1];
      assert done + rest == (done + init) + [o];
      ExtendedGrows(norm, held, done, init);
      ExtendedSnoc(norm, held, done + init, o);
    }
  }

  /** A row that leaves its animal's claims as they were tells nothing and founds nothing. */
  lemma QuietStep(c: Corpus, norm: Normalizer, o: Stored)
    requires Attached(c)
    requires o.key !in c.identities ==> !Founds(norm, o)
    requires o.key in c.identities && norm(o).Some? ==>
      var held := ClaimsOf(c, c.identities[o.key].animalId);
      Merge(held, norm(o).value.claims, o.rawId).claims == held
    ensures Derive(c, norm, o).events == c.events && Derive(c, norm, o).nextAnimalId == c.nextAnimalId
  {
    if o.key in c.identities && norm(o).Some? {
      SameClaimsAreSilent(ClaimsOf(c, c.identities[o.key].animalId), norm(o).value.claims, o.rawId);
    }
  }

  /** Every identity shows its own rows, and none of those refused adds anything. */
  ghost predicate Ready(c: Corpus, norm: Normalizer, stored: seq<Stored>) {
    && Attached(c) && OwnRowIds(stored)
    && (forall key :: Shows(c, norm, key, AppliedRows(norm, Filter(RowOf(key), stored))))
    && (forall key :: AddsNothing(norm, Filter(RowOf(key), stored)))
  }

  lemma KeyRows(c: Corpus, norm: Normalizer, stored: seq<Stored>, key: Key)
    requires Ready(c, norm, stored)
    ensures
      var rows := Filter(RowOf(key), stored);
      OwnRowIds(rows) && Shows(c, norm, key, AppliedRows(norm, rows)) && AddsNothing(norm, rows)
  {
    FilterOwnRows(RowOf(key), stored);
  }

  /** What one identity shows partway through: its rows, and some of them again. */
  lemma UnderwayShows(c: Corpus, norm: Normalizer, stored: seq<Stored>, done: seq<Stored>, rest: seq<Stored>, key: Key)
    requires Ready(c, norm, stored) && stored == done + rest
    ensures
      var rows := Filter(RowOf(key), stored);
      var all := Extended(norm, AppliedRows(norm, rows), Filter(RowOf(key), done));
      && Shows(Replay(c, norm, done), norm, key, all)
      && (AppliedRows(norm, rows) != [] ==>
            Again(norm, rows, all) && Fold(AllDerived(norm, all)) == Fold(AllDerived(norm, AppliedRows(norm, rows))))
      && (AppliedRows(norm, rows) == [] ==> all == [])
  {
    var rows, mine := Filter(RowOf(key), stored), Filter(RowOf(key), done);
    var applied := AppliedRows(norm, rows);
    KeyRows(c, norm, stored, key);
    ReplayShows(c, norm, done, key, applied);
    FilterConcat(RowOf(key), done, rest);
    ExtendedGrows(norm, applied, mine, Filter(RowOf(key), rest));
    if applied != [] {
      ExtendedHeld(norm, applied, mine);
      ReplayedRows(norm, rows);
      var all, most := Extended(norm, applied, mine), Extended(norm, applied, rows);
      assert forall o :: o in all ==> o in most;
      OutdoneChangesNothing(norm, rows, all);
    }
  }

  lemma FirstOf(done: seq<Stored>, o: Stored, rest: seq<Stored>)
    ensures done + ([o] + rest) == (done + [o]) + rest
  {
  }

  lemma StepIsQuiet(c: Corpus, norm: Normalizer, stored: seq<Stored>, done: seq<Stored>, o: Stored, rest: seq<Stored>)
    requires Ready(c, norm, stored) && stored == done + ([o] + rest)
    ensures
      var d := Replay(c, norm, done);
      Derive(d, norm, o).events == d.events && Derive(d, norm, o).nextAnimalId == d.nextAnimalId
  {
    var d, rows := Replay(c, norm, done), Filter(RowOf(o.key), stored);
    var applied, mine := AppliedRows(norm, rows), Filter(RowOf(o.key), done);
    UnderwayShows(c, norm, stored, done, [o] + rest, o.key);
    FirstOf(done, o, rest);
    UnderwayShows(c, norm, stored, done + [o], rest, o.key);
    FilterSnoc(RowOf(o.key), done, o);
    ExtendedSnoc(norm, applied, mine, o);
    ReplayKeepsAttached(c, norm, done);
    DerivedSnoc(norm, Extended(norm, applied, mine), o);
    QuietStep(d, norm, o);
  }

  lemma {:induction false} ReplayIsQuiet(c: Corpus, norm: Normalizer, stored: seq<Stored>, done: seq<Stored>, rest: seq<Stored>)
    requires Ready(c, norm, stored) && stored == done + rest
    ensures Replay(c, norm, done).events == c.events && Replay(c, norm, done).nextAnimalId == c.nextAnimalId
    decreases |done|
  {
    if done != [] {
      var init, o := done[..|done| - 1], done[|done| - 1];
      assert done == init + [o];
      FirstOf(init, o, rest);
      ReplayIsQuiet(c, norm, stored, init, [o] + rest);
      StepIsQuiet(c, norm, stored, init, o, rest);
    }
  }

  ghost predicate ShownAlike(c: Corpus, d: Corpus) {
    && c.identities.Keys == d.identities.Keys
    && forall k :: k in c.identities ==>
         && c.identities[k].animalId == d.identities[k].animalId && c.identities[k].sourceUpdatedAt == d.identities[k].sourceUpdatedAt
         && ClaimsOf(c, c.identities[k].animalId) == ClaimsOf(d, c.identities[k].animalId) && DisplayAt(c, k) == DisplayAt(d, k)
  }

  lemma AnimalsAmong(c: Corpus, d: Corpus, id: nat)
    requires Attached(c) && Attached(d) && ShownAlike(c, d) && id in c.animals
    ensures id in d.animals && d.animals[id] == c.animals[id]
  {
    assert OwnedAnimal(c, id);
    var k :| k in c.identities && c.identities[k].animalId == id;
    assert k in d.identities && ClaimsOf(c, id) == ClaimsOf(d, id);
  }

  lemma DisplaysAmong(c: Corpus, d: Corpus, at: (nat, Source))
    requires Attached(c) && ShownAlike(c, d) && at in c.display
    ensures at in d.display && d.display[at] == c.display[at]
  {
    assert OwnedDisplay(c, at);
    var k :| k in c.identities && at == (c.identities[k].animalId, k.source);
    assert DisplayAt(c, k) == DisplayAt(d, k);
  }

  lemma AlikeBackwards(c: Corpus, d: Corpus)
    requires ShownAlike(c, d)
    ensures ShownAlike(d, c)
  {
  }

  lemma AnimalsWithin(c: Corpus, d: Corpus)
    requires Attached(c) && Attached(d) && ShownAlike(c, d)
    ensures forall id :: id in c.animals ==> id in d.animals && d.animals[id] == c.animals[id]
  {
    forall id | id in c.animals ensures id in d.animals && d.animals[id] == c.animals[id] { AnimalsAmong(c, d, id); }
  }

  lemma Within<K, V>(a: map<K, V>, b: map<K, V>)
    requires (forall k :: k in a ==> k in b && b[k] == a[k]) && forall k :: k in b ==> k in a
    ensures a == b
  {
  }

  lemma SameAnimals(c: Corpus, d: Corpus)
    requires Attached(c) && Attached(d) && ShownAlike(c, d) && ShownAlike(d, c)
    ensures c.animals == d.animals
  {
    AnimalsWithin(c, d);
    AnimalsWithin(d, c);
    Within(c.animals, d.animals);
  }

  lemma DisplaysWithin(c: Corpus, d: Corpus)
    requires Attached(c) && ShownAlike(c, d)
    ensures forall at :: at in c.display ==> at in d.display && d.display[at] == c.display[at]
  {
    forall at | at in c.display ensures at in d.display && d.display[at] == c.display[at] { DisplaysAmong(c, d, at); }
  }

  lemma SameDisplays(c: Corpus, d: Corpus)
    requires Attached(c) && Attached(d) && ShownAlike(c, d) && ShownAlike(d, c)
    ensures c.display == d.display
  {
    DisplaysWithin(c, d);
    DisplaysWithin(d, c);
    Within(c.display, d.display);
  }

  /** One identity, after the whole replay. */
  lemma KeyShownAlike(c: Corpus, norm: Normalizer, stored: seq<Stored>, k: Key)
    requires Ready(c, norm, stored)
    ensures
      var d := Replay(c, norm, stored);
      && (k in c.identities <==> k in d.identities)
      && (k in c.identities && d.identities[k].animalId == c.identities[k].animalId ==>
            && c.identities[k].sourceUpdatedAt == d.identities[k].sourceUpdatedAt
            && ClaimsOf(c, c.identities[k].animalId) == ClaimsOf(d, c.identities[k].animalId) && DisplayAt(c, k) == DisplayAt(d, k))
  {
    var rows := Filter(RowOf(k), stored);
    assert stored == stored + [];
    UnderwayShows(c, norm, stored, stored, [], k);
    KeyRows(c, norm, stored, k);
    if AppliedRows(norm, rows) != [] { ShowsSameExactly(norm, rows); }
  }

  lemma ReadyReplayShowsAlike(c: Corpus, norm: Normalizer, stored: seq<Stored>)
    requires Ready(c, norm, stored)
    ensures ShownAlike(c, Replay(c, norm, stored)) && Attached(Replay(c, norm, stored))
  {
    ReplayKeepsAttached(c, norm, stored);
    forall k { KeyShownAlike(c, norm, stored, k); }
  }

  lemma ReadyReplayIsSame(c: Corpus, norm: Normalizer, stored: seq<Stored>)
    requires Ready(c, norm, stored)
    ensures Same(Replay(c, norm, stored), c)
  {
    var d := Replay(c, norm, stored);
    assert stored == stored + [];
    ReplayIsQuiet(c, norm, stored, stored, []);
    ReadyReplayShowsAlike(c, norm, stored);
    AlikeBackwards(c, d);
    SameAnimals(c, d);
    SameDisplays(c, d);
  }

  lemma SameReplayAddsNothing(c: Corpus, norm: Normalizer, stored: seq<Stored>, key: Key)
    requires Attached(c) && OwnRowIds(stored) && Shows(c, norm, key, AppliedRows(norm, Filter(RowOf(key), stored)))
    requires Same(Replay(c, norm, stored), c)
    ensures AddsNothing(norm, Filter(RowOf(key), stored))
  {
    var rows := Filter(RowOf(key), stored);
    if AppliedRows(norm, rows) != [] {
      FilterOwnRows(RowOf(key), stored);
      ReplayShows(c, norm, stored, key, AppliedRows(norm, rows));
      ShowsSameExactly(norm, rows);
      ExtendedHeld(norm, AppliedRows(norm, rows), rows);
    }
  }

  /** The corpus any run left, rebuilt: each identity shows its applied rows. */
  lemma RebuiltShows(rows: seq<RawRow>, norm: Normalizer)
    requires Numbered(rows)
    ensures
      var r, stored := Rebuilt(rows, norm), StoredRows(rows);
      Attached(r) && OwnRowIds(stored) && forall key :: Shows(r, norm, key, AppliedRows(norm, Filter(RowOf(key), stored)))
  {
    var stored := StoredRows(rows);
    forall key ensures Shows(Rebuilt(rows, norm), norm, key, AppliedRows(norm, Filter(RowOf(key), stored))) {
      EmptyShows(rows, norm, key);
      ReplayShows(EMPTY.(rows := rows), norm, stored, key, []);
    }
    EmptyShows(rows, norm, Key(Manual, ""));
    ReplayKeepsAttached(EMPTY.(rows := rows), norm, stored);
    forall i, j | 0 <= i < j < |stored| ensures stored[i].rawId != stored[j].rawId {
      assert rows[i].rawId == i + 1 && rows[j].rawId == j + 1;
    }
  }

  lemma SameAcross(c: Corpus, r: Corpus, norm: Normalizer, stored: seq<Stored>)
    requires Same(c, r)
    ensures Same(Replay(c, norm, stored), c) <==> Same(Replay(r, norm, stored), r)
  {
    ReplayKeepsSame(c, r, norm, stored);
  }

  /**
   After any run, replaying its whole corpus leaves claims, display, upkeep and ids as they are and tells no event exactly when
   the rows refused before their animal was founded add nothing.
   */
  lemma ReplayIsSilentExactly(cs: seq<Corpus>, norm: Normalizer, ops: seq<Op>, n: nat)
    requires History(cs, norm, ops) && n < |cs|
    ensures
      var stored := StoredRows(cs[n].rows);
      Same(Replay(cs[n], norm, stored), cs[n]) <==> forall key :: AddsNothing(norm, Filter(RowOf(key), stored))
  {
    var c, stored := cs[n], StoredRows(cs[n].rows);
    RebuildIsFaithful(cs, norm, ops, n);
    var r := Rebuilt(c.rows, norm);
    RebuiltShows(c.rows, norm);
    SameAcross(c, r, norm, stored);
    if Same(Replay(r, norm, stored), r) {
      forall key ensures AddsNothing(norm, Filter(RowOf(key), stored)) { SameReplayAddsNothing(r, norm, stored, key); }
    }
    if forall key :: AddsNothing(norm, Filter(RowOf(key), stored)) { ReadyReplayIsSame(r, norm, stored); }
  }

  /**
   A row refused for want of a name or species, and one that founds the animal without the field the first has: replaying the two
   adds the refused row's claim.
   */
  lemma RefusedRowSpeaksOnReplay(norm: Normalizer, a: Stored, b: Stored, f: Field)
    requires a.key == b.key && norm(a).Some? && norm(b).Some?
    requires !Viable(norm(a).value.claims) && Viable(norm(b).value.claims)
    requires Competes(norm(a).value.claims, f) && !Competes(norm(b).value.claims, f)
    ensures
      var c := Replay(EMPTY, norm, [a, b]);
      f !in ClaimsOf(c, 1) && f in ClaimsOf(Replay(c, norm, [a, b]), 1)
  {
    ReplayTwo(EMPTY, norm, a, b);
    var c := Derive(EMPTY, norm, b);
    FoundedBy(norm, b, f);
    ReplayTwo(c, norm, a, b);
    HeldClaimStays(c, norm, a, f);
    HeldClaimStays(Derive(c, norm, a), norm, b, f);
  }

  lemma FoundedBy(norm: Normalizer, b: Stored, f: Field)
    requires norm(b).Some? && Viable(norm(b).value.claims)
    ensures
      var c := Derive(EMPTY, norm, b);
      b.key in c.identities && c.identities[b.key].animalId == 1 && 1 in c.animals && (f in c.animals[1] <==> Competes(norm(b).value.claims, f))
  {
    MergedAt(map[], norm(b).value.claims, b.rawId, f);
  }

  lemma HeldClaimStays(c: Corpus, norm: Normalizer, o: Stored, f: Field)
    requires o.key in c.identities && norm(o).Some?
    ensures
      var id, d := c.identities[o.key].animalId, Derive(c, norm, o);
      && o.key in d.identities && d.identities[o.key].animalId == id
      && (f in ClaimsOf(d, id) <==> f in ClaimsOf(c, id) || Competes(norm(o).value.claims, f))
  {
    MergedAt(ClaimsOf(c, c.identities[o.key].animalId), norm(o).value.claims, o.rawId, f);
  }

  lemma ReplayTwo(c: Corpus, norm: Normalizer, a: Stored, b: Stored)
    ensures Replay(c, norm, [a, b]) == Derive(Derive(c, norm, a), norm, b)
  {
    assert [a, b][..1] == [a] && [a][..0] == [];
    assert Replay(c, norm, [a]) == Derive(Replay(c, norm, []), norm, a);
  }
}
