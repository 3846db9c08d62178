/** Folding the merge over observations: the answer is the best claim per field, whatever the order. */
module ClaimOrder {
  import opened Prelude
  import opened Claims

  /** What one raw row asserts. */
  datatype Derived = Derived(rawId: nat, claims: AnimalClaims)

  function Fold(obs: seq<Derived>): AnimalClaims {
    if obs == [] then map[] else Merge(Fold(obs[..|obs| - 1]), obs[|obs| - 1].claims, obs[|obs| - 1].rawId).claims
  }

  /** Strictly more trusted: a better tier, or in one tier a later fetch, or at one instant a later row. */
  predicate Beats(a: Claim, b: Claim) {
    var ra, rb := RankOf(TierOf(a.source)), RankOf(TierOf(b.source));
    ra < rb || (ra == rb && (a.fetchedAt > b.fetchedAt || (a.fetchedAt == b.fetchedAt && a.rawId > b.rawId)))
  }

  predicate Asserts(o: Derived, f: Field, c: Claim) {
    Competes(o.claims, f) && c == Stamped(o.claims[f], o.rawId)
  }

  ghost predicate Best(obs: seq<Derived>, f: Field, c: Claim) {
    && (exists o :: o in obs && Asserts(o, f, c))
    && (forall o :: o in obs && Competes(o.claims, f) ==> Asserts(o, f, c) || Beats(c, Stamped(o.claims[f], o.rawId)))
  }

  /** One raw row asserts one thing, however often it is derived. */
  ghost predicate OwnRows(obs: seq<Derived>) {
    forall o, p :: o in obs && p in obs && o.rawId == p.rawId ==> o == p
  }

  lemma EveryFieldMerged(f: Field)
    ensures f in MERGED_FIELDS
  {
    match f
    case Name => assert MERGED_FIELDS[0] == f;
    case Species => assert MERGED_FIELDS[1] == f;
    case Breed => assert MERGED_FIELDS[2] == f;
    case Status => assert MERGED_FIELDS[3] == f;
    case Sex => assert MERGED_FIELDS[4] == f;
    case AgeGroup => assert MERGED_FIELDS[5] == f;
    case BirthDate => assert MERGED_FIELDS[6] == f;
    case IsBirthDateExact => assert MERGED_FIELDS[7] == f;
    case ShelterExternalId => assert MERGED_FIELDS[8] == f;
    case ListedAt => assert MERGED_FIELDS[9] == f;
    case OrgName => assert MERGED_FIELDS[10] == f;
    case OrgUrl => assert MERGED_FIELDS[11] == f;
    case ListingUrl => assert MERGED_FIELDS[12] == f;
    case City => assert MERGED_FIELDS[13] == f;
    case State => assert MERGED_FIELDS[14] == f;
    case PostalCode => assert MERGED_FIELDS[15] == f;
    case PhotoKeys => assert MERGED_FIELDS[16] == f;
  }

  /** The merge, field by field. */
  lemma MergedAt(current: AnimalClaims, incoming: AnimalClaims, rawId: nat, f: Field)
    ensures
      var claims := Merge(current, incoming, rawId).claims;
      && (f in claims <==> f in current || Competes(incoming, f))
      && (f in claims ==> claims[f] == Winner(current, incoming, rawId, f))
  {
    EveryFieldMerged(f);
  }

  /** One more row: it takes the field over, or the holder keeps it. */
  lemma BestOfMore(init: seq<Derived>, last: Derived, f: Field, held: Claim)
    requires Best(init, f, held) && (forall o :: o in init ==> o.rawId != last.rawId) && Competes(last.claims, f)
    ensures Best(init + [last], f, Resolve(Stamped(last.claims[f], last.rawId), held))
  {
    var mine := Stamped(last.claims[f], last.rawId);
    var all := init + [last];
    var o :| o in init && Asserts(o, f, held);
    assert o in all && last in all && Asserts(last, f, mine);
    assert held.rawId != mine.rawId;
    assert Beats(held, mine) || Beats(mine, held);
  }

  lemma {:induction false} FoldIsBest(obs: seq<Derived>, f: Field)
    requires OwnRows(obs)
    ensures f in Fold(obs) <==> exists o :: o in obs && Competes(o.claims, f)
    ensures f in Fold(obs) ==> Best(obs, f, Fold(obs)[f])
  {
    if obs != [] {
      var init, last := obs[..|obs| - 1], obs[|obs| - 1];
      assert obs == init + [last];
      assert forall o :: o in init ==> o in obs;
      FoldIsBest(init, f);
      MergedAt(Fold(init), last.claims, last.rawId, f);
      FoldSnoc(init, last, Fold(init), f);
    }
  }

  /** A row derived before changes nothing: it is the best already, or was beaten. */
  lemma BestOfRepeat(init: seq<Derived>, last: Derived, f: Field, held: Claim)
    requires Best(init, f, held) && last in init && Competes(last.claims, f)
    ensures Best(init + [last], f, held) && Resolve(Stamped(last.claims[f], last.rawId), held) == held
  {
    var o :| o in init && Asserts(o, f, held);
    assert o in init + [last];
    assert Asserts(last, f, held) || Beats(held, Stamped(last.claims[f], last.rawId));
  }

  lemma FoldSnoc(init: seq<Derived>, last: Derived, was: AnimalClaims, f: Field)
    requires OwnRows(init + [last])
    requires f in was <==> exists o :: o in init && Competes(o.claims, f)
    requires f in was ==> Best(init, f, was[f])
    ensures f in was || Competes(last.claims, f) <==> exists o :: o in init + [last] && Competes(o.claims, f)
    ensures f in was || Competes(last.claims, f) ==> Best(init + [last], f, Winner(was, last.claims, last.rawId, f))
  {
    var all := init + [last];
    assert last in all && forall o :: o in init ==> o in all;
    if Competes(last.claims, f) {
      if f in was {
        if last in init { BestOfRepeat(init, last, f, was[f]); } else { BestOfMore(init, last, f, was[f]); }
      } else {
        assert Asserts(last, f, Stamped(last.claims[f], last.rawId));
      }
    }
  }

  lemma BestIsOne(a: seq<Derived>, b: seq<Derived>, f: Field, c: Claim, d: Claim)
    requires (forall o :: o in a <==> o in b) && Best(a, f, c) && Best(b, f, d)
    ensures c == d
  {
    var o :| o in a && Asserts(o, f, c);
    var p :| p in b && Asserts(p, f, d);
    assert Asserts(o, f, d) || Beats(d, c);
    assert Asserts(p, f, c) || Beats(c, d);
  }

  /** The same rows in any order fold to the same claims. */
  lemma FoldForgetsOrder(a: seq<Derived>, b: seq<Derived>)
    requires OwnRows(a) && OwnRows(b) && forall o :: o in a <==> o in b
    ensures Fold(a) == Fold(b)
  {
    forall f: Field ensures (f in Fold(a) <==> f in Fold(b)) && (f in Fold(a) ==> Fold(a)[f] == Fold(b)[f]) {
      FoldIsBest(a, f);
      FoldIsBest(b, f);
      if f in Fold(a) { BestIsOne(a, b, f, Fold(a)[f], Fold(b)[f]); }
    }
  }

  /** What `claims` holds for a field is as good as what `o` asserts of it. */
  predicate HoldsAt(claims: AnimalClaims, o: Derived, f: Field) {
    Competes(o.claims, f) ==> f in claims && (Asserts(o, f, claims[f]) || Beats(claims[f], Stamped(o.claims[f], o.rawId)))
  }

  ghost predicate Holds(claims: AnimalClaims, o: Derived) { forall f :: HoldsAt(claims, o, f) }

  lemma FoldHoldsEach(b: seq<Derived>, o: Derived)
    requires OwnRows(b) && o in b
    ensures Holds(Fold(b), o)
  {
    forall f ensures HoldsAt(Fold(b), o, f) { FoldIsBest(b, f); }
  }

  lemma FoldHeldAt(a: seq<Derived>, b: seq<Derived>, f: Field)
    requires OwnRows(a) && OwnRows(b) && (forall o :: o in a ==> o in b) && (forall o :: o in b ==> HoldsAt(Fold(a), o, f))
    ensures (f in Fold(a) <==> f in Fold(b)) && (f in Fold(a) ==> Fold(a)[f] == Fold(b)[f])
  {
    FoldIsBest(a, f);
    FoldIsBest(b, f);
    if f in Fold(a) {
      assert Best(b, f, Fold(a)[f]);
      BestIsOne(b, b, f, Fold(a)[f], Fold(b)[f]);
    }
  }

  lemma OwnRowsAmong(a: seq<Derived>, b: seq<Derived>)
    requires OwnRows(b) && forall o :: o in a ==> o in b
    ensures OwnRows(a)
  {
  }

  /** More rows leave a fold as it was exactly when it already held the better of everything they assert. */
  lemma FoldOfMore(a: seq<Derived>, b: seq<Derived>)
    requires OwnRows(b) && forall o :: o in a ==> o in b
    ensures Fold(b) == Fold(a) <==> forall o :: o in b ==> Holds(Fold(a), o)
  {
    OwnRowsAmong(a, b);
    if Fold(b) == Fold(a) {
      forall o | o in b ensures Holds(Fold(a), o) { FoldHoldsEach(b, o); }
    }
    if forall o :: o in b ==> Holds(Fold(a), o) {
      forall f: Field ensures (f in Fold(a) <==> f in Fold(b)) && (f in Fold(a) ==> Fold(a)[f] == Fold(b)[f]) {
        forall o | o in b ensures HoldsAt(Fold(a), o, f) { assert Holds(Fold(a), o); }
        FoldHeldAt(a, b, f);
      }
    }
  }

  lemma FirstIsMember<T>(s: seq<T>)
    requires s != []
    ensures s[0] in s
  {
  }

  lemma NoMembers<T>(s: seq<T>)
    requires forall x :: x !in s
    ensures s == []
  {
    if s != [] { FirstIsMember(s); }
  }

  /** A merge that changes nothing a reader sees, and writes nothing. */
  predicate Silent(current: AnimalClaims, incoming: AnimalClaims, rawId: nat) {
    var out := Merge(current, incoming, rawId);
    out.claims == current && out.changed == [] && out.touched == []
  }

  lemma SilentIf(current: AnimalClaims, incoming: AnimalClaims, rawId: nat)
    requires forall f :: Competes(incoming, f) ==> f in current && Winner(current, incoming, rawId, f) == current[f]
    ensures Silent(current, incoming, rawId)
  {
    var out := Merge(current, incoming, rawId);
    assert forall f :: !Changed(current, incoming, rawId, f) && !Touched(current, incoming, rawId, f);
    assert forall f :: f in out.changed ==> ChangedBy(current, incoming, rawId)(f);
    assert forall f :: f in out.touched ==> TouchedBy(current, incoming, rawId)(f);
    NoMembers(out.changed);
    NoMembers(out.touched);
    forall f: Field ensures (f in out.claims <==> f in current) && (f in current ==> out.claims[f] == current[f]) {
      MergedAt(current, incoming, rawId, f);
    }
  }

  /** A merge that leaves the claims as they were changes and touches nothing. */
  lemma SameClaimsAreSilent(current: AnimalClaims, incoming: AnimalClaims, rawId: nat)
    requires Merge(current, incoming, rawId).claims == current
    ensures Silent(current, incoming, rawId)
  {
    forall f | Competes(incoming, f) ensures f in current && Winner(current, incoming, rawId, f) == current[f] {
      MergedAt(current, incoming, rawId, f);
    }
    SilentIf(current, incoming, rawId);
  }

  /** Merging again any observation the claims already hold is silent. */
  lemma RemergeIsSilent(obs: seq<Derived>, o: Derived)
    requires OwnRows(obs) && o in obs
    ensures Silent(Fold(obs), o.claims, o.rawId)
  {
    forall f | Competes(o.claims, f)
      ensures f in Fold(obs) && Winner(Fold(obs), o.claims, o.rawId, f) == Fold(obs)[f]
    {
      FoldIsBest(obs, f);
      assert Asserts(o, f, Fold(obs)[f]) || Beats(Fold(obs)[f], Stamped(o.claims[f], o.rawId));
    }
    SilentIf(Fold(obs), o.claims, o.rawId);
  }

  /** So is merging the same row twice in a row, on any claims at all. */
  lemma MergeTwiceIsSilent(current: AnimalClaims, incoming: AnimalClaims, rawId: nat)
    ensures Silent(Merge(current, incoming, rawId).claims, incoming, rawId)
  {
    var once := Merge(current, incoming, rawId).claims;
    forall f | Competes(incoming, f) ensures f in once && Winner(once, incoming, rawId, f) == once[f] {
      MergedAt(current, incoming, rawId, f);
    }
    SilentIf(once, incoming, rawId);
  }

  /** The Postgres writer stores only the touched fields' winners; the row then holds the whole merge. */
  lemma TouchedFieldsSuffice(current: AnimalClaims, incoming: AnimalClaims, rawId: nat)
    ensures
      var out := Merge(current, incoming, rawId);
      && (forall f :: f in out.touched ==> f in out.claims)
      && out.claims == map f | f in current.Keys + (set g | g in out.touched) :: if f in out.touched then out.claims[f] else current[f]
  {
    var out := Merge(current, incoming, rawId);
    forall f: Field
      ensures (f in out.claims <==> f in current || f in out.touched) && (f in out.claims && f !in out.touched ==> out.claims[f] == current[f])
    {
      MergedAt(current, incoming, rawId, f);
      EveryFieldMerged(f);
      assert f in out.touched <==> TouchedBy(current, incoming, rawId)(f);
    }
  }
}
