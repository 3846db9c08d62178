/** When the order a fetch lists its resources in can show in the hash: exactly when two wanted refs tie under the collation. */
module SidecarOrder {
  import opened Prelude
  import opened Sorting
  import opened Json
  import opened Canonical
  import opened CanonicalOrder
  import opened Sidecar

  function RefAt(v: Json): Ref
    requires ReadRef(v).Some?
  {
    ReadRef(v).value
  }

  /** A duplicate-free `included` list: each resource has a ref, and no two the same. */
  ghost predicate Included(x: seq<Json>) {
    && (forall i :: 0 <= i < |x| ==> Parsed(x[i]) && ReadRef(x[i]).Some?)
    && (forall i, j :: 0 <= i < j < |x| ==> RefAt(x[i]) != RefAt(x[j]))
  }

  /** The same resources, their bodies the same JSON, in whatever order. */
  ghost predicate SameResources(x: seq<Json>, y: seq<Json>) {
    (forall v :: v in x ==> ListedAs(v, y)) && (forall w :: w in y ==> ListedFrom(x, w))
  }

  ghost predicate ListedAs(v: Json, y: seq<Json>) { exists w :: w in y && SameJson(v, w) }

  ghost predicate ListedFrom(x: seq<Json>, w: Json) { exists v :: v in x && SameJson(v, w) }

  /** Another fetch of the same animal: its keys and its resources may come in other orders. */
  ghost predicate Refetch(animal: Json, x: seq<Json>, again: Json, y: seq<Json>) {
    Parsed(again) && Included(y) && SameJson(animal, again) && SameResources(x, y)
  }

  ghost predicate OrderNeverShows(collate: (Text, Text) -> bool, animal: Json, x: seq<Json>) {
    forall again, y :: Refetch(animal, x, again, y) ==> Hashed(collate, again, y) == Hashed(collate, animal, x)
  }

  ghost predicate TiedPair(collate: (Text, Text) -> bool, kept: seq<Json>, p: Json, q: Json) {
    && p in kept && q in kept && p != q && ReadRef(p).Some? && ReadRef(q).Some?
    && RefLe(collate, RefAt(p), RefAt(q)) && RefLe(collate, RefAt(q), RefAt(p))
  }

  /** Two resources the animal wants, under refs the collation can't tell apart. */
  ghost predicate WantedTie(collate: (Text, Text) -> bool, animal: Json, x: seq<Json>) {
    exists p, q :: TiedPair(collate, Wanted(animal, x), p, q)
  }

  // ---------- no tie ----------

  lemma OneOfEach(x: seq<Json>, v: Json, w: Json)
    requires Included(x) && v in x && w in x && RefAt(v) == RefAt(w)
    ensures v == w
  {
    var i :| 0 <= i < |x| && x[i] == v;
    var j :| 0 <= j < |x| && x[j] == w;
  }

  lemma WantedIs(animal: Json, x: seq<Json>)
    requires Included(x)
    ensures
      var kept := Wanted(animal, x);
      && Included(kept) && Distinct(kept)
      && (forall v :: v in kept <==> v in x && RefName(RefAt(v)) in WantedNames(animal))
  {
    var kept := Wanted(animal, x);
    assert forall v :: v in x ==> ReadRef(v).Some? && Parsed(v);
    assert Distinct(x);
    forall v ensures multiset(kept)[v] <= 1 {
      FilterCount(IsWanted(WantedNames(animal)), x, v);
      DistinctIsOnceEach(x, v);
    }
    OnceEachIsDistinct(kept);
    forall i, j | 0 <= i < j < |kept| ensures RefAt(kept[i]) != RefAt(kept[j]) {
      assert kept[i] in x && kept[j] in x && kept[i] != kept[j];
      if RefAt(kept[i]) == RefAt(kept[j]) { OneOfEach(x, kept[i], kept[j]); }
    }
  }

  function ByKey(collate: (Text, Text) -> bool): (Ref, Ref) -> bool { (a: Ref, b: Ref) => RefLe(collate, a, b) }

  ghost predicate NoTies(collate: (Text, Text) -> bool, refs: seq<Ref>) {
    forall a, b :: a in refs && b in refs && RefLe(collate, a, b) && RefLe(collate, b, a) ==> a == b
  }

  /** Without ties the comparison is an order, types first. */
  lemma RefsOrdered(collate: (Text, Text) -> bool, refs: seq<Ref>)
    requires Collates(collate) && NoTies(collate, refs)
    ensures Orders(ByKey(collate), refs)
  {
    forall a, b, c | a in refs && b in refs && c in refs && RefLe(collate, a, b) && RefLe(collate, b, c)
      ensures RefLe(collate, a, c)
    {
      assert a.kind == c.kind && a.kind != b.kind ==> RefLe(collate, b, a);
    }
  }

  function RefsOfAll(x: seq<Json>): seq<Ref>
    requires forall v :: v in x ==> ReadRef(v).Some?
  {
    seq(|x|, i requires 0 <= i < |x| => assert x[i] in x; RefAt(x[i]))
  }

  lemma RefsMembers(x: seq<Json>, r: Ref)
    requires forall v :: v in x ==> ReadRef(v).Some?
    ensures r in RefsOfAll(x) <==> exists v :: v in x && RefAt(v) == r
  {
    if r in RefsOfAll(x) {
      var i :| 0 <= i < |x| && RefsOfAll(x)[i] == r;
      assert x[i] in x;
    }
    if v :| v in x && RefAt(v) == r {
      var i :| 0 <= i < |x| && x[i] == v;
      assert RefsOfAll(x)[i] == r;
    }
  }

  lemma KeptRefsOrdered(collate: (Text, Text) -> bool, kept: seq<Json>)
    requires Collates(collate) && Included(kept) && forall p, q :: !TiedPair(collate, kept, p, q)
    ensures (forall v :: v in kept ==> ReadRef(v).Some?) && Orders(ByKey(collate), RefsOfAll(kept))
  {
    var refs := RefsOfAll(kept);
    forall a, b | a in refs && b in refs && RefLe(collate, a, b) && RefLe(collate, b, a) ensures a == b {
      RefsMembers(kept, a);
      RefsMembers(kept, b);
      var p :| p in kept && RefAt(p) == a;
      var q :| q in kept && RefAt(q) == b;
      assert !TiedPair(collate, kept, p, q);
    }
    RefsOrdered(collate, refs);
  }

  /** The sidecar's refs: the wanted ones, once each, in order. */
  lemma SidecarIs(collate: (Text, Text) -> bool, animal: Json, x: seq<Json>)
    requires Collates(collate) && Included(x) && !WantedTie(collate, animal, x)
    ensures
      var sidecar := SidecarFor(collate, animal, x);
      && (forall v :: v in sidecar <==> v in Wanted(animal, x)) && Included(sidecar)
      && (forall v :: v in sidecar ==> ReadRef(v).Some?)
      && Sorted(ByKey(collate), RefsOfAll(sidecar))
  {
    var kept, sidecar := Wanted(animal, x), SidecarFor(collate, animal, x);
    WantedIs(animal, x);
    KeptRefsOrdered(collate, kept);
    KeptRank(collate, kept);
    SortSorts(ByRef(collate), kept);
    SortKeepsMembers(ByRef(collate), kept);
    Reordered(kept, sidecar);
    SortedByKey(collate, sidecar);
  }

  lemma Reordered(kept: seq<Json>, sidecar: seq<Json>)
    requires Included(kept) && Distinct(sidecar) && forall v :: v in sidecar <==> v in kept
    ensures Included(sidecar) && forall v :: v in sidecar ==> ReadRef(v).Some?
  {
    forall i | 0 <= i < |sidecar| ensures Parsed(sidecar[i]) && ReadRef(sidecar[i]).Some? { IncludedMember(kept, sidecar[i]); }
    forall i, j | 0 <= i < j < |sidecar| ensures RefAt(sidecar[i]) != RefAt(sidecar[j]) {
      assert sidecar[i] in kept && sidecar[j] in kept && sidecar[i] != sidecar[j];
      if RefAt(sidecar[i]) == RefAt(sidecar[j]) { OneOfEach(kept, sidecar[i], sidecar[j]); }
    }
  }

  lemma SortedByKey(collate: (Text, Text) -> bool, sidecar: seq<Json>)
    requires Sorted(ByRef(collate), sidecar) && forall v :: v in sidecar ==> ReadRef(v).Some?
    ensures Sorted(ByKey(collate), RefsOfAll(sidecar))
  {
    forall i, j | 0 <= i < j < |sidecar| ensures ByKey(collate)(RefsOfAll(sidecar)[i], RefsOfAll(sidecar)[j]) {
      assert sidecar[i] in sidecar && sidecar[j] in sidecar && ByRef(collate)(sidecar[i], sidecar[j]);
    }
  }

  lemma KeptRank(collate: (Text, Text) -> bool, kept: seq<Json>)
    requires Included(kept) && (forall v :: v in kept ==> ReadRef(v).Some?) && Orders(ByKey(collate), RefsOfAll(kept))
    ensures Ranks(ByRef(collate), kept)
  {
    var le, byKey := ByRef(collate), ByKey(collate);
    forall p | p in kept ensures RefAt(p) in RefsOfAll(kept) { RefsMembers(kept, RefAt(p)); }
    forall p, q | p in kept && q in kept ensures le(p, q) <==> byKey(RefAt(p), RefAt(q)) {}
  }

  lemma IncludedMember(x: seq<Json>, v: Json)
    requires Included(x) && v in x
    ensures Parsed(v) && ReadRef(v).Some?
  {
  }

  lemma SameRefs(x: seq<Json>, y: seq<Json>, v: Json) returns (w: Json)
    requires Included(x) && Included(y) && ListedAs(v, y) && v in x
    ensures w in y && SameJson(v, w) && ReadRef(v) == ReadRef(w)
  {
    w :| w in y && SameJson(v, w);
    IncludedMember(x, v);
    IncludedMember(y, w);
    ReadRefSame(v, w);
  }

  lemma SameRefsBack(x: seq<Json>, y: seq<Json>, w: Json) returns (v: Json)
    requires Included(x) && Included(y) && ListedFrom(x, w) && w in y
    ensures v in x && SameJson(v, w) && ReadRef(v) == ReadRef(w)
  {
    v :| v in x && SameJson(v, w);
    IncludedMember(x, v);
    IncludedMember(y, w);
    ReadRefSame(v, w);
  }

  lemma WantedMember(animal: Json, x: seq<Json>, v: Json)
    requires Included(x)
    ensures v in Wanted(animal, x) <==> v in x && ReadRef(v).Some? && RefName(ReadRef(v).value) in WantedNames(animal)
  {
  }

  /** What one fetch wants the other wants too, under the same ref. */
  lemma WantedTwin(animal: Json, x: seq<Json>, again: Json, y: seq<Json>, v: Json) returns (w: Json)
    requires Parsed(animal) && Included(x) && Refetch(animal, x, again, y) && v in Wanted(animal, x)
    ensures w in Wanted(again, y) && ReadRef(v) == ReadRef(w)
  {
    WantedSame(animal, again);
    WantedMember(animal, x, v);
    w := SameRefs(x, y, v);
    WantedMember(again, y, w);
  }

  lemma WantedTwinBack(animal: Json, x: seq<Json>, again: Json, y: seq<Json>, w: Json) returns (v: Json)
    requires Parsed(animal) && Included(x) && Refetch(animal, x, again, y) && w in Wanted(again, y)
    ensures v in Wanted(animal, x) && ReadRef(v) == ReadRef(w)
  {
    WantedSame(animal, again);
    WantedMember(again, y, w);
    v := SameRefsBack(x, y, w);
    WantedMember(animal, x, v);
  }

  lemma RefetchTies(collate: (Text, Text) -> bool, animal: Json, x: seq<Json>, again: Json, y: seq<Json>)
    requires Parsed(animal) && Included(x) && Refetch(animal, x, again, y) && WantedTie(collate, again, y)
    ensures WantedTie(collate, animal, x)
  {
    var p, q :| TiedPair(collate, Wanted(again, y), p, q);
    DifferentRefs(again, y, p, q);
    var v := WantedTwinBack(animal, x, again, y, p);
    var w := WantedTwinBack(animal, x, again, y, q);
    TiedAlike(collate, Wanted(again, y), p, q, Wanted(animal, x), v, w);
  }

  lemma TiedAlike(collate: (Text, Text) -> bool, t: seq<Json>, p: Json, q: Json, s: seq<Json>, v: Json, w: Json)
    requires TiedPair(collate, t, p, q) && ReadRef(p) != ReadRef(q) && v in s && w in s
    requires ReadRef(v) == ReadRef(p) && ReadRef(w) == ReadRef(q)
    ensures exists a, b :: TiedPair(collate, s, a, b)
  {
    assert TiedPair(collate, s, v, w);
  }

  lemma DifferentRefs(again: Json, y: seq<Json>, p: Json, q: Json)
    requires Included(y) && p in Wanted(again, y) && q in Wanted(again, y) && p != q
    ensures ReadRef(p) != ReadRef(q)
  {
    IncludedMember(y, p);
    IncludedMember(y, q);
    if ReadRef(p) == ReadRef(q) { OneOfEach(y, p, q); }
  }

  lemma WantedRefs(animal: Json, x: seq<Json>, again: Json, y: seq<Json>, s: seq<Json>, t: seq<Json>, r: Ref)
    requires Parsed(animal) && Included(x) && Refetch(animal, x, again, y)
    requires (forall v :: v in s ==> ReadRef(v).Some?) && (forall w :: w in t ==> ReadRef(w).Some?)
    requires (forall v :: v in s <==> v in Wanted(animal, x)) && (forall w :: w in t <==> w in Wanted(again, y))
    ensures r in RefsOfAll(s) <==> r in RefsOfAll(t)
  {
    RefsMembers(s, r);
    RefsMembers(t, r);
    if v :| v in s && RefAt(v) == r { var w := WantedTwin(animal, x, again, y, v); }
    if w :| w in t && RefAt(w) == r { var v := WantedTwinBack(animal, x, again, y, w); }
  }

  lemma SameRefLists(collate: (Text, Text) -> bool, animal: Json, x: seq<Json>, again: Json, y: seq<Json>)
    requires Collates(collate) && Parsed(animal) && Included(x) && Refetch(animal, x, again, y)
    requires !WantedTie(collate, animal, x) && !WantedTie(collate, again, y)
    ensures
      var s, t := SidecarFor(collate, animal, x), SidecarFor(collate, again, y);
      && (forall v :: v in s ==> ReadRef(v).Some?) && (forall w :: w in t ==> ReadRef(w).Some?)
      && RefsOfAll(s) == RefsOfAll(t)
  {
    var s, t := SidecarFor(collate, animal, x), SidecarFor(collate, again, y);
    SidecarIs(collate, animal, x);
    SidecarIs(collate, again, y);
    forall r ensures r in RefsOfAll(s) <==> r in RefsOfAll(t) { WantedRefs(animal, x, again, y, s, t, r); }
    NoTiesAmong(collate, animal, x, s);
    SameOrder(collate, s, t);
  }

  lemma SameOrder(collate: (Text, Text) -> bool, s: seq<Json>, t: seq<Json>)
    requires Included(s) && Included(t) && (forall v :: v in s ==> ReadRef(v).Some?) && (forall w :: w in t ==> ReadRef(w).Some?)
    requires Sorted(ByKey(collate), RefsOfAll(s)) && Sorted(ByKey(collate), RefsOfAll(t)) && Orders(ByKey(collate), RefsOfAll(s))
    requires forall r :: r in RefsOfAll(s) <==> r in RefsOfAll(t)
    ensures RefsOfAll(s) == RefsOfAll(t)
  {
    SameElementsSameBag(RefsOfAll(s), RefsOfAll(t));
    SortedUnique(ByKey(collate), RefsOfAll(s), RefsOfAll(t));
  }

  lemma NoTiesAmong(collate: (Text, Text) -> bool, animal: Json, x: seq<Json>, s: seq<Json>)
    requires Collates(collate) && Included(s) && (forall v :: v in s ==> ReadRef(v).Some?)
    requires !WantedTie(collate, animal, x) && forall v :: v in s ==> v in Wanted(animal, x)
    ensures Orders(ByKey(collate), RefsOfAll(s))
  {
    forall p, q ensures !TiedPair(collate, s, p, q) {
      if TiedPair(collate, s, p, q) { assert TiedPair(collate, Wanted(animal, x), p, q); }
    }
    KeptRefsOrdered(collate, s);
  }

  lemma SidecarsAlike(collate: (Text, Text) -> bool, animal: Json, x: seq<Json>, again: Json, y: seq<Json>)
    requires Collates(collate) && Parsed(animal) && Included(x) && Refetch(animal, x, again, y)
    requires !WantedTie(collate, animal, x) && !WantedTie(collate, again, y)
    ensures SameJson(JArr(SidecarFor(collate, animal, x)), JArr(SidecarFor(collate, again, y)))
  {
    var s, t := SidecarFor(collate, animal, x), SidecarFor(collate, again, y);
    SameRefLists(collate, animal, x, again, y);
    assert |RefsOfAll(s)| == |s| && |RefsOfAll(t)| == |t|;
    forall i | 0 <= i < |s| ensures SameJson(s[i], t[i]) {
      assert RefsOfAll(s)[i] == RefsOfAll(t)[i];
      SidecarMember(collate, animal, x, s[i]);
      SidecarMember(collate, again, y, t[i]);
      var w := SameRefs(x, y, s[i]);
      OneOfEach(y, w, t[i]);
    }
  }

  lemma SidecarMember(collate: (Text, Text) -> bool, animal: Json, x: seq<Json>, v: Json)
    requires v in SidecarFor(collate, animal, x)
    ensures v in x
  {
    SortKeepsMembers(ByRef(collate), Wanted(animal, x));
  }

  lemma PayloadParsed(animal: Json, sidecar: seq<Json>)
    requires Parsed(animal) && forall v :: v in sidecar ==> Parsed(v)
    ensures Parsed(Payload(animal, sidecar))
  {
    assert ANIMAL[0] != INCLUDED[0];
    assert Parsed(JArr(sidecar));
  }

  lemma SidecarParsed(collate: (Text, Text) -> bool, animal: Json, x: seq<Json>)
    requires Parsed(animal) && Included(x)
    ensures Parsed(Payload(animal, SidecarFor(collate, animal, x)))
  {
    SortKeepsMembers(ByRef(collate), Wanted(animal, x));
    forall v | v in SidecarFor(collate, animal, x) ensures Parsed(v) {
      var i :| 0 <= i < |x| && x[i] == v;
    }
    PayloadParsed(animal, SidecarFor(collate, animal, x));
  }

  lemma PayloadsSame(a: Json, s: seq<Json>, b: Json, t: seq<Json>)
    ensures SameJson(Payload(a, s), Payload(b, t)) <==> SameJson(a, b) && SameJson(JArr(s), JArr(t))
  {
    var p, q := Payload(a, s), Payload(b, t);
    assert ANIMAL != INCLUDED by { assert ANIMAL[0] != INCLUDED[0]; }
    assert p.fields[0].key == q.fields[0].key == ANIMAL && p.fields[1].key == q.fields[1].key == INCLUDED;
    assert p.fields[0].value == a && p.fields[1].value == JArr(s) && q.fields[0].value == b && q.fields[1].value == JArr(t);
    if SameJson(p, q) {
      var i :| 0 <= i < 2 && q.fields[i].key == p.fields[0].key && SameJson(p.fields[0].value, q.fields[i].value);
      var j :| 0 <= j < 2 && q.fields[j].key == p.fields[1].key && SameJson(p.fields[1].value, q.fields[j].value);
      assert i == 0 && j == 1;
    }
  }

  lemma NoTieNeverShows(collate: (Text, Text) -> bool, animal: Json, x: seq<Json>)
    requires Collates(collate) && Parsed(animal) && Included(x) && !WantedTie(collate, animal, x)
    ensures OrderNeverShows(collate, animal, x)
  {
    forall again, y | Refetch(animal, x, again, y) ensures Hashed(collate, again, y) == Hashed(collate, animal, x) {
      if WantedTie(collate, again, y) { RefetchTies(collate, animal, x, again, y); }
      SidecarsAlike(collate, animal, x, again, y);
      SidecarParsed(collate, animal, x);
      SidecarParsed(collate, again, y);
      PayloadsSame(animal, SidecarFor(collate, animal, x), again, SidecarFor(collate, again, y));
      CanonicalTextIsExact(Payload(animal, SidecarFor(collate, animal, x)), Payload(again, SidecarFor(collate, again, y)));
    }
  }

  // ---------- a tie ----------

  function Unwanted(animal: Json): Json -> bool { (v: Json) => !IsWanted(WantedNames(animal))(v) }

  lemma FilterAll(p: Json -> bool, s: seq<Json>)
    requires forall v :: v in s ==> p(v)
    ensures Filter(p, s) == s
  {
    if s != [] {
      assert s == s[..|s| - 1] + [s[|s| - 1]];
      FilterAll(p, s[..|s| - 1]);
    }
  }

  lemma FilterNone(p: Json -> bool, s: seq<Json>)
    requires forall v :: v in s ==> !p(v)
    ensures Filter(p, s) == []
  {
    if s != [] {
      assert s == s[..|s| - 1] + [s[|s| - 1]];
      FilterNone(p, s[..|s| - 1]);
    }
  }

  /** The wanted resources in an order of one's choosing, then the rest: another fetch of the same animal. */
  lemma Relisted(animal: Json, x: seq<Json>, kept: seq<Json>) returns (y: seq<Json>)
    requires Parsed(animal) && Included(x) && multiset(kept) == multiset(Wanted(animal, x))
    ensures Refetch(animal, x, animal, y) && Wanted(animal, y) == kept
  {
    var rest := Filter(Unwanted(animal), x);
    y := kept + rest;
    WantedIs(animal, x);
    SameMembers(kept, Wanted(animal, x));
    RestIs(animal, x);
    BagKeepsDistinct(Wanted(animal, x), kept);
    RelistedIncluded(x, kept, rest);
    RelistedWanted(animal, kept, rest);
    SameAsItself(animal);
    forall v ensures v in x <==> v in y { assert v in x ==> v in Wanted(animal, x) || v in rest; }
    ListedAgain(x, y);
  }

  lemma ListedAgain(x: seq<Json>, y: seq<Json>)
    requires Included(x) && forall v :: v in x <==> v in y
    ensures SameResources(x, y)
  {
    forall v | v in x ensures ListedAs(v, y) && ListedFrom(x, v) {
      IncludedMember(x, v);
      SameAsItself(v);
    }
  }

  lemma RelistedWanted(animal: Json, kept: seq<Json>, rest: seq<Json>)
    requires (forall v :: v in kept ==> IsWanted(WantedNames(animal))(v)) && (forall v :: v in rest ==> !IsWanted(WantedNames(animal))(v))
    ensures Wanted(animal, kept + rest) == kept
  {
    var wanted := IsWanted(WantedNames(animal));
    FilterConcat(wanted, kept, rest);
    FilterAll(wanted, kept);
    FilterNone(wanted, rest);
  }

  lemma RestIs(animal: Json, x: seq<Json>)
    requires Included(x)
    ensures
      var rest := Filter(Unwanted(animal), x);
      Distinct(rest) && forall v :: v in rest <==> v in x && v !in Wanted(animal, x)
  {
    var rest := Filter(Unwanted(animal), x);
    assert Distinct(x);
    forall v ensures multiset(rest)[v] <= 1 {
      FilterCount(Unwanted(animal), x, v);
      DistinctIsOnceEach(x, v);
    }
    OnceEachIsDistinct(rest);
  }

  lemma RelistedIncluded(x: seq<Json>, kept: seq<Json>, rest: seq<Json>)
    requires Included(x) && Distinct(kept) && Distinct(rest)
    requires (forall v :: v in kept ==> v in x && v !in rest) && (forall v :: v in rest ==> v in x)
    ensures Included(kept + rest)
  {
    var y := kept + rest;
    forall i | 0 <= i < |y| ensures y[i] in x {}
    forall i, j | 0 <= i < j < |y| ensures y[i] != y[j] {
      if i < |kept| <= j { assert y[i] in kept && y[j] in rest; }
    }
    forall i, j | 0 <= i < j < |y| ensures RefAt(y[i]) != RefAt(y[j]) {
      if RefAt(y[i]) == RefAt(y[j]) { OneOfEach(x, y[i], y[j]); }
    }
  }

  lemma RefComparisonTotal(collate: (Text, Text) -> bool)
    requires Collates(collate)
    ensures Total(ByRef(collate))
  {
  }

  /** Two different orders of one duplicate-free list are not the same JSON. */
  lemma OrdersDiffer(s: seq<Json>, t: seq<Json>)
    requires Included(s) && Included(t) && multiset(s) == multiset(t) && s != t
    ensures !SameJson(JArr(s), JArr(t))
  {
    SameSize(s, t);
    SameMembers(s, t);
    if SameJson(JArr(s), JArr(t)) {
      forall i | 0 <= i < |s| ensures s[i] == t[i] {
        ReadRefSame(s[i], t[i]);
        assert s[i] in t && t[i] in t;
        OneOfEach(t, s[i], t[i]);
      }
    }
  }

  lemma TieShows(collate: (Text, Text) -> bool, animal: Json, x: seq<Json>)
    requires Collates(collate) && Parsed(animal) && Included(x) && WantedTie(collate, animal, x)
    ensures !OrderNeverShows(collate, animal, x)
  {
    var kept := Wanted(animal, x);
    var p, q :| TiedPair(collate, kept, p, q);
    WantedIs(animal, x);
    RefComparisonTotal(collate);
    var a, b := TieSortsTwoWays(ByRef(collate), kept, p, q);
    var y := Relisted(animal, x, a);
    var z := Relisted(animal, x, b);
    HashesDiffer(collate, animal, y, z);
  }

  lemma HashesDiffer(collate: (Text, Text) -> bool, animal: Json, y: seq<Json>, z: seq<Json>)
    requires Parsed(animal) && Included(y) && Included(z)
    requires
      var a, b := Wanted(animal, y), Wanted(animal, z);
      a != b && multiset(a) == multiset(b) && Sort(ByRef(collate), a) == a && Sort(ByRef(collate), b) == b
    ensures Hashed(collate, animal, y) != Hashed(collate, animal, z)
  {
    var a, b := Wanted(animal, y), Wanted(animal, z);
    WantedIs(animal, y);
    WantedIs(animal, z);
    OrdersDiffer(a, b);
    PayloadsSame(animal, a, animal, b);
    SidecarParsed(collate, animal, y);
    SidecarParsed(collate, animal, z);
    CanonicalTextIsExact(Payload(animal, a), Payload(animal, b));
  }

  /**
   Two fetches of one animal that differ only in the order of object keys and of the duplicate-free `included` list hash the same,
   whatever those orders, exactly when no two resources the animal wants have refs that tie under the collation.
   */
  lemma FetchOrderNeverShowsExactly(collate: (Text, Text) -> bool, animal: Json, x: seq<Json>)
    requires Collates(collate) && Parsed(animal) && Included(x)
    ensures OrderNeverShows(collate, animal, x) <==> !WantedTie(collate, animal, x)
  {
    if WantedTie(collate, animal, x) {
      TieShows(collate, animal, x);
    } else {
      NoTieNeverShows(collate, animal, x);
    }
  }
}
