/** When the order of a reconcile's events is settled: exactly when no two events of one kind tie under the collation. */
module ReconcileOrder {
  import opened Prelude
  import opened Sorting
  import opened Claims
  import opened RawStore
  import opened Lifecycle
  import opened LifecycleStores

  /** Two animals of the run that both disappear, or both come back, under ids the collation can't tell apart. */
  ghost predicate EventsTie(ids: Identities, source: Source, seen: set<string>, collate: (string, string) -> bool) {
    exists j, k :: TiedPair(ids, source, seen, collate, j, k)
  }

  ghost predicate TiedPair(ids: Identities, source: Source, seen: set<string>, collate: (string, string) -> bool, j: Key, k: Key) {
    && j != k && Tie(collate, j.externalId, k.externalId)
    && ((j in Disappearing(ids, source, seen) && k in Disappearing(ids, source, seen))
        || (j in Returning(ids, source, seen) && k in Returning(ids, source, seen)))
  }

  /** Only one outcome keeps the promise. */
  ghost predicate Determined(ids: Identities, source: Source, seen: set<string>, requested: int, gate: Tally -> bool,
      collate: (string, string) -> bool)
  {
    forall a: Outcome, b: Outcome ::
      Reconciles(ids, source, seen, requested, gate, collate, a) && Reconciles(ids, source, seen, requested, gate, collate, b) ==> a == b
  }

  // ---------- no ties, one order ----------

  lemma EventListUnique(ids: Identities, source: Source, seen: set<string>, at: int, collate: (string, string) -> bool,
      a: seq<Presence>, b: seq<Presence>)
    requires Collates(collate) && !EventsTie(ids, source, seen, collate)
    requires IsEventList(ids, source, seen, at, collate, a) && IsEventList(ids, source, seen, at, collate, b)
    ensures a == b
  {
    SameElementsSameBag(a, b);
    var le := LifecycleOrder(collate);
    forall x, y | x in a && y in a && le(x, y) && le(y, x) ensures x == y {
      if x.key != y.key { assert TiedPair(ids, source, seen, collate, x.key, y.key); }
    }
    SortedUnique(le, a, b);
  }

  // ---------- some outcome ----------

  lemma {:induction false} ListOf(keys: set<Key>) returns (rows: seq<Key>)
    ensures Distinct(rows) && forall k :: k in rows <==> k in keys
  {
    rows := [];
    if keys != {} {
      var k :| k in keys;
      rows := ListOf(keys - {k});
      rows := rows + [k];
    }
  }

  lemma MedianExists(ids: Identities, keys: set<Key>) returns (m: Option<int>)
    requires keys <= ids.Keys
    ensures Median(ids, keys, m)
  {
    if keys == {} { return None; }
    var rows := ListOf(keys);
    var sorted := Sort(OrderedByDate(ids), rows);
    SortKeepsMembers(OrderedByDate(ids), rows);
    SortSorts(OrderedByDate(ids), rows);
    var k :| k in keys;
    assert k in sorted;
    MiddleIsMedian(ids, keys, sorted);
    m := Some(ids[sorted[(|sorted| + 1) / 2 - 1]].lastSeenAt);
  }

  lemma {:induction false} ResolvedExists(ids: Identities, source: Source, keys: set<Key>, requested: int) returns (at: int)
    requires keys <= Own(ids, source)
    ensures requested <= at && (forall k :: k in keys ==> ids[k].lastSeenAt <= at)
    ensures at == requested || exists k :: k in keys && ids[k].lastSeenAt == at
  {
    at := requested;
    if keys != {} {
      var k :| k in keys;
      at := ResolvedExists(ids, source, keys - {k}, requested);
      assert forall j :: j in keys ==> j == k || j in keys - {k};
      if ids[k].lastSeenAt > at { at := ids[k].lastSeenAt; }
    }
  }

  /** An event for each of these identities, in their order. */
  lemma EmittedFor(ids: Identities, source: Source, seen: set<string>, at: int, rows: seq<Key>) returns (emitted: seq<Presence>)
    requires Distinct(rows) && forall k :: k in rows ==> k in ids && EventOf(ids, source, seen, at, k).Some?
    ensures Distinct(emitted) && forall e :: e in emitted <==> e.key in rows && EventOf(ids, source, seen, at, e.key) == Some(e)
  {
    assert forall i :: 0 <= i < |rows| ==> rows[i] in rows;
    emitted := seq(|rows|, i requires 0 <= i < |rows| => EventOf(ids, source, seen, at, rows[i]).value);
    forall i, j | 0 <= i < j < |emitted| ensures emitted[i] != emitted[j] {
      assert rows[i] != rows[j] && emitted[i].key == rows[i] && emitted[j].key == rows[j];
    }
    forall e: Presence | e.key in rows && EventOf(ids, source, seen, at, e.key) == Some(e) ensures e in emitted {
      var i :| 0 <= i < |rows| && rows[i] == e.key;
      assert emitted[i] == e;
    }
  }

  lemma EventListExists(ids: Identities, source: Source, seen: set<string>, at: int, collate: (string, string) -> bool)
    returns (events: seq<Presence>)
    requires Collates(collate)
    ensures IsEventList(ids, source, seen, at, collate, events)
  {
    var keys := set k | k in ids && EventOf(ids, source, seen, at, k).Some?;
    var rows := ListOf(keys);
    var emitted := EmittedFor(ids, source, seen, at, rows);
    OrderedIsEventList(ids, source, seen, at, collate, emitted);
    events := Sort(LifecycleOrder(collate), emitted);
  }

  /** A run the gate lets through has an outcome. */
  lemma OutcomeExists(ids: Identities, source: Source, seen: set<string>, requested: int, gate: Tally -> bool,
      collate: (string, string) -> bool) returns (out: Outcome)
    requires Collates(collate) && !Refused(ids, source, seen, requested, gate)
    ensures Reconciles(ids, source, seen, requested, gate, collate, out) && !out.refused
  {
    var t: Tally :| IsTally(ids, source, seen, t.at, t) && ResolvedAt(ids, source, requested, t.at) && !gate(t);
    var events := EventListExists(ids, source, seen, t.at, collate);
    out := Outcome(Reconciled(ids, source, seen, t.at), events, t.at - requested, t, false);
  }

  // ---------- a tie, two orders ----------

  function Swapped<T>(s: seq<T>, i: nat, j: nat): (r: seq<T>)
    requires i < j < |s|
    ensures |r| == |s| && r[i] == s[j] && r[j] == s[i] && forall m :: 0 <= m < |s| && m != i && m != j ==> r[m] == s[m]
  {
    s[i := s[j]][j := s[i]]
  }

  /** Two events that tie may stand in each other's place. */
  lemma SwapKeepsSorted<T(!new)>(le: (T, T) -> bool, s: seq<T>, i: nat, j: nat)
    requires i < j < |s| && Sorted(le, s) && Ranks(le, s) && le(s[j], s[i])
    ensures Sorted(le, Swapped(s, i, j))
  {
    var r := Swapped(s, i, j);
    assert s[i] in s && s[j] in s && le(s[i], s[j]);
    forall p, q | 0 <= p < q < |r| ensures le(r[p], r[q]) {
      assert s[p] in s && s[q] in s;
    }
  }

  lemma SwapKeepsEvents<T>(s: seq<T>, i: nat, j: nat)
    requires i < j < |s| && Distinct(s)
    ensures Distinct(Swapped(s, i, j)) && Swapped(s, i, j) != s && forall x :: x in Swapped(s, i, j) <==> x in s
  {
    var r := Swapped(s, i, j);
    assert forall m :: 0 <= m < |s| ==> r[m] in s;
    assert s[i] == r[j] && s[j] == r[i] && forall m :: 0 <= m < |s| && m != i && m != j ==> s[m] == r[m];
    assert s[i] != s[j];
  }

  /** Where two events that tie stand in a list, the earlier first. */
  lemma TiedPlaces(ids: Identities, source: Source, seen: set<string>, at: int, collate: (string, string) -> bool,
      events: seq<Presence>) returns (i: nat, j: nat)
    requires IsEventList(ids, source, seen, at, collate, events) && EventsTie(ids, source, seen, collate)
    ensures i < j < |events| && LifecycleOrder(collate)(events[j], events[i])
  {
    var a, b :| TiedPair(ids, source, seen, collate, a, b);
    var x, y := EventOf(ids, source, seen, at, a).value, EventOf(ids, source, seen, at, b).value;
    assert x in events && y in events;
    i :| 0 <= i < |events| && events[i] == x;
    j :| 0 <= j < |events| && events[j] == y;
    if j < i { i, j := j, i; }
  }

  lemma OtherOrderReconciles(ids: Identities, source: Source, seen: set<string>, requested: int, gate: Tally -> bool,
      collate: (string, string) -> bool, out: Outcome, events: seq<Presence>)
    requires Reconciles(ids, source, seen, requested, gate, collate, out) && !out.refused
    requires Distinct(events) && Sorted(LifecycleOrder(collate), events) && forall x :: x in events <==> x in out.events
    ensures Reconciles(ids, source, seen, requested, gate, collate, out.(events := events))
  {
  }

  lemma TieLeavesOpen(ids: Identities, source: Source, seen: set<string>, requested: int, gate: Tally -> bool,
      collate: (string, string) -> bool)
    requires Collates(collate) && !Refused(ids, source, seen, requested, gate) && EventsTie(ids, source, seen, collate)
    ensures !Determined(ids, source, seen, requested, gate, collate)
  {
    var out := OutcomeExists(ids, source, seen, requested, gate, collate);
    var i, j := TiedPlaces(ids, source, seen, requested + out.clockSteppedBackMs, collate, out.events);
    EventsRank(collate, out.events);
    SwapKeepsSorted(LifecycleOrder(collate), out.events, i, j);
    SwapKeepsEvents(out.events, i, j);
    OtherOrderReconciles(ids, source, seen, requested, gate, collate, out, Swapped(out.events, i, j));
  }

  lemma NoRoomForTwo(ids: Identities, source: Source, seen: set<string>, requested: int, gate: Tally -> bool,
      collate: (string, string) -> bool, a: Outcome, b: Outcome)
    requires Collates(collate) && (Refused(ids, source, seen, requested, gate) || !EventsTie(ids, source, seen, collate))
    requires Reconciles(ids, source, seen, requested, gate, collate, a) && Reconciles(ids, source, seen, requested, gate, collate, b)
    ensures a == b
  {
    ReconcilesAgree(ids, source, seen, requested, gate, collate, a, b);
    if !a.refused {
      assert IsTally(ids, source, seen, a.tally.at, a.tally);
      EventListUnique(ids, source, seen, requested + a.clockSteppedBackMs, collate, a.events, b.events);
    }
  }

  lemma UntiedIsDetermined(ids: Identities, source: Source, seen: set<string>, requested: int, gate: Tally -> bool,
      collate: (string, string) -> bool)
    requires Collates(collate) && (Refused(ids, source, seen, requested, gate) || !EventsTie(ids, source, seen, collate))
    ensures Determined(ids, source, seen, requested, gate, collate)
  {
    forall a: Outcome, b: Outcome
      | Reconciles(ids, source, seen, requested, gate, collate, a) && Reconciles(ids, source, seen, requested, gate, collate, b)
      ensures a == b
    {
      NoRoomForTwo(ids, source, seen, requested, gate, collate, a, b);
    }
  }

  /**
   The promise settles the event sequence, and so both stores tell the same one, exactly when the gate refuses or no two events of
   one kind tie under the collation.
   */
  lemma ReconcileIsDeterminedExactly(ids: Identities, source: Source, seen: set<string>, requested: int, gate: Tally -> bool,
      collate: (string, string) -> bool)
    requires Collates(collate)
    ensures Determined(ids, source, seen, requested, gate, collate) <==>
      Refused(ids, source, seen, requested, gate) || !EventsTie(ids, source, seen, collate)
  {
    if !Refused(ids, source, seen, requested, gate) && EventsTie(ids, source, seen, collate) {
      TieLeavesOpen(ids, source, seen, requested, gate, collate);
    } else {
      UntiedIsDetermined(ids, source, seen, requested, gate, collate);
    }
  }

  /** The letter e with an acute accent, as one character and as two. */
  const COMPOSED: string := "\U{E9}"
  const DECOMPOSED: string := "e\U{301}"

  /** Two animals under canonically equivalent ids, both gone: under any collation that ties them, two event orders keep the promise. */
  lemma EquivalentIdsLeaveOrderOpen(collate: (string, string) -> bool, source: Source, at: int)
    requires Collates(collate) && Tie(collate, COMPOSED, DECOMPOSED)
    ensures
      var ids := map[Key(source, COMPOSED) := Identity(1, at, None, None), Key(source, DECOMPOSED) := Identity(2, at, None, None)];
      !Determined(ids, source, {}, at, (t: Tally) => false, collate)
  {
    var j, k := Key(source, COMPOSED), Key(source, DECOMPOSED);
    var ids := map[j := Identity(1, at, None, None), k := Identity(2, at, None, None)];
    var gate := (t: Tally) => false;
    assert |COMPOSED| == 1 && |DECOMPOSED| == 2;
    assert TiedPair(ids, source, {}, collate, j, k);
    var m := MedianExists(ids, Disappearing(ids, source, {}));
    var t := Tally(|Present(ids, source)|, |Disappearing(ids, source, {})|, m, at);
    assert IsTally(ids, source, {}, t.at, t) && ResolvedAt(ids, source, at, t.at) && !gate(t);
    TieLeavesOpen(ids, source, {}, at, gate, collate);
  }
}
