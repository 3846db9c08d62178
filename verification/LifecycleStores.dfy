/** The two lifecycle stores: the reference in memory and the one over Postgres, each doing what `Reconciles` says. */
module LifecycleStores {
  import opened Prelude
  import opened Sorting
  import opened Claims
  import opened RawStore
  import opened Lifecycle

  // ---------- what both share ----------

  method NewestSighting(ids: Identities, keys: set<Key>) returns (newest: Option<int>)
    requires keys <= ids.Keys
    ensures newest.None? <==> keys == {}
    ensures newest.Some? ==> exists k :: k in keys && ids[k].lastSeenAt == newest.value
    ensures forall k :: k in keys ==> newest.Some? && ids[k].lastSeenAt <= newest.value
  {
    newest := None;
    var todo := keys;
    while todo != {}
      invariant todo <= keys
      invariant newest.None? <==> todo == keys
      invariant newest.Some? ==> exists k :: k in keys && ids[k].lastSeenAt == newest.value
      invariant forall k :: k in keys - todo ==> newest.Some? && ids[k].lastSeenAt <= newest.value
      decreases todo
    {
      var k :| k in todo;
      if newest.None? || ids[k].lastSeenAt > newest.value { newest := Some(ids[k].lastSeenAt); }
      todo := todo - {k};
    }
  }

  function ResolveAt(at: int, newest: Option<int>): (r: (int, int))
    ensures r.0 == at + r.1
  {
    if newest.None? || at >= newest.value then (at, 0) else (newest.value, newest.value - at)
  }

  function OrderedByDate(ids: Identities): (Key, Key) -> bool {
    (a, b) => a in ids && b in ids && ids[a].lastSeenAt <= ids[b].lastSeenAt
  }

  lemma {:induction false} MembersOf<T>(s: seq<T>, members: set<T>)
    requires Distinct(s) && forall x :: x in members <==> x in s
    ensures |members| == |s|
  {
    if s != [] {
      var init, last := s[..|s| - 1], s[|s| - 1];
      assert s == init + [last];
      assert last !in init;
      MembersOf(init, members - {last});
    }
  }

  /** The middle of the sorted dates is the discrete median. */
  lemma MiddleIsMedian(ids: Identities, keys: set<Key>, sorted: seq<Key>)
    requires keys <= ids.Keys && Distinct(sorted) && sorted != []
    requires forall k :: k in sorted <==> k in keys
    requires forall i, j :: 0 <= i < j < |sorted| ==> ids[sorted[i]].lastSeenAt <= ids[sorted[j]].lastSeenAt
    ensures Median(ids, keys, Some(ids[sorted[(|sorted| + 1) / 2 - 1]].lastSeenAt))
  {
    var n := |sorted|;
    var mid := (n + 1) / 2 - 1;
    var m := ids[sorted[mid]].lastSeenAt;
    MembersOf(sorted, keys);
    assert sorted[mid] in keys;
    PrefixWithin(sorted, mid + 1, UpTo(ids, keys, m));
    forall k | k in keys && ids[k].lastSeenAt < m ensures 2 * |UpTo(ids, keys, ids[k].lastSeenAt)| < |keys| {
      var below := UpTo(ids, keys, ids[k].lastSeenAt);
      forall x | x in below ensures x in sorted[..mid] {
        var i :| 0 <= i < n && sorted[i] == x;
      }
      WithinPrefix(sorted, mid, below);
    }
  }

  lemma PrefixWithin(s: seq<Key>, n: nat, members: set<Key>)
    requires Distinct(s) && n <= |s| && forall i :: 0 <= i < n ==> s[i] in members
    ensures n <= |members|
  {
    var prefix := set x | x in s[..n];
    MembersOf(s[..n], prefix);
    assert prefix <= members;
    assert members == prefix + (members - prefix);
  }

  lemma WithinPrefix(s: seq<Key>, n: nat, members: set<Key>)
    requires Distinct(s) && n <= |s| && forall x :: x in members ==> x in s[..n]
    ensures |members| <= n
  {
    var prefix := set x | x in s[..n];
    MembersOf(s[..n], prefix);
    assert prefix == members + (prefix - members);
  }

  /** The members of a set, in whatever order a query or a `Map` lists them. */
  method Select(keys: set<Key>) returns (rows: seq<Key>)
    ensures Distinct(rows) && forall k :: k in rows <==> k in keys
  {
    rows := [];
    var todo := keys;
    while todo != {}
      invariant todo <= keys && Distinct(rows)
      invariant forall k :: k in rows <==> k in keys - todo
      decreases todo
    {
      var k :| k in todo;
      assert k !in rows;
      rows := rows + [k];
      todo := todo - {k};
    }
  }

  /** The rows by date; rows of one date in any order. */
  method InDateOrder(ids: Identities, keys: set<Key>, rows: seq<Key>) returns (sorted: seq<Key>)
    requires keys <= ids.Keys && Distinct(rows) && forall k :: k in rows <==> k in keys
    ensures Distinct(sorted) && |sorted| == |rows| && forall k :: k in sorted <==> k in keys
    ensures forall i, j :: 0 <= i < j < |sorted| ==> ids[sorted[i]].lastSeenAt <= ids[sorted[j]].lastSeenAt
  {
    sorted := Sort(OrderedByDate(ids), rows);
    SortKeepsMembers(OrderedByDate(ids), rows);
    SortSorts(OrderedByDate(ids), rows);
  }

  /** `medianDate`: sort, and take the element at `ceil(n / 2) - 1`. */
  method MedianDate(ids: Identities, keys: set<Key>) returns (m: Option<int>)
    requires keys <= ids.Keys
    ensures Median(ids, keys, m)
  {
    if keys == {} { return None; }
    var listed := Select(keys);
    var sorted := InDateOrder(ids, keys, listed);
    ghost var k :| k in keys;
    assert k in sorted;
    MiddleIsMedian(ids, keys, sorted);
    return Some(ids[sorted[(|sorted| + 1) / 2 - 1]].lastSeenAt);
  }

  lemma EventsRank(collate: (string, string) -> bool, events: seq<Presence>)
    requires Collates(collate)
    ensures Ranks(LifecycleOrder(collate), events)
  {
  }

  /** Putting the emitted events in order gives the one event list. */
  lemma OrderedIsEventList(ids: Identities, source: Source, seen: set<string>, at: int,
      collate: (string, string) -> bool, emitted: seq<Presence>)
    requires Collates(collate) && Distinct(emitted)
    requires forall e :: e in emitted <==> e.key in ids && EventOf(ids, source, seen, at, e.key) == Some(e)
    ensures IsEventList(ids, source, seen, at, collate, Sort(LifecycleOrder(collate), emitted))
  {
    EventsRank(collate, emitted);
    SortKeepsMembers(LifecycleOrder(collate), emitted);
    SortSorts(LifecycleOrder(collate), emitted);
  }

  lemma RefusalReconciles(ids: Identities, source: Source, seen: set<string>, requested: int, gate: Tally -> bool,
      collate: (string, string) -> bool, steppedBack: int, tally: Tally)
    requires ResolvedAt(ids, source, requested, requested + steppedBack)
    requires IsTally(ids, source, seen, requested + steppedBack, tally) && gate(tally)
    ensures Reconciles(ids, source, seen, requested, gate, collate, Outcome(ids, [], steppedBack, tally, true))
  {
  }

  lemma EventsReconcile(ids: Identities, source: Source, seen: set<string>, requested: int, gate: Tally -> bool,
      collate: (string, string) -> bool, steppedBack: int, tally: Tally, events: seq<Presence>)
    requires ResolvedAt(ids, source, requested, requested + steppedBack)
    requires IsTally(ids, source, seen, requested + steppedBack, tally) && !gate(tally)
    requires IsEventList(ids, source, seen, requested + steppedBack, collate, events)
    ensures
      var now := Reconciled(ids, source, seen, requested + steppedBack);
      Reconciles(ids, source, seen, requested, gate, collate, Outcome(now, events, steppedBack, tally, false))
  {
  }

  /** The run's clock, never before the newest sighting of the source's own. */
  method Clock(ids: Identities, source: Source, requested: int) returns (at: int, steppedBack: int)
    ensures at == requested + steppedBack && ResolvedAt(ids, source, requested, at)
  {
    var newest := NewestSighting(ids, Own(ids, source));
    var resolved := ResolveAt(requested, newest);
    return resolved.0, resolved.1;
  }

  /** `inLifecycleOrder`. */
  method InOrder(ghost ids: Identities, ghost source: Source, ghost seen: set<string>, ghost at: int,
      collate: (string, string) -> bool, emitted: seq<Presence>)
    returns (events: seq<Presence>)
    requires Collates(collate) && Distinct(emitted)
    requires forall e :: e in emitted <==> e.key in ids && EventOf(ids, source, seen, at, e.key) == Some(e)
    ensures IsEventList(ids, source, seen, at, collate, events)
  {
    OrderedIsEventList(ids, source, seen, at, collate, emitted);
    events := Sort(LifecycleOrder(collate), emitted);
  }

  // ---------- in memory ----------

  class MemoryLifecycle {
    var identities: Identities

    constructor (ids: Identities)
      ensures identities == ids
    {
      identities := ids;
    }

    /** `reconcile` of memory.ts. The order a `Map` lists its identities in is left open: nothing depends on it. */
    method Reconcile(source: Source, seen: set<string>, requested: int, gate: Tally -> bool,
        collate: (string, string) -> bool)
      returns (out: Outcome)
      requires Collates(collate)
      modifies this
      ensures Reconciles(old(identities), source, seen, requested, gate, collate, out) && identities == out.identities
    {
      var at, steppedBack := Clock(identities, source, requested);
      var disappearing := Disappearing(identities, source, seen);
      var median := MedianDate(identities, disappearing);
      var tally := Tally(|Present(identities, source)|, |disappearing|, median, at);
      if gate(tally) {
        RefusalReconciles(identities, source, seen, requested, gate, collate, steppedBack, tally);
        return Outcome(identities, [], steppedBack, tally, true);
      }
      var emitted := Walk(source, seen, at);
      var events := InOrder(old(identities), source, seen, at, collate, emitted);
      EventsReconcile(old(identities), source, seen, requested, gate, collate, steppedBack, tally, events);
      out := Outcome(identities, events, steppedBack, tally, false);
    }

    /** The loop that visits each of the source's identities and changes it in place. */
    method Walk(source: Source, seen: set<string>, at: int) returns (emitted: seq<Presence>)
      modifies this
      ensures identities == Reconciled(old(identities), source, seen, at)
      ensures Distinct(emitted)
      ensures forall e :: e in emitted <==> e.key in old(identities) && EventOf(old(identities), source, seen, at, e.key) == Some(e)
    {
      ghost var was := identities;
      var todo := Own(identities, source);
      emitted := [];
      while todo != {}
        invariant todo <= Own(was, source) && identities == Partway(was, source, seen, at, todo)
        invariant EmittedSoFar(was, source, seen, at, todo, emitted)
        decreases todo
      {
        var k :| k in todo;
        var id := identities[k];
        VisitOne(was, source, seen, at, todo, k);
        EmitOne(was, source, seen, at, todo, k, emitted);
        if k.externalId in seen {
          if id.disappearedAt.Some? {
            emitted := emitted + [Reappeared(id.animalId, k, id.disappearedAt.value, at)];
          }
          identities := identities[k := id.(disappearedAt := None, lastSeenAt := at)];
        } else if id.disappearedAt.None? {
          emitted := emitted + [Disappeared(id.animalId, k, id.lastSeenAt, at)];
          identities := identities[k := id.(disappearedAt := Some(at))];
        }
        todo := todo - {k};
      }
    }
  }

  /** The identities with those of `todo` still to be visited. */
  ghost function Partway(was: Identities, source: Source, seen: set<string>, at: int, todo: set<Key>): Identities {
    map k | k in was :: if k in todo then was[k] else Reconciled(was, source, seen, at)[k]
  }

  ghost predicate EmittedSoFar(was: Identities, source: Source, seen: set<string>, at: int, todo: set<Key>, emitted: seq<Presence>) {
    && Distinct(emitted)
    && forall e :: e in emitted <==> e.key in was && e.key !in todo && EventOf(was, source, seen, at, e.key) == Some(e)
  }

  lemma VisitOne(was: Identities, source: Source, seen: set<string>, at: int, todo: set<Key>, k: Key)
    requires k in todo && todo <= was.Keys
    ensures Partway(was, source, seen, at, todo - {k}) == Partway(was, source, seen, at, todo)[k := Reconciled(was, source, seen, at)[k]]
    ensures Reconciled(was, source, seen, at)[k] == was[k] ==> Partway(was, source, seen, at, todo - {k}) == Partway(was, source, seen, at, todo)
  {
  }

  lemma EmitOne(was: Identities, source: Source, seen: set<string>, at: int, todo: set<Key>, k: Key, emitted: seq<Presence>)
    requires k in todo && todo <= was.Keys && EmittedSoFar(was, source, seen, at, todo, emitted)
    ensures
      var event := EventOf(was, source, seen, at, k);
      EmittedSoFar(was, source, seen, at, todo - {k}, if event.Some? then emitted + [event.value] else emitted)
  {
    var event := EventOf(was, source, seen, at, k);
    if event.Some? {
      var after := emitted + [event.value];
      assert forall e :: e in after <==> e in emitted || e == event.value;
    }
  }

  // ---------- over Postgres ----------

  /** The first update: everything seen is present, as of now. */
  function SeenUpdate(ids: Identities, source: Source, seen: set<string>, at: int): Identities {
    map k | k in ids :: if k.source == source && k.externalId in seen then ids[k].(disappearedAt := None, lastSeenAt := at) else ids[k]
  }

  /** The second: everything present and not seen is gone. */
  function GoneUpdate(ids: Identities, source: Source, seen: set<string>, at: int): Identities {
    map k | k in ids ::
      if k.source == source && ids[k].disappearedAt.None? && k.externalId !in seen then ids[k].(disappearedAt := Some(at)) else ids[k]
  }

  lemma TwoUpdatesReconcile(ids: Identities, source: Source, seen: set<string>, at: int)
    ensures GoneUpdate(SeenUpdate(ids, source, seen, at), source, seen, at) == Reconciled(ids, source, seen, at)
  {
  }

  function Returning(ids: Identities, source: Source, seen: set<string>): set<Key> {
    set k | k in ids && k.source == source && ids[k].disappearedAt.Some? && k.externalId in seen
  }

  lemma SeenUpdateKeepsUnseen(ids: Identities, source: Source, seen: set<string>, at: int)
    ensures Disappearing(SeenUpdate(ids, source, seen, at), source, seen) == Disappearing(ids, source, seen)
    ensures forall k :: k in Disappearing(ids, source, seen) ==> SeenUpdate(ids, source, seen, at)[k] == ids[k]
  {
  }

  predicate ReachesHalf(position: nat, rows: nat)
    requires rows > 0
  {
    position as real / rows as real >= 0.5
  }

  lemma HalfOf(position: nat, rows: nat)
    requires rows > 0
    ensures ReachesHalf(position, rows) <==> 2 * position >= rows
  {
    var share := position as real / rows as real;
    assert share * rows as real == position as real;
    if share >= 0.5 {
      assert (share - 0.5) * rows as real >= 0.0;
    } else {
      assert (0.5 - share) * rows as real > 0.0;
    }
  }

  /** Down the rows, position by position, to the first that reaches a half. */
  method FirstReachingHalf(rows: nat) returns (position: nat)
    requires rows > 0
    ensures 1 <= position <= rows && ReachesHalf(position, rows) && forall p :: 1 <= p < position ==> !ReachesHalf(p, rows)
    ensures position == (rows + 1) / 2
  {
    position := 1;
    while !ReachesHalf(position, rows)
      invariant 1 <= position <= rows && 2 * (position - 1) < rows && forall p :: 1 <= p < position ==> !ReachesHalf(p, rows)
      decreases rows - position
    {
      HalfOf(position, rows);
      position := position + 1;
    }
    HalfOf(position, rows);
  }

  class PgLifecycle {
    var identities: Identities

    constructor (ids: Identities)
      ensures identities == ids
    {
      identities := ids;
    }

    /**
     `percentile_disc(0.5) within group (order by last_seen_at)`: over the rows in order, the first whose position, counted from
     one and divided by how many there are, reaches a half.
     */
    method PercentileDisc(keys: set<Key>) returns (m: Option<int>)
      requires keys <= identities.Keys
      ensures Median(identities, keys, m)
    {
      var rows := Select(keys);
      if rows == [] { return None; }
      var sorted := InDateOrder(identities, keys, rows);
      var position := FirstReachingHalf(|sorted|);
      MiddleIsMedian(identities, keys, sorted);
      return Some(identities[sorted[position - 1]].lastSeenAt);
    }

    /** The three aggregates the gate reads. */
    method Aggregates(source: Source, seen: set<string>, at: int) returns (tally: Tally)
      ensures IsTally(identities, source, seen, at, tally)
    {
      var disappearing := Disappearing(identities, source, seen);
      var median := PercentileDisc(disappearing);
      return Tally(|Present(identities, source)|, |disappearing|, median, at);
    }

    /** `reconcile` of pg.ts: aggregates, one select, two set updates. */
    method Reconcile(source: Source, seen: set<string>, requested: int, gate: Tally -> bool,
        collate: (string, string) -> bool)
      returns (out: Outcome)
      requires Collates(collate)
      modifies this
      ensures Reconciles(old(identities), source, seen, requested, gate, collate, out) && identities == out.identities
    {
      ghost var was := identities;
      var at, steppedBack := Clock(identities, source, requested);
      var tally := Aggregates(source, seen, at);
      if gate(tally) {
        RefusalReconciles(was, source, seen, requested, gate, collate, steppedBack, tally);
        return Outcome(identities, [], steppedBack, tally, true);
      }
      var emitted := Waves(source, seen, at);
      var events := InOrder(was, source, seen, at, collate, emitted);
      EventsReconcile(was, source, seen, requested, gate, collate, steppedBack, tally, events);
      out := Outcome(identities, events, steppedBack, tally, false);
    }

    /** One select, two set updates, and the events of both waves. */
    method Waves(source: Source, seen: set<string>, at: int) returns (events: seq<Presence>)
      modifies this
      ensures identities == Reconciled(old(identities), source, seen, at)
      ensures Distinct(events)
      ensures forall e :: e in events <==> e.key in old(identities) && EventOf(old(identities), source, seen, at, e.key) == Some(e)
    {
      ghost var was := identities;
      TwoUpdatesReconcile(was, source, seen, at);
      SeenUpdateKeepsUnseen(was, source, seen, at);
      var wasGone := Select(Returning(identities, source, seen));
      var back := Reappearances(identities, wasGone, at);
      identities := SeenUpdate(identities, source, seen, at);
      var gone := Select(Disappearing(identities, source, seen));
      var left := Disappearances(identities, gone, at);
      identities := GoneUpdate(identities, source, seen, at);
      BothWaves(was, source, seen, at, wasGone, gone, back, left);
      events := back + left;
    }
  }

  ghost predicate PerRow(rows: seq<Key>, events: seq<Presence>) {
    && |events| == |rows|
    && forall i :: 0 <= i < |rows| ==> events[i].key == rows[i]
  }

  method Reappearances(ids: Identities, rows: seq<Key>, at: int) returns (events: seq<Presence>)
    requires forall k :: k in rows ==> k in ids && ids[k].disappearedAt.Some?
    ensures PerRow(rows, events)
    ensures forall i :: 0 <= i < |rows| ==> events[i] == Reappeared(ids[rows[i]].animalId, rows[i], ids[rows[i]].disappearedAt.value, at)
  {
    events := [];
    for n := 0 to |rows|
      invariant |events| == n
      invariant forall i :: 0 <= i < n ==> events[i] == Reappeared(ids[rows[i]].animalId, rows[i], ids[rows[i]].disappearedAt.value, at)
    {
      var k := rows[n];
      events := events + [Reappeared(ids[k].animalId, k, ids[k].disappearedAt.value, at)];
    }
  }

  method Disappearances(ids: Identities, rows: seq<Key>, at: int) returns (events: seq<Presence>)
    requires forall k :: k in rows ==> k in ids
    ensures PerRow(rows, events)
    ensures forall i :: 0 <= i < |rows| ==> events[i] == Disappeared(ids[rows[i]].animalId, rows[i], ids[rows[i]].lastSeenAt, at)
  {
    events := [];
    for n := 0 to |rows|
      invariant |events| == n
      invariant forall i :: 0 <= i < n ==> events[i] == Disappeared(ids[rows[i]].animalId, rows[i], ids[rows[i]].lastSeenAt, at)
    {
      var k := rows[n];
      events := events + [Disappeared(ids[k].animalId, k, ids[k].lastSeenAt, at)];
    }
  }

  /** The two selects together list each identity that has an event, once, with that event. */
  lemma BothWaves(ids: Identities, source: Source, seen: set<string>, at: int, wasGone: seq<Key>, gone: seq<Key>,
      back: seq<Presence>, left: seq<Presence>)
    requires Distinct(wasGone) && Distinct(gone) && PerRow(wasGone, back) && PerRow(gone, left)
    requires forall k :: k in wasGone <==> k in ids && k.source == source && ids[k].disappearedAt.Some? && k.externalId in seen
    requires forall k :: k in gone <==> k in ids && k.source == source && ids[k].disappearedAt.None? && k.externalId !in seen
    requires forall i :: 0 <= i < |wasGone| ==> EventOf(ids, source, seen, at, wasGone[i]) == Some(back[i])
    requires forall i :: 0 <= i < |gone| ==> EventOf(ids, source, seen, at, gone[i]) == Some(left[i])
    ensures Distinct(back + left)
    ensures forall e :: e in back + left <==> e.key in ids && EventOf(ids, source, seen, at, e.key) == Some(e)
  {
    var all, rows := back + left, wasGone + gone;
    assert forall i :: 0 <= i < |all| ==> all[i].key == rows[i] && EventOf(ids, source, seen, at, rows[i]) == Some(all[i]);
    forall e: Presence | e.key in ids && EventOf(ids, source, seen, at, e.key) == Some(e) ensures e in all {
      assert e.key in rows;
      var i :| 0 <= i < |rows| && rows[i] == e.key;
      assert all[i] == e;
    }
    forall i, j | 0 <= i < j < |all| ensures all[i] != all[j] {
      assert rows[i] != rows[j];
    }
  }
}
