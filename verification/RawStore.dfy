/** Stage 1: every observation persisted, and one that repeats the latest row only moves that row's `last_seen`. */
module RawStore {
  import opened Prelude
  import opened Claims

  datatype Key = Key(source: Source, externalId: string)
  datatype Observation = Observation(key: Key, payload: string, fetchedAt: int, contentHash: string)
  datatype RawRow = RawRow(rawId: nat, key: Key, payload: string, fetchedAt: int, contentHash: string, lastSeen: int)

  /** An observation as the later stages read it: always a raw row, never the poll that repeated it. */
  datatype Stored = Stored(rawId: nat, key: Key, payload: string, fetchedAt: int)

  function StoredOf(row: RawRow): Stored { Stored(row.rawId, row.key, row.payload, row.fetchedAt) }

  /** `findLast`: the index of the newest row of `key`, or none. */
  function Latest(rows: seq<RawRow>, key: Key): (r: Option<nat>)
    ensures r.Some? ==> r.value < |rows| && rows[r.value].key == key
    ensures r.Some? ==> forall i :: r.value < i < |rows| ==> rows[i].key != key
    ensures r.None? ==> forall i :: 0 <= i < |rows| ==> rows[i].key != key
  {
    if rows == [] then None
    else if rows[|rows| - 1].key == key then Some(|rows| - 1)
    else Latest(rows[..|rows| - 1], key)
  }

  predicate Repeats(rows: seq<RawRow>, obs: Observation) {
    Latest(rows, obs.key).Some? && rows[Latest(rows, obs.key).value].contentHash == obs.contentHash
  }

  function Persist(rows: seq<RawRow>, obs: Observation): seq<RawRow> {
    if Repeats(rows, obs) then
      var at := Latest(rows, obs.key).value;
      rows[at := rows[at].(lastSeen := obs.fetchedAt)]
    else
      rows + [RawRow(|rows| + 1, obs.key, obs.payload, obs.fetchedAt, obs.contentHash, obs.fetchedAt)]
  }

  /** The row the persisted observation is, once persisted. */
  function RowFor(rows: seq<RawRow>, obs: Observation): (at: nat)
    ensures at < |Persist(rows, obs)| && Persist(rows, obs)[at].key == obs.key && Persist(rows, obs)[at].contentHash == obs.contentHash
  {
    if Repeats(rows, obs) then Latest(rows, obs.key).value else |rows|
  }

  function PersistAll(history: seq<Observation>): seq<RawRow> {
    if history == [] then [] else Persist(PersistAll(history[..|history| - 1]), history[|history| - 1])
  }

  ghost predicate Numbered(rows: seq<RawRow>) {
    forall i :: 0 <= i < |rows| ==> rows[i].rawId == i + 1
  }

  // ---------- run-length compression ----------

  /** One unbroken stretch of the same content, from its first fetch to its last. */
  datatype Stretch = Stretch(contentHash: string, first: int, last: int)

  /** How many observations at the front share the first one's content. */
  function Lead(seen: seq<Observation>): (n: nat)
    requires seen != []
    ensures 1 <= n <= |seen|
  {
    if |seen| > 1 && seen[1].contentHash == seen[0].contentHash then 1 + Lead(seen[1..]) else 1
  }

  function Stretches(seen: seq<Observation>): seq<Stretch>
    decreases |seen|
  {
    if seen == [] then []
    else
      var n := Lead(seen);
      [Stretch(seen[0].contentHash, seen[0].fetchedAt, seen[n - 1].fetchedAt)] + Stretches(seen[n..])
  }

  /** The same list one observation later. */
  function Continue(stretches: seq<Stretch>, o: Observation): seq<Stretch> {
    var n := |stretches|;
    if n > 0 && stretches[n - 1].contentHash == o.contentHash
    then stretches[..n - 1] + [stretches[n - 1].(last := o.fetchedAt)]
    else stretches + [Stretch(o.contentHash, o.fetchedAt, o.fetchedAt)]
  }

  lemma {:induction false} LeadSnoc(seen: seq<Observation>, o: Observation)
    requires seen != []
    ensures Lead(seen + [o]) ==
      if Lead(seen) == |seen| && o.contentHash == seen[0].contentHash then |seen| + 1 else Lead(seen)
  {
    var longer := seen + [o];
    if |seen| > 1 && seen[1].contentHash == seen[0].contentHash {
      assert longer[1..] == seen[1..] + [o];
      LeadSnoc(seen[1..], o);
    }
  }

  lemma ContinueBehind(head: Stretch, rest: seq<Stretch>, o: Observation)
    requires rest != []
    ensures Continue([head] + rest, o) == [head] + Continue(rest, o)
  {
    var all := [head] + rest;
    assert all[|all| - 1] == rest[|rest| - 1];
    assert all[..|all| - 1] == [head] + rest[..|rest| - 1];
  }

  function LeadStretch(seen: seq<Observation>): Stretch
    requires seen != []
  {
    Stretch(seen[0].contentHash, seen[0].fetchedAt, seen[Lead(seen) - 1].fetchedAt)
  }

  lemma SingleStretch(seen: seq<Observation>)
    requires seen != [] && Lead(seen) == |seen|
    ensures Stretches(seen) == [Stretch(seen[0].contentHash, seen[0].fetchedAt, seen[|seen| - 1].fetchedAt)]
  {
    assert seen[|seen|..] == [];
  }

  lemma {:induction false} TwoStretches(seen: seq<Observation>, o: Observation)
    requires seen != [] && Lead(seen) == |seen| && o.contentHash != seen[0].contentHash
    ensures Stretches(seen + [o]) == Stretches(seen) + [Stretch(o.contentHash, o.fetchedAt, o.fetchedAt)]
  {
    var longer := seen + [o];
    LeadSnoc(seen, o);
    SingleStretch(seen);
    SingleStretch([o]);
    assert longer[|seen|..] == [o];
    assert Stretches(longer) == [LeadStretch(longer)] + Stretches(longer[Lead(longer)..]);
  }

  /** One stretch so far: the next observation lengthens it or begins a second. */
  lemma SingleStretchSnoc(seen: seq<Observation>, o: Observation)
    requires seen != [] && Lead(seen) == |seen|
    ensures Stretches(seen + [o]) == Continue(Stretches(seen), o)
  {
    SingleStretch(seen);
    if o.contentHash == seen[0].contentHash {
      LeadSnoc(seen, o);
      SingleStretch(seen + [o]);
    } else {
      TwoStretches(seen, o);
    }
  }

  lemma {:induction false} StretchesSnoc(seen: seq<Observation>, o: Observation)
    ensures Stretches(seen + [o]) == Continue(Stretches(seen), o)
    decreases |seen|
  {
    if seen == [] {
      assert seen + [o] == [o] && Stretches([o][1..]) == [];
    } else if Lead(seen) == |seen| {
      SingleStretchSnoc(seen, o);
    } else {
      var n := Lead(seen);
      LeadSnoc(seen, o);
      assert (seen + [o])[n..] == seen[n..] + [o];
      StretchesSnoc(seen[n..], o);
      ContinueBehind(LeadStretch(seen), Stretches(seen[n..]), o);
      assert Stretches(seen + [o]) == [LeadStretch(seen)] + Stretches(seen[n..] + [o]);
    }
  }

  function OfKey(key: Key): Observation -> bool { (o: Observation) => o.key == key }

  function RowStretches(rows: seq<RawRow>, key: Key): seq<Stretch> {
    if rows == [] then []
    else
      var init, row := RowStretches(rows[..|rows| - 1], key), rows[|rows| - 1];
      if row.key == key then init + [Stretch(row.contentHash, row.fetchedAt, row.lastSeen)] else init
  }

  function StretchOf(row: RawRow, key: Key): seq<Stretch> {
    if row.key == key then [Stretch(row.contentHash, row.fetchedAt, row.lastSeen)] else []
  }

  lemma RowStretchesSnoc(rows: seq<RawRow>, row: RawRow, key: Key)
    ensures RowStretches(rows + [row], key) == RowStretches(rows, key) + StretchOf(row, key)
  {
    assert (rows + [row])[..|rows|] == rows;
  }

  /** `was` with its last stretch seen again at `at`. */
  predicate LastSeenAgain(was: seq<Stretch>, now: seq<Stretch>, contentHash: string, at: int) {
    was != [] && was[|was| - 1].contentHash == contentHash && now == was[..|was| - 1] + [was[|was| - 1].(last := at)]
  }

  lemma SeenAgainBefore(was: seq<Stretch>, now: seq<Stretch>, contentHash: string, at: int)
    requires LastSeenAgain(was, now, contentHash, at)
    ensures LastSeenAgain(was + [], now + [], contentHash, at)
  {
    assert was + [] == was && now + [] == now;
  }

  lemma TouchLast(init: seq<RawRow>, row: RawRow, at: int, other: Key)
    ensures
      var was, now := RowStretches(init + [row], other), RowStretches(init + [row.(lastSeen := at)], other);
      if other == row.key then LastSeenAgain(was, now, row.contentHash, at) else now == was
  {
    RowStretchesSnoc(init, row, other);
    RowStretchesSnoc(init, row.(lastSeen := at), other);
  }

  /** Touching the newest row of a key touches its newest stretch, and no other key's. */
  lemma {:induction false} TouchLatest(rows: seq<RawRow>, key: Key, at: int, other: Key)
    requires Latest(rows, key).Some?
    ensures
      var i := Latest(rows, key).value;
      var was, now := RowStretches(rows, other), RowStretches(rows[i := rows[i].(lastSeen := at)], other);
      if other == key then LastSeenAgain(was, now, rows[i].contentHash, at) else now == was
  {
    var i, init, last := Latest(rows, key).value, rows[..|rows| - 1], rows[|rows| - 1];
    assert rows == init + [last];
    if i == |rows| - 1 {
      assert rows[i := last.(lastSeen := at)] == init + [last.(lastSeen := at)];
      TouchLast(init, last, at, other);
    } else {
      var touched := init[i := init[i].(lastSeen := at)];
      assert rows[i := rows[i].(lastSeen := at)] == touched + [last];
      TouchLatest(init, key, at, other);
      RowStretchesSnoc(init, last, other);
      RowStretchesSnoc(touched, last, other);
      if other == key { SeenAgainBefore(RowStretches(init, other), RowStretches(touched, other), init[i].contentHash, at); }
    }
  }

  lemma {:induction false} NoRowsNoStretches(rows: seq<RawRow>, key: Key)
    requires Latest(rows, key).None?
    ensures RowStretches(rows, key) == []
  {
    if rows != [] { NoRowsNoStretches(rows[..|rows| - 1], key); }
  }

  lemma PersistContinues(rows: seq<RawRow>, obs: Observation, key: Key)
    ensures RowStretches(Persist(rows, obs), key)
         == if key == obs.key then Continue(RowStretches(rows, key), obs) else RowStretches(rows, key)
  {
    if Latest(rows, obs.key).Some? {
      TouchLatest(rows, obs.key, obs.fetchedAt, key);
    } else {
      NoRowsNoStretches(rows, obs.key);
    }
    if !Repeats(rows, obs) {
      assert Persist(rows, obs)[..|rows|] == rows;
    }
  }

  /**
   The store is run-length compression: whatever was polled, one animal's rows are its observed contents
   with consecutive repeats removed, dated by the first fetch of each stretch and last seen at its last.
   */
  lemma {:induction false} RowsAreStretches(history: seq<Observation>, key: Key)
    ensures RowStretches(PersistAll(history), key) == Stretches(Filter(OfKey(key), history))
  {
    if history != [] {
      var init, o := history[..|history| - 1], history[|history| - 1];
      assert history == init + [o];
      RowsAreStretches(init, key);
      PersistContinues(PersistAll(init), o, key);
      FilterSnoc(OfKey(key), init, o);
      StretchesSnoc(Filter(OfKey(key), init), o);
    }
  }

  /** Neighbouring stretches always differ: a payload that reverts is a third row, never the older one. */
  lemma {:induction false} StretchesAlternate(seen: seq<Observation>, i: nat)
    requires i + 1 < |Stretches(seen)|
    ensures Stretches(seen)[i].contentHash != Stretches(seen)[i + 1].contentHash
    decreases |seen|
  {
    var n := Lead(seen);
    if i == 0 {
      LeadEnds(seen);
    } else {
      StretchesAlternate(seen[n..], i - 1);
    }
  }

  lemma {:induction false} LeadEnds(seen: seq<Observation>)
    requires seen != []
    ensures Lead(seen) < |seen| ==> seen[Lead(seen)].contentHash != seen[0].contentHash
  {
    if |seen| > 1 && seen[1].contentHash == seen[0].contentHash { LeadEnds(seen[1..]); }
  }

  lemma {:induction false} RowsNumbered(history: seq<Observation>)
    ensures Numbered(PersistAll(history))
  {
    if history != [] { RowsNumbered(history[..|history| - 1]); }
  }
}
