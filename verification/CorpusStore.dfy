/** The in-memory stages (memory.ts) and the two loops that drive them (pipeline.ts), updating one corpus in place. */
module CorpusStore {
  import opened Prelude
  import opened Claims
  import opened RawStore
  import opened Lifecycle
  import opened LifecycleStores
  import opened Corpus

  /** What kept stage 5 from running. */
  datatype Skipped = DeclaredPartial | ObservedNothing | GateRefused

  class MemoryStages {
    var rows: seq<RawRow>
    var animals: map<nat, AnimalClaims>
    var display: map<(nat, Source), Display>
    var events: seq<Told>
    var nextAnimalId: nat
    const lifecycle: MemoryLifecycle
    const norm: Normalizer

    ghost function State(): Corpus
      reads this, lifecycle
    {
      Corpus(rows, animals, lifecycle.identities, display, events, nextAnimalId)
    }

    constructor (norm: Normalizer)
      ensures State() == EMPTY && this.norm == norm && fresh(lifecycle)
    {
      rows, animals, display, events, nextAnimalId := [], map[], map[], [], 1;
      lifecycle := new MemoryLifecycle(map[]);
      this.norm := norm;
    }

    /** `findLast` over the raw rows. */
    method FindLatest(key: Key) returns (at: Option<nat>)
      ensures at == Latest(rows, key)
    {
      var i: nat := |rows|;
      assert rows[..i] == rows;
      while i > 0
        invariant i <= |rows|
        invariant Latest(rows, key) == Latest(rows[..i], key)
      {
        assert rows[..i][..i - 1] == rows[..i - 1];
        if rows[i - 1].key == key { return Some(i - 1); }
        i := i - 1;
      }
      return None;
    }

    method PersistRow(obs: Observation) returns (stored: Stored, inserted: bool)
      modifies this`rows
      ensures rows == Persist(old(rows), obs)
      ensures stored == StoredOf(rows[RowFor(old(rows), obs)])
      ensures inserted <==> !Repeats(old(rows), obs)
    {
      var at := FindLatest(obs.key);
      if at.Some? && rows[at.value].contentHash == obs.contentHash {
        rows := rows[at.value := rows[at.value].(lastSeen := obs.fetchedAt)];
        return StoredOf(rows[at.value]), false;
      }
      rows := rows + [RawRow(|rows| + 1, obs.key, obs.payload, obs.fetchedAt, obs.contentHash, obs.fetchedAt)];
      return StoredOf(rows[|rows| - 1]), true;
    }

    method WriteIdentity(key: Key, id: nat, n: Normalized, occurredAt: Option<int>)
      modifies lifecycle
      ensures lifecycle.identities == old(lifecycle.identities)[key := IdentityAfter(old(State()), key, id, n, occurredAt)]
    {
      if key !in lifecycle.identities {
        var latest := FindLatest(key);
        var sighting := if latest.Some? then rows[latest.value].lastSeen else if occurredAt.Some? then occurredAt.value else 0;
        lifecycle.identities := lifecycle.identities[key := Identity(id, sighting, None, if n.upkeep.Stamp? then n.upkeep.at else None)];
      } else if n.upkeep.Stamp? {
        lifecycle.identities := lifecycle.identities[key := lifecycle.identities[key].(sourceUpdatedAt := n.upkeep.at)];
      }
    }

    /** The writes of one applied candidate, once its merge is known. */
    method WriteCandidate(key: Key, id: nat, isNew: bool, rawId: nat, n: Normalized, merged: MergeOutcome)
      modifies this, lifecycle
      ensures State() == Written(old(State()), key, id, isNew, rawId, n, merged)
    {
      WriteIdentity(key, id, n, merged.occurredAt);
      animals := animals[id := merged.claims];
      if isNew { nextAnimalId := nextAnimalId + 1; }
      if n.display.Some? { display := display[(id, key.source) := n.display.value]; }
      events := events + EventsOf(isNew, id, key, rawId, merged);
    }

    /** The canonical writer; `applied` is false when it throws on a first observation it can't show. */
    method ApplyCandidate(key: Key, rawId: nat, n: Normalized) returns (applied: bool)
      modifies this, lifecycle
      ensures State() == Apply(old(State()), key, rawId, n)
      ensures applied <==> key in old(lifecycle.identities) || Viable(n.claims)
    {
      var isNew := key !in lifecycle.identities;
      if isNew && !Viable(n.claims) { return false; }
      var id := if isNew then nextAnimalId else lifecycle.identities[key].animalId;
      var held := if !isNew && id in animals then animals[id] else map[];
      var merged := MergeClaims(held, n.claims, rawId);
      WriteCandidate(key, id, isNew, rawId, n, merged);
      return true;
    }

    method DeriveOne(o: Stored)
      modifies this, lifecycle
      ensures State() == Derive(old(State()), norm, o)
    {
      var normalized := norm(o);
      if normalized.Some? {
        var applied := ApplyCandidate(o.key, o.rawId, normalized.value);
      }
    }

    method ReplayRows(stored: seq<Stored>)
      modifies this, lifecycle
      ensures State() == Replay(old(State()), norm, stored)
    {
      var n := 0;
      while n < |stored|
        invariant n <= |stored| && State() == Replay(old(State()), norm, stored[..n])
      {
        assert stored[..n + 1][..n] == stored[..n];
        DeriveOne(stored[n]);
        n := n + 1;
      }
      assert stored[..n] == stored;
    }

    method ObserveOne(obs: Observation)
      modifies this, lifecycle
      ensures State() == Observe(old(State()), norm, obs)
    {
      var stored, inserted := PersistRow(obs);
      DeriveOne(stored);
    }

    /** The loop of `runIngest`: observations are persisted and derived one after another. */
    method PollFeed(feed: seq<Observation>) returns (seen: set<string>)
      modifies this, lifecycle
      ensures State() == ObserveAll(old(State()), norm, feed)
      ensures seen == SeenIn(feed)
    {
      seen := {};
      var n := 0;
      while n < |feed|
        invariant n <= |feed| && State() == ObserveAll(old(State()), norm, feed[..n])
        invariant seen == SeenIn(feed[..n])
      {
        assert feed[..n + 1][..n] == feed[..n];
        seen := seen + {feed[n].key.externalId};
        ObserveOne(feed[n]);
        n := n + 1;
      }
      assert feed[..n] == feed;
    }

    /**
     One source's run: poll the feed, then move presence, unless the fetch was partial, saw nothing, or the
     gate refused. `broken` is an adapter that threw after the feed: then the run stops there.
     */
    method RunIngest(source: Source, feed: seq<Observation>, broken: bool, complete: bool, at: int, gate: Tally -> bool,
        collate: (string, string) -> bool)
      returns (skipped: Option<Skipped>, out: Option<Outcome>)
      requires Collates(collate)
      modifies this, lifecycle
      ensures out.None? <==> broken || !complete || feed == []
      ensures out.None? ==> State() == ObserveAll(old(State()), norm, feed)
      ensures out.Some? ==>
        var polled := ObserveAll(old(State()), norm, feed);
        && Reconciles(polled.identities, source, SeenIn(feed), at, gate, collate, out.value)
        && State() == polled.(identities := out.value.identities)
        && (skipped == Some(GateRefused) <==> out.value.refused)
    {
      var seen := PollFeed(feed);
      if broken { return None, None; }
      if !complete { return Some(DeclaredPartial), None; }
      SeenInNothing(feed);
      if seen == {} { return Some(ObservedNothing), None; }
      var outcome := lifecycle.Reconcile(source, seen, at, gate, collate);
      return if outcome.refused then Some(GateRefused) else None, Some(outcome);
    }
  }

  function SeenIn(feed: seq<Observation>): set<string> {
    if feed == [] then {} else SeenIn(feed[..|feed| - 1]) + {feed[|feed| - 1].key.externalId}
  }

  lemma SeenInNothing(feed: seq<Observation>)
    ensures SeenIn(feed) == {} <==> feed == []
  {
  }

  lemma PollKeepsPresence(c: Corpus, norm: Normalizer, obs: Observation, key: Key)
    requires key in c.identities
    ensures
      var d := Observe(c, norm, obs);
      && key in d.identities
      && d.identities[key].lastSeenAt == c.identities[key].lastSeenAt
      && d.identities[key].disappearedAt == c.identities[key].disappearedAt
  {
  }

  /** A run that does not reconcile, or whose gate refuses, is polls alone: presence is as it was. */
  lemma {:induction false} PollsKeepPresence(c: Corpus, norm: Normalizer, feed: seq<Observation>, key: Key)
    requires key in c.identities
    ensures
      var d := ObserveAll(c, norm, feed);
      && key in d.identities
      && d.identities[key].lastSeenAt == c.identities[key].lastSeenAt
      && d.identities[key].disappearedAt == c.identities[key].disappearedAt
    decreases |feed|
  {
    if feed != [] {
      var init := feed[..|feed| - 1];
      PollsKeepPresence(c, norm, init, key);
      PollKeepsPresence(ObserveAll(c, norm, init), norm, feed[|feed| - 1], key);
    }
  }
}
