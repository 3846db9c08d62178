/**
 Stage 5, presence: a complete run says which of a source's animals are gone and which are back.
 What it must do is said once, as `Reconciles`; the in-memory reference loops over identities one by
 one, the Postgres store updates them in sets, and both are proved to do it, so they agree on everything.
 */
module Lifecycle {
  import opened Prelude
  import opened Sorting
  import opened Claims
  import opened RawStore

  datatype Identity = Identity(animalId: nat, lastSeenAt: int, disappearedAt: Option<int>, sourceUpdatedAt: Option<int>)
  type Identities = map<Key, Identity>

  datatype Presence =
    | Reappeared(animalId: nat, key: Key, disappearedAt: int, occurredAt: int)
    | Disappeared(animalId: nat, key: Key, lastSeenAt: int, occurredAt: int)

  function Own(ids: Identities, source: Source): set<Key> { set k | k in ids && k.source == source }

  function Present(ids: Identities, source: Source): set<Key> {
    set k | k in ids && k.source == source && ids[k].disappearedAt.None?
  }

  function Disappearing(ids: Identities, source: Source, seen: set<string>): set<Key> {
    set k | k in ids && k.source == source && ids[k].disappearedAt.None? && k.externalId !in seen
  }

  // ---------- what a reconcile must do ----------

  /** `resolveReconcileAt`: the run's clock, never before the newest sighting. */
  ghost predicate ResolvedAt(ids: Identities, source: Source, requested: int, at: int) {
    && requested <= at
    && (forall k :: k in Own(ids, source) ==> ids[k].lastSeenAt <= at)
    && (at == requested || exists k :: k in Own(ids, source) && ids[k].lastSeenAt == at)
  }

  function UpTo(ids: Identities, keys: set<Key>, at: int): set<Key> {
    set k | k in keys && k in ids && ids[k].lastSeenAt <= at
  }

  /** `percentile_disc(0.5)`: the first value whose share of the rows up to it reaches a half. */
  ghost predicate Median(ids: Identities, keys: set<Key>, m: Option<int>)
    requires keys <= ids.Keys
  {
    if keys == {} then m.None?
    else
      && m.Some? && (exists k :: k in keys && ids[k].lastSeenAt == m.value)
      && 2 * |UpTo(ids, keys, m.value)| >= |keys|
      && (forall k :: k in keys && ids[k].lastSeenAt < m.value ==> 2 * |UpTo(ids, keys, ids[k].lastSeenAt)| < |keys|)
  }

  datatype Tally = Tally(present: nat, disappearing: nat, disappearingMedianLastSeen: Option<int>, at: int)

  ghost predicate IsTally(ids: Identities, source: Source, seen: set<string>, at: int, t: Tally) {
    && t.present == |Present(ids, source)|
    && t.disappearing == |Disappearing(ids, source, seen)|
    && Median(ids, Disappearing(ids, source, seen), t.disappearingMedianLastSeen)
    && t.at == at
  }

  function Reconciled(ids: Identities, source: Source, seen: set<string>, at: int): Identities {
    map k | k in ids ::
      if k.source != source then ids[k]
      else if k.externalId in seen then ids[k].(disappearedAt := None, lastSeenAt := at)
      else if ids[k].disappearedAt.None? then ids[k].(disappearedAt := Some(at))
      else ids[k]
  }

  /** The event one identity gives, if any. */
  function EventOf(ids: Identities, source: Source, seen: set<string>, at: int, k: Key): Option<Presence>
    requires k in ids
  {
    if k.source != source then None
    else if k.externalId in seen && ids[k].disappearedAt.Some? then Some(Reappeared(ids[k].animalId, k, ids[k].disappearedAt.value, at))
    else if k.externalId !in seen && ids[k].disappearedAt.None? then Some(Disappeared(ids[k].animalId, k, ids[k].lastSeenAt, at))
    else None
  }

  /** A collation ranks strings, and may tie two that differ, as `localeCompare` ties canonically equivalent ones. */
  ghost predicate Collates(collate: (string, string) -> bool) {
    && (forall a, b :: collate(a, b) || collate(b, a))
    && (forall a, b, c :: collate(a, b) && collate(b, c) ==> collate(a, c))
  }

  predicate Tie(collate: (string, string) -> bool, a: string, b: string) { collate(a, b) && collate(b, a) }

  /** `inLifecycleOrder`: reappearances first, then disappearances, each by external id. */
  predicate NotAfter(collate: (string, string) -> bool, a: Presence, b: Presence) {
    if a.Reappeared? != b.Reappeared? then a.Reappeared? else collate(a.key.externalId, b.key.externalId)
  }

  function LifecycleOrder(collate: (string, string) -> bool): (Presence, Presence) -> bool {
    (a, b) => NotAfter(collate, a, b)
  }

  ghost predicate IsEventList(ids: Identities, source: Source, seen: set<string>, at: int,
      collate: (string, string) -> bool, events: seq<Presence>) {
    && Distinct(events) && Sorted(LifecycleOrder(collate), events)
    && (forall e :: e in events <==> e.key in ids && EventOf(ids, source, seen, at, e.key) == Some(e))
  }

  datatype Outcome = Outcome(identities: Identities, events: seq<Presence>, clockSteppedBackMs: int, tally: Tally, refused: bool)

  /** Everything a reconcile promises: its clock, what it showed the gate, what it wrote and what it told. */
  ghost predicate Reconciles(ids: Identities, source: Source, seen: set<string>, requested: int, gate: Tally -> bool,
      collate: (string, string) -> bool, out: Outcome) {
    var at := requested + out.clockSteppedBackMs;
    && ResolvedAt(ids, source, requested, at)
    && IsTally(ids, source, seen, at, out.tally)
    && out.refused == gate(out.tally)
    && (if out.refused then out.identities == ids && out.events == []
        else out.identities == Reconciled(ids, source, seen, at) && IsEventList(ids, source, seen, at, collate, out.events))
  }

  /** The gate turns the run away, whatever its tally turns out to be. */
  ghost predicate Refused(ids: Identities, source: Source, seen: set<string>, requested: int, gate: Tally -> bool) {
    forall t: Tally :: IsTally(ids, source, seen, t.at, t) && ResolvedAt(ids, source, requested, t.at) ==> gate(t)
  }

  // ---------- what it leaves open ----------

  lemma MedianUnique(ids: Identities, keys: set<Key>, m: Option<int>, n: Option<int>)
    requires keys <= ids.Keys && Median(ids, keys, m) && Median(ids, keys, n)
    ensures m == n
  {
    if keys != {} {
      var j :| j in keys && ids[j].lastSeenAt == m.value;
      var k :| k in keys && ids[k].lastSeenAt == n.value;
    }
  }

  /**
   The two stores always agree on the clock, the tally, the refusal, the identities, and which events are told; only the order of
   events that tie is left to them.
   */
  lemma ReconcilesAgree(ids: Identities, source: Source, seen: set<string>, requested: int, gate: Tally -> bool,
      collate: (string, string) -> bool, a: Outcome, b: Outcome)
    requires Reconciles(ids, source, seen, requested, gate, collate, a) && Reconciles(ids, source, seen, requested, gate, collate, b)
    ensures a.(events := b.events) == b && multiset(a.events) == multiset(b.events)
  {
    assert a.clockSteppedBackMs == b.clockSteppedBackMs;
    MedianUnique(ids, Disappearing(ids, source, seen), a.tally.disappearingMedianLastSeen, b.tally.disappearingMedianLastSeen);
    if !a.refused { SameElementsSameBag(a.events, b.events); }
  }
}
