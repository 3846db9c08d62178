/** What any run of reconciles leaves behind: each identity's history of disappearing and reappearing. */
module PresenceHistory {
  import opened Prelude
  import opened Sorting
  import opened Claims
  import opened RawStore
  import opened Lifecycle

  /** The identities, and every presence event told so far. */
  datatype World = World(identities: Identities, log: seq<Presence>)

  datatype Op =
    | NewIdentity(key: Key, animalId: nat, lastSeenAt: int, sourceUpdatedAt: Option<int>)
    | Upkeep(key: Key, sourceUpdatedAt: Option<int>)
    | Reconcile(source: Source, seen: set<string>, requested: int, gate: Tally -> bool)

  /** The other stages only add identities and stamp upkeep; presence is stage 5's alone. */
  ghost predicate Step(w: World, op: Op, v: World, collate: (string, string) -> bool) {
    match op
    case NewIdentity(key, animalId, lastSeenAt, upkeep) =>
      key !in w.identities && v == w.(identities := w.identities[key := Identity(animalId, lastSeenAt, None, upkeep)])
    case Upkeep(key, upkeep) =>
      key in w.identities && v == w.(identities := w.identities[key := w.identities[key].(sourceUpdatedAt := upkeep)])
    case Reconcile(source, seen, requested, gate) =>
      exists out :: Reconciles(w.identities, source, seen, requested, gate, collate, out) && v == World(out.identities, w.log + out.events)
  }

  ghost predicate Run(ws: seq<World>, ops: seq<Op>, collate: (string, string) -> bool) {
    && |ws| == |ops| + 1 && ws[0] == World(map[], [])
    && forall i :: 0 <= i < |ops| ==> Step(ws[i], ops[i], ws[i + 1], collate)
  }

  function About(key: Key): Presence -> bool { (e: Presence) => e.key == key }

  function History(w: World, key: Key): seq<Presence> { Filter(About(key), w.log) }

  ghost predicate Alternates(events: seq<Presence>) {
    forall i :: 0 <= i < |events| ==> (events[i].Disappeared? <==> i % 2 == 0)
  }

  function StateOf(ids: Identities, key: Key): Option<Identity> { if key in ids then Some(ids[key]) else None }

  /** A history alternates, starting with a disappearance, and its last event is the identity's state. */
  ghost predicate Tells(h: seq<Presence>, id: Option<Identity>) {
    && Alternates(h)
    && (id.None? ==> h == [])
    && (id.Some? ==>
          && (id.value.disappearedAt.Some? <==> |h| % 2 == 1)
          && (id.value.disappearedAt.Some? ==>
                && id.value.disappearedAt.value == h[|h| - 1].occurredAt
                && id.value.lastSeenAt == h[|h| - 1].lastSeenAt
                && id.value.lastSeenAt <= id.value.disappearedAt.value))
  }

  ghost predicate Told(w: World, key: Key) { Tells(History(w, key), StateOf(w.identities, key)) }

  /** Told, in words a reader can use: who is gone, since when, and since which sighting. */
  lemma ToldMeans(w: World, key: Key)
    requires Told(w, key) && key in w.identities
    ensures
      var h, id := History(w, key), w.identities[key];
      && (h == [] ==> id.disappearedAt.None?)
      && (h != [] ==> h[0].Disappeared? && (id.disappearedAt.Some? <==> h[|h| - 1].Disappeared?))
      && (id.disappearedAt.Some? ==> id.disappearedAt == Some(h[|h| - 1].occurredAt) && id.lastSeenAt <= id.disappearedAt.value)
      && (forall i :: 0 <= i < |h| - 1 ==> h[i].Disappeared? != h[i + 1].Disappeared?)
  {
  }

  lemma TellsNext(h: seq<Presence>, ids: Identities, source: Source, seen: set<string>, at: int, key: Key)
    requires key in ids && Tells(h, Some(ids[key])) && (key.source == source ==> ids[key].lastSeenAt <= at)
    ensures
      var e := EventOf(ids, source, seen, at, key);
      Tells(if e.Some? then h + [e.value] else h, Some(Reconciled(ids, source, seen, at)[key]))
  {
  }

  lemma {:induction false} FilterOne<T>(p: T -> bool, s: seq<T>, x: T)
    requires Distinct(s) && x in s && p(x) && forall y :: y in s && p(y) ==> y == x
    ensures Filter(p, s) == [x]
  {
    var init, last := s[..|s| - 1], s[|s| - 1];
    assert s == init + [last];
    FilterSnoc(p, init, last);
    if last == x {
      assert x !in init;
      FilterNone(p, init);
    } else {
      FilterOne(p, init, x);
    }
  }

  lemma {:induction false} FilterNone<T>(p: T -> bool, s: seq<T>)
    requires forall y :: y in s ==> !p(y)
    ensures Filter(p, s) == []
  {
    if s != [] {
      assert s == s[..|s| - 1] + [s[|s| - 1]];
      FilterSnoc(p, s[..|s| - 1], s[|s| - 1]);
      FilterNone(p, s[..|s| - 1]);
    }
  }

  /** A reconcile tells at most one event about one identity: the one its state calls for. */
  lemma OneEventEach(ids: Identities, source: Source, seen: set<string>, at: int, collate: (string, string) -> bool,
      events: seq<Presence>, key: Key)
    requires IsEventList(ids, source, seen, at, collate, events)
    ensures
      var mine := Filter(About(key), events);
      if key in ids && EventOf(ids, source, seen, at, key).Some? then mine == [EventOf(ids, source, seen, at, key).value] else mine == []
  {
    if key in ids && EventOf(ids, source, seen, at, key).Some? {
      FilterOne(About(key), events, EventOf(ids, source, seen, at, key).value);
    } else {
      FilterNone(About(key), events);
    }
  }

  lemma RefusalKeepsTold(w: World, key: Key)
    requires Told(w, key)
    ensures Told(World(w.identities, w.log + []), key)
  {
    assert w.log + [] == w.log;
  }

  lemma EventsKeepTold(w: World, source: Source, seen: set<string>, at: int, collate: (string, string) -> bool,
      events: seq<Presence>, key: Key)
    requires IsEventList(w.identities, source, seen, at, collate, events) && Told(w, key)
    requires key in w.identities && key.source == source ==> w.identities[key].lastSeenAt <= at
    ensures Told(World(Reconciled(w.identities, source, seen, at), w.log + events), key)
  {
    FilterConcat(About(key), w.log, events);
    OneEventEach(w.identities, source, seen, at, collate, events, key);
    if key in w.identities { TellsNext(History(w, key), w.identities, source, seen, at, key); }
  }

  lemma ReconcileKeepsTold(w: World, source: Source, seen: set<string>, requested: int, gate: Tally -> bool,
      collate: (string, string) -> bool, out: Outcome, key: Key)
    requires Reconciles(w.identities, source, seen, requested, gate, collate, out) && Told(w, key)
    ensures Told(World(out.identities, w.log + out.events), key)
  {
    var at := requested + out.clockSteppedBackMs;
    if out.refused {
      RefusalKeepsTold(w, key);
    } else {
      assert key in w.identities && key.source == source ==> key in Own(w.identities, source);
      EventsKeepTold(w, source, seen, at, collate, out.events, key);
    }
  }

  lemma StepKeepsTold(w: World, op: Op, v: World, collate: (string, string) -> bool, key: Key)
    requires Step(w, op, v, collate) && Told(w, key)
    ensures Told(v, key)
  {
    match op
    case NewIdentity(k, _, _, _) => assert History(v, key) == History(w, key);
    case Upkeep(k, _) => assert History(v, key) == History(w, key);
    case Reconcile(source, seen, requested, gate) =>
      var out :| Reconciles(w.identities, source, seen, requested, gate, collate, out) && v == World(out.identities, w.log + out.events);
      ReconcileKeepsTold(w, source, seen, requested, gate, collate, out, key);
  }

  /** On every run, at every point of it, for every identity. */
  lemma {:induction false} HistoriesAlternate(ws: seq<World>, ops: seq<Op>, collate: (string, string) -> bool, n: nat,
      key: Key)
    requires Run(ws, ops, collate) && n < |ws|
    ensures Told(ws[n], key)
    decreases n
  {
    if n > 0 {
      HistoriesAlternate(ws, ops, collate, n - 1, key);
      StepKeepsTold(ws[n - 1], ops[n - 1], ws[n], collate, key);
    }
  }

  /** A sighting is never taken back, even by a run whose clock stepped back. */
  lemma {:induction false} SightingsOnlyMoveOn(ws: seq<World>, ops: seq<Op>, collate: (string, string) -> bool, n: nat,
      m: nat, key: Key)
    requires Run(ws, ops, collate) && n <= m < |ws| && key in ws[n].identities
    ensures key in ws[m].identities && ws[n].identities[key].lastSeenAt <= ws[m].identities[key].lastSeenAt
    ensures ws[n].log <= ws[m].log
    decreases m
  {
    if n < m {
      SightingsOnlyMoveOn(ws, ops, collate, n, m - 1, key);
      assert Step(ws[m - 1], ops[m - 1], ws[m], collate);
      assert key in Own(ws[m - 1].identities, key.source);
    }
  }

  lemma RefusedOutcome(ids: Identities, source: Source, seen: set<string>, requested: int, gate: Tally -> bool,
      collate: (string, string) -> bool, out: Outcome)
    requires Reconciles(ids, source, seen, requested, gate, collate, out) && Refused(ids, source, seen, requested, gate)
    ensures out.identities == ids && out.events == []
  {
    assert IsTally(ids, source, seen, out.tally.at, out.tally);
  }

  /** A refused reconcile, like none at all, changes no presence and tells nothing. */
  lemma RefusalChangesNothing(w: World, source: Source, seen: set<string>, requested: int, gate: Tally -> bool,
      collate: (string, string) -> bool, v: World)
    requires Step(w, Reconcile(source, seen, requested, gate), v, collate)
    requires Refused(w.identities, source, seen, requested, gate)
    ensures v == w
  {
    var out :| Reconciles(w.identities, source, seen, requested, gate, collate, out) && v == World(out.identities, w.log + out.events);
    RefusedOutcome(w.identities, source, seen, requested, gate, collate, out);
    assert w.log + [] == w.log;
  }
}
