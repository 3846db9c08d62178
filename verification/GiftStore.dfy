/** The webhook's tables and its sweep (webhook.ts, webhook-replay.ts): spooled files become rows, then undecided rows are decided. */
module GiftStore {
  import opened Prelude
  import opened GiftBodies
  import opened Gifts

  /** How old an undecided row must be before the sweep takes it for one its request gave up on. */
  const UNDECIDED_SETTLE_MS := 30 * 1000
  const UNDECIDED_BATCH: nat := 100
  const SPOOL_STALE_MS := 10 * 60 * 1000

  /** How one query fared: it committed; it failed and rolled back; its clock ran out, the work landing or not. */
  datatype Fate = Commits | Fails | Expires(lands: bool)

  datatype SpoolEntry = SpoolEntry(file: string, ageMs: int, row: Option<Payload>)

  // ---------- what the sweep should do ----------

  predicate IsWaiting(payloads: map<nat, Payload>, decisions: map<nat, Outcome>, asOf: int, id: nat) {
    id in payloads && id !in decisions && payloads[id].receivedAt < asOf - UNDECIDED_SETTLE_MS
  }

  /** The undecided rows below id `n` that are old enough, in id order. */
  function Waiting(payloads: map<nat, Payload>, decisions: map<nat, Outcome>, asOf: int, n: nat): (r: seq<nat>)
    ensures forall i :: 0 <= i < |r| ==> r[i] < n && IsWaiting(payloads, decisions, asOf, r[i])
    ensures forall id :: 0 <= id < n && IsWaiting(payloads, decisions, asOf, id) ==> id in r
    ensures forall i, j :: 0 <= i < j < |r| ==> r[i] < r[j]
  {
    if n == 0 then [] else
      var rest := Waiting(payloads, decisions, asOf, n - 1);
      if IsWaiting(payloads, decisions, asOf, n - 1) then rest + [n - 1] else rest
  }

  function DecideRow(db: Db, judge: Delivery -> Verdict, id: nat): Db {
    if id in db.payloads then Decide(db, id, judge(db.payloads[id].delivery)) else db
  }

  /** What one try leaves: a rolled back or expired decision may have changed nothing. */
  function Tried(db: Db, judge: Delivery -> Verdict, id: nat, fate: Fate): Db {
    if fate.Commits? || (fate.Expires? && fate.lands) then DecideRow(db, judge, id) else db
  }

  /** How many of the first `n` rows the sweep gets to: a failed decision is passed over, an expired clock stops it. */
  function Reached(fates: nat -> Fate, n: nat): (r: nat)
    ensures r <= n
    ensures r == n <==> forall i :: 0 <= i < n - 1 ==> !fates(i).Expires?
  {
    if n == 0 then 0
    else if Reached(fates, n - 1) == n - 1 && (n == 1 || !fates(n - 2).Expires?) then n
    else Reached(fates, n - 1)
  }

  /** The tables after trying the first `n` of these rows. */
  function DecideEach(db: Db, judge: Delivery -> Verdict, rows: seq<nat>, fates: nat -> Fate, n: nat): Db
    requires n <= |rows|
  {
    if n == 0 then db else Tried(DecideEach(db, judge, rows, fates, n - 1), judge, rows[n - 1], fates(n - 1))
  }

  /** No insert has failed yet when the sweep comes to entry `i`. */
  predicate UpBefore(entries: seq<SpoolEntry>, fates: nat -> Fate, i: nat)
    requires i <= |entries|
  {
    i == 0 || (UpBefore(entries, fates, i - 1) && (entries[i - 1].row.Some? ==> fates(i - 1).Commits?))
  }

  /** The rows the first `n` entries become. */
  function StoredRows(entries: seq<SpoolEntry>, fates: nat -> Fate, n: nat): seq<Payload>
    requires n <= |entries|
  {
    if n == 0 then [] else
      StoredRows(entries, fates, n - 1) + if Lands(entries, fates, n - 1) then [entries[n - 1].row.value] else []
  }

  predicate Lands(entries: seq<SpoolEntry>, fates: nat -> Fate, i: nat)
    requires i < |entries|
  {
    UpBefore(entries, fates, i) && entries[i].row.Some? && (fates(i).Commits? || (fates(i).Expires? && fates(i).lands))
  }

  /** The files deleted among the first `n` entries. */
  function Replayed(entries: seq<SpoolEntry>, fates: nat -> Fate, n: nat): set<string>
    requires n <= |entries|
  {
    if n == 0 then {} else
      Replayed(entries, fates, n - 1)
      + if UpBefore(entries, fates, n) && entries[n - 1].row.Some? then {entries[n - 1].file} else {}
  }

  /** Files still waiting past their time, unreadable ones included. */
  function Stale(entries: seq<SpoolEntry>, fates: nat -> Fate, n: nat): nat
    requires n <= |entries|
  {
    if n == 0 then 0 else
      Stale(entries, fates, n - 1)
      + if !(UpBefore(entries, fates, n) && entries[n - 1].row.Some?) && entries[n - 1].ageMs > SPOOL_STALE_MS then 1 else 0
  }

  function AppendRows(payloads: map<nat, Payload>, next: nat, rows: seq<Payload>): map<nat, Payload> {
    if rows == [] then payloads else AppendRows(payloads, next, rows[..|rows| - 1])[next + |rows| - 1 := rows[|rows| - 1]]
  }

  lemma AppendSnoc(payloads: map<nat, Payload>, next: nat, rows: seq<Payload>, row: Payload)
    ensures AppendRows(payloads, next, rows + [row]) == AppendRows(payloads, next, rows)[next + |rows| := row]
  {
    assert (rows + [row])[..|rows|] == rows;
  }

  lemma RowsGrow(payloads: map<nat, Payload>, next: nat, entries: seq<SpoolEntry>, fates: nat -> Fate, i: nat)
    requires i < |entries|
    ensures
      var rows, grown := StoredRows(entries, fates, i), StoredRows(entries, fates, i + 1);
      if Lands(entries, fates, i) then
        |grown| == |rows| + 1 && AppendRows(payloads, next, grown) == AppendRows(payloads, next, rows)[next + |rows| := entries[i].row.value]
      else grown == rows
  {
    var rows := StoredRows(entries, fates, i);
    assert rows + [] == rows;
    if Lands(entries, fates, i) { AppendSnoc(payloads, next, rows, entries[i].row.value); }
  }

  ghost predicate AllBelow(payloads: map<nat, Payload>, next: nat) { forall id :: id in payloads ==> id < next }

  /** How many of the first `n` entries were replayed. */
  function ReplayedCount(entries: seq<SpoolEntry>, fates: nat -> Fate, n: nat): nat
    requires n <= |entries|
  {
    if n == 0 then 0 else
      ReplayedCount(entries, fates, n - 1) + if UpBefore(entries, fates, n) && entries[n - 1].row.Some? then 1 else 0
  }

  lemma FilesGrow(files: map<string, Option<Payload>>, entries: seq<SpoolEntry>, fates: nat -> Fate, i: nat)
    requires i < |entries|
    ensures
      files - Replayed(entries, fates, i + 1) ==
      if UpBefore(entries, fates, i + 1) && entries[i].row.Some? then (files - Replayed(entries, fates, i)) - {entries[i].file}
      else files - Replayed(entries, fates, i)
  {
  }

  class Tables {
    var intents: map<string, Intent>
    var payloads: map<nat, Payload>
    var nextId: nat
    var decisions: map<nat, Outcome>
    var donations: seq<Donation>
    var stats: seq<Stat>
    /** the spool directory's finished files */
    var files: map<string, Option<Payload>>

    /** Serial ids run ahead of every row. */
    ghost predicate Valid()
      reads this
    {
      AllBelow(payloads, nextId)
    }

    ghost function Now(): Db
      reads this
    {
      Db(intents, payloads, decisions, donations, stats)
    }

    constructor ()
      ensures Valid() && Now() == EMPTY && files == map[]
    {
      intents, payloads, nextId, decisions, donations, stats, files := map[], map[], 0, map[], [], [], map[];
    }

    method StoreDelivery(row: Payload) returns (id: nat)
      requires Valid()
      modifies this`payloads, this`nextId
      ensures Valid() && id == old(nextId) && nextId == id + 1 && id !in old(payloads)
      ensures payloads == old(payloads)[id := row]
    {
      id := nextId;
      payloads, nextId := payloads[id := row], id + 1;
    }

    method ChargeOwner(chargeId: string) returns (owner: Option<string>)
      ensures owner == ChargedTo(donations, chargeId)
    {
      owner := None;
      for i := 0 to |donations|
        invariant ChargedTo(donations, chargeId) == ChargedTo(donations[i..], chargeId)
      {
        if donations[i].fields.chargeId == chargeId { return Some(donations[i].intentId); }
      }
    }

    method DecideLocked(payloadId: nat, intentId: string, f: Fields) returns (outcome: Outcome)
      modifies this`intents, this`donations, this`stats
      ensures outcome == Found(old(Now()), intentId, f)
      ensures Now() == if outcome == Recorded then Give(old(Now()), payloadId, intentId, f) else old(Now())
    {
      if intentId !in intents { return NoIntent; }
      var intent := intents[intentId];
      if intent.slug != f.slug || EinDigits(intent.ein) != EinDigits(f.ein) { return NonprofitMismatch; }
      var owner := ChargeOwner(f.chargeId);
      if intent.closed { return if owner == Some(intentId) then Repeated else ClosedIntent; }
      if owner.Some? { return ChargeOnOtherIntent; }
      donations := donations + [Donation(intentId, payloadId, f)];
      stats := stats + [Stat(intent.source, intent.externalId, f.slug, f.cents, f.currency, f.frequency, f.donatedAt / DAY_MS)];
      intents := intents[intentId := intent.(closed := true)];
      return Recorded;
    }

    method DecideStored(id: nat, verdict: Verdict) returns (outcome: Outcome)
      modifies this`intents, this`donations, this`stats, this`decisions
      ensures outcome == OutcomeOf(old(Now()), verdict)
      ensures Now() == Decide(old(Now()), id, verdict)
    {
      match verdict {
        case Unparsable => outcome := Unreadable;
        case NoPartnerId => outcome := NoPartner;
        case OtherEvent => outcome := NotCompleted;
        case BadFields => outcome := BadShapes;
        case Gift(intentId, f) => outcome := DecideLocked(id, intentId, f);
      }
      if id !in decisions { decisions := decisions[id := outcome]; }
    }

    method TryStoring(row: Payload, fate: Fate)
      requires Valid()
      modifies this`payloads, this`nextId
      ensures Valid()
      ensures
        var lands := fate.Commits? || (fate.Expires? && fate.lands);
        nextId == old(nextId) + (if lands then 1 else 0) && payloads == if lands then old(payloads)[old(nextId) := row] else old(payloads)
    {
      if fate.Commits? || (fate.Expires? && fate.lands) {
        var id := StoreDelivery(row);
      }
    }

    method TryDeciding(id: nat, judge: Delivery -> Verdict, fate: Fate)
      modifies this`intents, this`donations, this`stats, this`decisions
      ensures Now() == Tried(old(Now()), judge, id, fate)
    {
      if (fate.Commits? || (fate.Expires? && fate.lands)) && id in payloads {
        var outcome := DecideStored(id, judge(payloads[id].delivery));
      }
    }

    /** One file's row stored, and only then the file deleted. */
    method ReplayEntry(entry: SpoolEntry, fate: Fate) returns (stored: bool)
      requires Valid() && entry.row.Some?
      modifies this`payloads, this`nextId, this`files
      ensures Valid() && stored == fate.Commits?
      ensures
        var lands := fate.Commits? || (fate.Expires? && fate.lands);
        && nextId == old(nextId) + (if lands then 1 else 0)
        && payloads == if lands then old(payloads)[old(nextId) := entry.row.value] else old(payloads)
      ensures files == if stored then old(files) - {entry.file} else old(files)
    {
      TryStoring(entry.row.value, fate);
      stored := fate.Commits?;
      if stored { files := files - {entry.file}; }
    }

    /**
     The first half of a sweep: each spooled delivery is stored and only then is its file deleted. The first query that fails
     ends the storing; a failed delete reads as an insert that expired and landed.
     */
    method ReplayFiles(entries: seq<SpoolEntry>, fates: nat -> Fate) returns (replayed: nat, stale: nat, databaseUp: bool)
      requires Valid()
      modifies this`payloads, this`nextId, this`files
      ensures Valid()
      ensures databaseUp == UpBefore(entries, fates, |entries|)
      ensures payloads == AppendRows(old(payloads), old(nextId), StoredRows(entries, fates, |entries|))
      ensures files == old(files) - Replayed(entries, fates, |entries|)
      ensures stale == Stale(entries, fates, |entries|) && replayed == ReplayedCount(entries, fates, |entries|)
    {
      replayed, stale, databaseUp := 0, 0, true;
      ghost var n := nextId;
      for i := 0 to |entries|
        invariant Valid() && databaseUp == UpBefore(entries, fates, i)
        invariant nextId == n + |StoredRows(entries, fates, i)|
        invariant payloads == AppendRows(old(payloads), n, StoredRows(entries, fates, i))
        invariant files == old(files) - Replayed(entries, fates, i)
        invariant stale == Stale(entries, fates, i) && replayed == ReplayedCount(entries, fates, i)
      {
        var entry := entries[i];
        RowsGrow(old(payloads), n, entries, fates, i);
        FilesGrow(old(files), entries, fates, i);
        if databaseUp && entry.row.Some? {
          databaseUp := ReplayEntry(entry, fates(i));
          if databaseUp {
            replayed := replayed + 1;
            continue;
          }
        }
        if entry.ageMs > SPOOL_STALE_MS { stale := stale + 1; }
      }
    }

    method DecideBatch(batch: seq<nat>, judge: Delivery -> Verdict, fates: nat -> Fate) returns (failed: bool)
      modifies this`intents, this`donations, this`stats, this`decisions
      ensures Now() == DecideEach(old(Now()), judge, batch, fates, Reached(fates, |batch|))
      ensures failed <==> exists i :: 0 <= i < |batch| && !fates(i).Commits?
    {
      failed := false;
      ghost var was := Now();
      for i := 0 to |batch|
        invariant Reached(fates, i) == i && (i > 0 ==> !fates(i - 1).Expires?)
        invariant Now() == DecideEach(was, judge, batch, fates, i)
        invariant failed <==> exists k :: 0 <= k < i && !fates(k).Commits?
      {
        TryDeciding(batch[i], judge, fates(i));
        if !fates(i).Commits? { failed := true; }
        if fates(i).Expires? {
          StopsAt(fates, i + 1, |batch|);
          return;
        }
      }
    }

    /** The second half of a sweep: the oldest undecided rows, a batch of them, if the query that lists them answers in time. */
    method DecideWaiting(asOf: int, judge: Delivery -> Verdict, listing: Fate, fates: nat -> Fate) returns (failed: bool)
      modifies this`intents, this`donations, this`stats, this`decisions
      ensures
        var batch := Take(Waiting(payloads, old(decisions), asOf, nextId), UNDECIDED_BATCH);
        if !listing.Commits? then Now() == old(Now()) && failed
        else
          && Now() == DecideEach(old(Now()), judge, batch, fates, Reached(fates, |batch|))
          && (failed <==> exists i :: 0 <= i < |batch| && !fates(i).Commits?)
    {
      if !listing.Commits? { return true; }
      var batch := Take(Waiting(payloads, decisions, asOf, nextId), UNDECIDED_BATCH);
      failed := DecideBatch(batch, judge, fates);
    }

    /** `sweepWebhookSpool`: nothing is decided by a sweep that met a failing insert. */
    method Sweep(entries: seq<SpoolEntry>, asOf: int, judge: Delivery -> Verdict, storing: nat -> Fate, listing: Fate,
        deciding: nat -> Fate)
      returns (replayed: nat, stale: nat, failed: bool)
      requires Valid()
      modifies this
      ensures Valid() && files == old(files) - Replayed(entries, storing, |entries|)
      ensures payloads == AppendRows(old(payloads), old(nextId), StoredRows(entries, storing, |entries|))
      ensures
        var stored := old(Now()).(payloads := payloads);
        var batch := Take(Waiting(payloads, old(decisions), asOf, nextId), UNDECIDED_BATCH);
        if UpBefore(entries, storing, |entries|) && listing.Commits? then
          Now() == DecideEach(stored, judge, batch, deciding, Reached(deciding, |batch|)) &&
          (failed <==> exists i :: 0 <= i < |batch| && !deciding(i).Commits?)
        else Now() == stored && failed
      ensures stale == Stale(entries, storing, |entries|) && replayed == ReplayedCount(entries, storing, |entries|)
    {
      var databaseUp;
      replayed, stale, databaseUp := ReplayFiles(entries, storing);
      failed := !databaseUp;
      if databaseUp {
        failed := DecideWaiting(asOf, judge, listing, deciding);
      }
    }
  }

  lemma {:induction false} StopsAt(fates: nat -> Fate, i: nat, n: nat)
    requires 0 < i <= n && Reached(fates, i) == i && fates(i - 1).Expires?
    ensures Reached(fates, n) == i
  {
    if i < n { StopsAt(fates, i, n - 1); }
  }

  // ---------- what a sweep promises ----------

  ghost predicate HasRow(payloads: map<nat, Payload>, row: Payload) { exists id :: id in payloads && payloads[id] == row }

  lemma {:induction false} AppendedIds(payloads: map<nat, Payload>, next: nat, rows: seq<Payload>)
    requires AllBelow(payloads, next)
    ensures AllBelow(AppendRows(payloads, next, rows), next + |rows|)
  {
    if rows != [] { AppendedIds(payloads, next, rows[..|rows| - 1]); }
  }

  lemma {:induction false} AppendedRows(payloads: map<nat, Payload>, next: nat, rows: seq<Payload>)
    requires AllBelow(payloads, next)
    ensures forall row :: row in rows ==> HasRow(AppendRows(payloads, next, rows), row)
  {
    if rows != [] {
      var init, last, all := rows[..|rows| - 1], rows[|rows| - 1], AppendRows(payloads, next, rows);
      var before := AppendRows(payloads, next, init);
      AppendedIds(payloads, next, init);
      AppendedRows(payloads, next, init);
      assert rows == init + [last];
      forall row | row in rows ensures HasRow(all, row) {
        if row in init {
          var id :| id in before && before[id] == row;
          assert id in all && all[id] == row;
        } else {
          assert all[next + |init|] == row;
        }
      }
    }
  }

  lemma {:induction false} ReplayedWereStored(entries: seq<SpoolEntry>, fates: nat -> Fate, n: nat, file: string)
    requires n <= |entries| && file in Replayed(entries, fates, n)
    ensures exists i :: 0 <= i < n && entries[i].file == file && entries[i].row.Some? && entries[i].row.value in StoredRows(entries, fates, n)
  {
    if !(UpBefore(entries, fates, n) && entries[n - 1].row.Some? && entries[n - 1].file == file) {
      ReplayedWereStored(entries, fates, n - 1, file);
      var i :| 0 <= i < n - 1 && entries[i].file == file && entries[i].row.Some? && entries[i].row.value in StoredRows(entries, fates, n - 1);
      assert entries[i].row.value in StoredRows(entries, fates, n);
    } else {
      assert entries[n - 1].row.value in StoredRows(entries, fates, n);
    }
  }

  /** Whatever fails, a file the sweep deletes has its row: a spooled delivery is never in neither place. */
  lemma DeletedFilesHaveRows(payloads: map<nat, Payload>, next: nat, entries: seq<SpoolEntry>, fates: nat -> Fate, i: nat)
    requires AllBelow(payloads, next) && i < |entries|
    requires forall j, k :: 0 <= j < k < |entries| ==> entries[j].file != entries[k].file
    requires entries[i].file in Replayed(entries, fates, |entries|)
    ensures entries[i].row.Some? && HasRow(AppendRows(payloads, next, StoredRows(entries, fates, |entries|)), entries[i].row.value)
  {
    var rows := StoredRows(entries, fates, |entries|);
    ReplayedWereStored(entries, fates, |entries|, entries[i].file);
    var j :| 0 <= j < |entries| && entries[j].file == entries[i].file && entries[j].row.Some? && entries[j].row.value in rows;
    assert j == i;
    AppendedRows(payloads, next, rows);
  }

  lemma TriedConserves(db: Db, judge: Delivery -> Verdict, id: nat, fate: Fate)
    requires Conserved(db, judge) && ReadsOwnIntent(judge)
    ensures Conserved(Tried(db, judge, id, fate), judge)
  {
    if id in db.payloads { StepConserves(db, judge, Settle(id, db.payloads[id].delivery)); }
  }

  /** However its queries fare, a sweep conserves gifts. */
  lemma {:induction false} SweepConserves(db: Db, judge: Delivery -> Verdict, rows: seq<nat>, fates: nat -> Fate, n: nat)
    requires Conserved(db, judge) && ReadsOwnIntent(judge) && n <= |rows|
    ensures Conserved(DecideEach(db, judge, rows, fates, n), judge)
  {
    if n > 0 {
      SweepConserves(db, judge, rows, fates, n - 1);
      TriedConserves(DecideEach(db, judge, rows, fates, n - 1), judge, rows[n - 1], fates(n - 1));
    }
  }

  lemma TriedDecides(db: Db, judge: Delivery -> Verdict, id: nat, fate: Fate)
    requires fate.Commits? && id in db.payloads
    ensures
      var after := Tried(db, judge, id, fate);
      after.payloads == db.payloads && forall p :: p in after.decisions <==> p in db.decisions || p == id
  {
  }

  lemma TakenSnoc(rows: seq<nat>, n: nat)
    requires 0 < n <= |rows|
    ensures forall p :: p in rows[..n] <==> p in rows[..n - 1] || p == rows[n - 1]
  {
    assert rows[..n] == rows[..n - 1] + [rows[n - 1]];
  }

  lemma {:induction false} EachIsDecided(db: Db, judge: Delivery -> Verdict, rows: seq<nat>, fates: nat -> Fate, n: nat)
    requires n <= |rows| && forall i :: 0 <= i < n ==> fates(i).Commits? && rows[i] in db.payloads
    ensures
      var after := DecideEach(db, judge, rows, fates, n);
      after.payloads == db.payloads && forall p :: p in after.decisions <==> p in db.decisions || p in rows[..n]
    decreases n
  {
    if n > 0 {
      EachIsDecided(db, judge, rows, fates, n - 1);
      TriedDecides(DecideEach(db, judge, rows, fates, n - 1), judge, rows[n - 1], fates(n - 1));
      TakenSnoc(rows, n);
    }
  }

  lemma WaitingSnoc(payloads: map<nat, Payload>, decisions: map<nat, Outcome>, asOf: int, n: nat)
    requires n > 0
    ensures Waiting(payloads, decisions, asOf, n) ==
      Waiting(payloads, decisions, asOf, n - 1) + if IsWaiting(payloads, decisions, asOf, n - 1) then [n - 1] else []
  {
  }

  lemma StillWaiting(payloads: map<nat, Payload>, before: map<nat, Outcome>, after: map<nat, Outcome>, gone: seq<nat>, asOf: int, id: nat)
    requires id in after <==> id in before || id in gone
    ensures IsWaiting(payloads, after, asOf, id) <==> IsWaiting(payloads, before, asOf, id) && NotIn(gone)(id)
  {
  }

  lemma {:induction false} WaitingIsFiltered(
    payloads: map<nat, Payload>, before: map<nat, Outcome>, after: map<nat, Outcome>, gone: seq<nat>, asOf: int, n: nat)
    requires forall id :: id in after <==> id in before || id in gone
    ensures Waiting(payloads, after, asOf, n) == Filter(NotIn(gone), Waiting(payloads, before, asOf, n))
    decreases n
  {
    if n > 0 {
      WaitingIsFiltered(payloads, before, after, gone, asOf, n - 1);
      WaitingSnoc(payloads, before, asOf, n);
      WaitingSnoc(payloads, after, asOf, n);
      StillWaiting(payloads, before, after, gone, asOf, n - 1);
      if IsWaiting(payloads, before, asOf, n - 1) {
        FilterSnoc(NotIn(gone), Waiting(payloads, before, asOf, n - 1), n - 1);
      }
    }
  }

  function NotIn(gone: seq<nat>): int -> bool { (id: int) => id !in gone }

  lemma {:induction false} FilterRest(ids: seq<nat>, k: nat)
    requires k <= |ids| && forall i, j :: 0 <= i < j < |ids| ==> ids[i] < ids[j]
    ensures Filter(NotIn(ids[..k]), ids) == ids[k..]
  {
    assert ids == ids[..k] + ids[k..];
    FilterConcat(NotIn(ids[..k]), ids[..k], ids[k..]);
    NoneKept(ids[..k], ids[..k]);
    AllKept(ids[..k], ids[k..]);
  }

  lemma {:induction false} NoneKept(gone: seq<nat>, ids: seq<nat>)
    requires forall id :: id in ids ==> id in gone
    ensures Filter(NotIn(gone), ids) == []
  {
    if ids != [] { NoneKept(gone, ids[..|ids| - 1]); }
  }

  lemma {:induction false} AllKept(gone: seq<nat>, ids: seq<nat>)
    requires forall id :: id in ids ==> id !in gone
    ensures Filter(NotIn(gone), ids) == ids
  {
    if ids != [] {
      assert ids == ids[..|ids| - 1] + [ids[|ids| - 1]];
      AllKept(gone, ids[..|ids| - 1]);
    }
  }

  /** When its queries commit, a sweep decides the whole batch: what was waiting behind it is what waits next. */
  lemma SweepMovesOn(db: Db, judge: Delivery -> Verdict, asOf: int, next: nat, fates: nat -> Fate)
    requires forall i :: 0 <= i < UNDECIDED_BATCH ==> fates(i).Commits?
    ensures
      var waiting := Waiting(db.payloads, db.decisions, asOf, next);
      var batch := Take(waiting, UNDECIDED_BATCH);
      var after := DecideEach(db, judge, batch, fates, |batch|);
      Waiting(after.payloads, after.decisions, asOf, next) == waiting[|batch|..]
  {
    var waiting := Waiting(db.payloads, db.decisions, asOf, next);
    var batch := Take(waiting, UNDECIDED_BATCH);
    var after := DecideEach(db, judge, batch, fates, |batch|);
    forall i | 0 <= i < |batch| ensures batch[i] in db.payloads { assert batch[i] == waiting[i]; }
    EachIsDecided(db, judge, batch, fates, |batch|);
    assert batch[..|batch|] == batch == waiting[..|batch|];
    WaitingIsFiltered(db.payloads, db.decisions, after.decisions, batch, asOf, next);
    FilterRest(waiting, |batch|);
  }
}
