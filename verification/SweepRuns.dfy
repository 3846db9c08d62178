/** The first half of the webhook's sweep, uninterrupted, is a run of the spool's protocol. */
module SweepRuns {
  import opened Prelude
  import opened GiftBodies
  import Gifts
  import opened GiftStore
  import opened Spool
  import opened SpoolProtocol

  /** The entries are finished files of this world, each listed once, as they read. */
  ghost predicate Listed(w: World, ids: seq<int>, entries: seq<SpoolEntry>, readDate: string -> Option<int>) {
    && |ids| == |entries| && Distinct(ids)
    && (forall i, j :: 0 <= i < j < |entries| ==> entries[i].file != entries[j].file)
    && (forall i :: 0 <= i < |ids| ==> FinishedAs(w, ids[i], entries[i], readDate))
  }

  predicate FinishedAs(w: World, q: int, entry: SpoolEntry, readDate: string -> Option<int>) {
    q in w.files && w.files[q].finished && entry.row == ParseEntry(w.files[q].content, readDate)
  }

  /** What the loop does with one entry. An insert whose clock ran out goes on without the sweep, and lands or doesn't. */
  function EntrySteps(q: int, fate: Fate, drifting: nat): seq<Action> {
    match fate
    case Commits => [TakeUp(q)] + [SweepStores] + [Unlink]
    case Fails => [TakeUp(q)] + [SweepGivesUp(false)]
    case Expires(lands) => [TakeUp(q)] + [SweepGivesUp(true)] + [if lands then DriftLands(drifting) else DriftFails(drifting)]
  }

  /** A run, and then what the loop does with the first `n`: none is taken up that can't be read, nor any after a failure. */
  function Swept(past: seq<Action>, ids: seq<int>, entries: seq<SpoolEntry>, fates: nat -> Fate, drifting: nat, n: nat): seq<Action>
    requires n <= |entries| == |ids|
  {
    if n == 0 then past
    else if UpBefore(entries, fates, n - 1) && entries[n - 1].row.Some? then
      Swept(past, ids, entries, fates, drifting, n - 1) + EntrySteps(ids[n - 1], fates(n - 1), drifting)
    else Swept(past, ids, entries, fates, drifting, n - 1)
  }

  /** The files the first `n` entries leave deleted. */
  function Gone(ids: seq<int>, entries: seq<SpoolEntry>, fates: nat -> Fate, n: nat): set<int>
    requires n <= |entries| == |ids|
  {
    if n == 0 then {} else
      Gone(ids, entries, fates, n - 1) + if UpBefore(entries, fates, n) && entries[n - 1].row.Some? then {ids[n - 1]} else {}
  }

  /** The world with those rows stored and those files deleted, and nothing else moved. */
  function Left(w: World, ids: seq<int>, entries: seq<SpoolEntry>, fates: nat -> Fate, n: nat): World
    requires n <= |entries| == |ids|
  {
    w.(rows := w.rows + StoredRows(entries, fates, n), files := w.files - Gone(ids, entries, fates, n))
  }

  ghost predicate Reaches(readDate: string -> Option<int>, iso: int -> string, acts: seq<Action>, v: World) {
    Allowed(readDate, iso, acts) && Exec(readDate, iso, acts) == v
  }

  lemma Further(readDate: string -> Option<int>, iso: int -> string, done: seq<Action>, v: World, a: Action)
    requires Reaches(readDate, iso, done, v) && Enabled(v, readDate, a)
    ensures Reaches(readDate, iso, done + [a], Apply(v, readDate, iso, a))
  {
    assert (done + [a])[..|done|] == done;
  }

  lemma {:induction false} StillThere(w: World, ids: seq<int>, entries: seq<SpoolEntry>, fates: nat -> Fate, n: nat, i: nat)
    requires n <= i < |entries| == |ids| && Distinct(ids)
    ensures ids[i] !in Gone(ids, entries, fates, n)
  {
    if n > 0 { StillThere(w, ids, entries, fates, n - 1, i); }
  }

  lemma StoredRun(readDate: string -> Option<int>, iso: int -> string, done: seq<Action>, v: World, q: int, row: Gifts.Payload)
    requires Reaches(readDate, iso, done, v) && Enabled(v, readDate, TakeUp(q)) && ParseEntry(v.files[q].content, readDate) == Some(row)
    ensures Reaches(readDate, iso, done + EntrySteps(q, Commits, |v.drifting|), v.(rows := v.rows + [row], files := v.files - {q}))
  {
    Further(readDate, iso, done, v, TakeUp(q));
    var read := v.(sweep := HasRead(q, row));
    Further(readDate, iso, done + [TakeUp(q)], read, SweepStores);
    Further(readDate, iso, done + [TakeUp(q)] + [SweepStores], v.(rows := v.rows + [row], sweep := HasStored(q, row)), Unlink);
    assert done + EntrySteps(q, Commits, |v.drifting|) == done + [TakeUp(q)] + [SweepStores] + [Unlink];
  }

  lemma FailedRun(readDate: string -> Option<int>, iso: int -> string, done: seq<Action>, v: World, q: int, row: Gifts.Payload)
    requires Reaches(readDate, iso, done, v) && Enabled(v, readDate, TakeUp(q)) && ParseEntry(v.files[q].content, readDate) == Some(row)
    ensures Reaches(readDate, iso, done + EntrySteps(q, Fails, |v.drifting|), v)
  {
    Further(readDate, iso, done, v, TakeUp(q));
    Further(readDate, iso, done + [TakeUp(q)], v.(sweep := HasRead(q, row)), SweepGivesUp(false));
    assert done + EntrySteps(q, Fails, |v.drifting|) == done + [TakeUp(q)] + [SweepGivesUp(false)];
  }

  lemma DriftEnds(v: World, row: Gifts.Payload)
    ensures
      var n, drifting := |v.drifting|, v.drifting + [row];
      drifting[n] == row && drifting[..n] + drifting[n + 1..] == v.drifting
  {
  }

  lemma ExpiredRun(readDate: string -> Option<int>, iso: int -> string, done: seq<Action>, v: World, q: int, row: Gifts.Payload, lands: bool)
    requires Reaches(readDate, iso, done, v) && Enabled(v, readDate, TakeUp(q)) && ParseEntry(v.files[q].content, readDate) == Some(row)
    ensures Reaches(readDate, iso, done + EntrySteps(q, Expires(lands), |v.drifting|), if lands then v.(rows := v.rows + [row]) else v)
  {
    var last := if lands then DriftLands(|v.drifting|) else DriftFails(|v.drifting|);
    Further(readDate, iso, done, v, TakeUp(q));
    Further(readDate, iso, done + [TakeUp(q)], v.(sweep := HasRead(q, row)), SweepGivesUp(true));
    var adrift := v.(drifting := v.drifting + [row]);
    Further(readDate, iso, done + [TakeUp(q)] + [SweepGivesUp(true)], adrift, last);
    DriftEnds(v, row);
    assert done + EntrySteps(q, Expires(lands), |v.drifting|) == done + [TakeUp(q)] + [SweepGivesUp(true)] + [last];
  }

  /** The world one taken entry leaves. */
  function Taken(v: World, q: int, row: Gifts.Payload, fate: Fate): World {
    v.(rows := v.rows + (if fate.Commits? || (fate.Expires? && fate.lands) then [row] else []),
       files := v.files - (if fate.Commits? then {q} else {}))
  }

  lemma EntryRun(readDate: string -> Option<int>, iso: int -> string, done: seq<Action>, v: World, q: int, row: Gifts.Payload, fate: Fate)
    requires Reaches(readDate, iso, done, v) && Enabled(v, readDate, TakeUp(q)) && ParseEntry(v.files[q].content, readDate) == Some(row)
    ensures Reaches(readDate, iso, done + EntrySteps(q, fate, |v.drifting|), Taken(v, q, row, fate))
  {
    assert v.rows + [] == v.rows && v.files - {} == v.files;
    match fate
    case Commits => StoredRun(readDate, iso, done, v, q, row);
    case Fails => FailedRun(readDate, iso, done, v, q, row);
    case Expires(lands) => ExpiredRun(readDate, iso, done, v, q, row, lands);
  }

  /** One entry moves the world from where the first `n` left it to where the first `n + 1` do. */
  lemma NextEntry(w: World, ids: seq<int>, entries: seq<SpoolEntry>, fates: nat -> Fate, n: nat)
    requires n < |entries| == |ids|
    ensures
      var was := Left(w, ids, entries, fates, n);
      Left(w, ids, entries, fates, n + 1) ==
        if UpBefore(entries, fates, n) && entries[n].row.Some? then Taken(was, ids[n], entries[n].row.value, fates(n)) else was
  {
    var rows := StoredRows(entries, fates, n);
    assert w.rows + (rows + []) == w.rows + rows == w.rows + rows + [];
    if Lands(entries, fates, n) { assert w.rows + (rows + [entries[n].row.value]) == (w.rows + rows) + [entries[n].row.value]; }
  }

  lemma CanTake(w: World, ids: seq<int>, entries: seq<SpoolEntry>, fates: nat -> Fate, readDate: string -> Option<int>, n: nat)
    requires w.sweep.Idle? && Listed(w, ids, entries, readDate) && n < |entries| && entries[n].row.Some?
    ensures
      var was := Left(w, ids, entries, fates, n);
      Enabled(was, readDate, TakeUp(ids[n])) && ParseEntry(was.files[ids[n]].content, readDate) == entries[n].row
  {
    assert FinishedAs(w, ids[n], entries[n], readDate);
    StillThere(w, ids, entries, fates, n, n);
  }

  lemma NoneSwept(readDate: string -> Option<int>, iso: int -> string, past: seq<Action>, w: World,
      ids: seq<int>, entries: seq<SpoolEntry>, fates: nat -> Fate)
    requires Reaches(readDate, iso, past, w) && |ids| == |entries|
    ensures Reaches(readDate, iso, Swept(past, ids, entries, fates, |w.drifting|, 0), Left(w, ids, entries, fates, 0))
  {
    assert w.rows + [] == w.rows && w.files - {} == w.files;
  }

  lemma SweptFurther(readDate: string -> Option<int>, iso: int -> string, past: seq<Action>, w: World,
      ids: seq<int>, entries: seq<SpoolEntry>, fates: nat -> Fate, n: nat)
    requires w.sweep.Idle? && Listed(w, ids, entries, readDate) && n < |entries|
    requires Reaches(readDate, iso, Swept(past, ids, entries, fates, |w.drifting|, n), Left(w, ids, entries, fates, n))
    ensures Reaches(readDate, iso, Swept(past, ids, entries, fates, |w.drifting|, n + 1), Left(w, ids, entries, fates, n + 1))
  {
    NextEntry(w, ids, entries, fates, n);
    if UpBefore(entries, fates, n) && entries[n].row.Some? {
      var before, was := Swept(past, ids, entries, fates, |w.drifting|, n), Left(w, ids, entries, fates, n);
      CanTake(w, ids, entries, fates, readDate, n);
      EntryRun(readDate, iso, before, was, ids[n], entries[n].row.value, fates(n));
    }
  }

  /**
   The loop over the files is a run: taken after any run that left the sweep idle, its steps store the rows and delete the files
   that `ReplayFiles` does, and nothing else.
   */
  lemma SweepIsRun(readDate: string -> Option<int>, iso: int -> string, past: seq<Action>, w: World,
      ids: seq<int>, entries: seq<SpoolEntry>, fates: nat -> Fate, n: nat)
    requires Reaches(readDate, iso, past, w) && w.sweep.Idle? && Listed(w, ids, entries, readDate) && n <= |entries|
    ensures Reaches(readDate, iso, Swept(past, ids, entries, fates, |w.drifting|, n), Left(w, ids, entries, fates, n))
  {
    NoneSwept(readDate, iso, past, w, ids, entries, fates);
    for i := 0 to n
      invariant Reaches(readDate, iso, Swept(past, ids, entries, fates, |w.drifting|, i), Left(w, ids, entries, fates, i))
    {
      SweptFurther(readDate, iso, past, w, ids, entries, fates, i);
    }
  }

  /** The files deleted by name are those deleted in the run. */
  lemma {:induction false} SameFilesGo(w: World, ids: seq<int>, entries: seq<SpoolEntry>, fates: nat -> Fate,
      readDate: string -> Option<int>, n: nat, i: nat)
    requires Listed(w, ids, entries, readDate) && n <= |entries| && i < |entries|
    ensures ids[i] in Gone(ids, entries, fates, n) <==> entries[i].file in Replayed(entries, fates, n)
  {
    if n > 0 { SameFilesGo(w, ids, entries, fates, readDate, n - 1, i); }
  }

  lemma AnsweredIsKept(readDate: string -> Option<int>, iso: int -> string, acts: seq<Action>, v: World, q: int)
    requires ReadsDates(iso, readDate) && Reaches(readDate, iso, acts, v) && q in v.requests && v.requests[q].pc.Answered?
    ensures
      || v.requests[q].row in v.rows
      || (q in v.files && v.files[q].finished && ParseEntry(v.files[q].content, readDate) == Some(v.requests[q].row))
  {
    RunKeepsInv(readDate, iso, acts);
    assert RequestOk(v, q, iso);
    if v.requests[q].row !in v.rows { TakeUpReads(v, readDate, iso, q); }
  }

  /** So a sweep ends as the protocol promises: every answered delivery has its row, or a file still there that reads back as it. */
  lemma SweepLosesNothing(readDate: string -> Option<int>, iso: int -> string, past: seq<Action>, w: World,
      ids: seq<int>, entries: seq<SpoolEntry>, fates: nat -> Fate, q: int)
    requires ReadsDates(iso, readDate) && Reaches(readDate, iso, past, w) && w.sweep.Idle? && Listed(w, ids, entries, readDate)
    requires q in w.requests && w.requests[q].pc.Answered?
    ensures
      var row := w.requests[q].row;
      || row in w.rows || row in StoredRows(entries, fates, |entries|)
      || (q in w.files && ParseEntry(w.files[q].content, readDate) == Some(row)
          && forall i :: 0 <= i < |ids| && ids[i] == q ==> entries[i].file !in Replayed(entries, fates, |entries|))
  {
    var acts := Swept(past, ids, entries, fates, |w.drifting|, |entries|);
    SweepIsRun(readDate, iso, past, w, ids, entries, fates, |entries|);
    AnsweredIsKept(readDate, iso, acts, Left(w, ids, entries, fates, |entries|), q);
    forall i | 0 <= i < |ids| && ids[i] == q && q !in Gone(ids, entries, fates, |entries|)
      ensures entries[i].file !in Replayed(entries, fates, |entries|)
    {
      SameFilesGo(w, ids, entries, fates, readDate, |entries|, i);
    }
  }

  // ---------- the spool drains ----------

  /** Every finished file that reads as a delivery is among those listed. */
  ghost predicate ListsAll(w: World, ids: seq<int>, readDate: string -> Option<int>) {
    forall q :: q in w.files && w.files[q].finished && ParseEntry(w.files[q].content, readDate).Some? ==> q in ids
  }

  lemma {:induction false} UpThroughout(entries: seq<SpoolEntry>, fates: nat -> Fate, n: nat)
    requires n <= |entries| && forall i :: 0 <= i < n && entries[i].row.Some? ==> fates(i).Commits?
    ensures UpBefore(entries, fates, n)
    decreases n
  {
    if n > 0 { UpThroughout(entries, fates, n - 1); }
  }

  /** An entry that reads as a delivery is stored and its file deleted. */
  lemma {:induction false} EntryIsTaken(ids: seq<int>, entries: seq<SpoolEntry>, fates: nat -> Fate, n: nat, i: nat)
    requires i < n <= |entries| == |ids| && entries[i].row.Some?
    requires forall j :: 0 <= j < n && entries[j].row.Some? ==> fates(j).Commits?
    ensures entries[i].row.value in StoredRows(entries, fates, n) && ids[i] in Gone(ids, entries, fates, n)
    decreases n
  {
    UpThroughout(entries, fates, n - 1);
    if i < n - 1 { EntryIsTaken(ids, entries, fates, n - 1, i); } else { UpThroughout(entries, fates, n); }
  }

  lemma FileIsTaken(w: World, ids: seq<int>, entries: seq<SpoolEntry>, fates: nat -> Fate, readDate: string -> Option<int>, q: int)
    requires Listed(w, ids, entries, readDate) && ListsAll(w, ids, readDate)
    requires forall i :: 0 <= i < |entries| && entries[i].row.Some? ==> fates(i).Commits?
    requires q in w.files && w.files[q].finished && ParseEntry(w.files[q].content, readDate).Some?
    ensures ParseEntry(w.files[q].content, readDate).value in StoredRows(entries, fates, |entries|)
    ensures q in Gone(ids, entries, fates, |entries|)
  {
    var i :| 0 <= i < |ids| && ids[i] == q;
    assert FinishedAs(w, ids[i], entries[i], readDate);
    EntryIsTaken(ids, entries, fates, |entries|, i);
  }

  /**
   With the database up the spool drains: a loop that lists every readable file, and whose inserts all commit, leaves none of them, and
   every answered delivery has its raw row.
   */
  lemma SweepDrains(readDate: string -> Option<int>, iso: int -> string, past: seq<Action>, w: World,
      ids: seq<int>, entries: seq<SpoolEntry>, fates: nat -> Fate)
    requires ReadsDates(iso, readDate) && Reaches(readDate, iso, past, w) && w.sweep.Idle?
    requires Listed(w, ids, entries, readDate) && ListsAll(w, ids, readDate)
    requires forall i :: 0 <= i < |entries| && entries[i].row.Some? ==> fates(i).Commits?
    ensures
      var v := Left(w, ids, entries, fates, |entries|);
      && Reaches(readDate, iso, Swept(past, ids, entries, fates, |w.drifting|, |entries|), v)
      && (forall q :: q in v.requests && v.requests[q].pc.Answered? ==> v.requests[q].row in v.rows)
      && (forall q :: q in v.files && v.files[q].finished ==> ParseEntry(v.files[q].content, readDate).None?)
  {
    SweepIsRun(readDate, iso, past, w, ids, entries, fates, |entries|);
    forall q | q in w.requests && w.requests[q].pc.Answered?
      ensures w.requests[q].row in w.rows + StoredRows(entries, fates, |entries|)
    {
      AnsweredIsKept(readDate, iso, past, w, q);
      if w.requests[q].row !in w.rows { FileIsTaken(w, ids, entries, fates, readDate, q); }
    }
    forall q | q in w.files && w.files[q].finished && ParseEntry(w.files[q].content, readDate).Some?
      ensures q in Gone(ids, entries, fates, |entries|)
    {
      FileIsTaken(w, ids, entries, fates, readDate, q);
    }
  }
}
