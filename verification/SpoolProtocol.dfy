/**
 The spool as a protocol: every step a request, an insert in flight, the sweep or a crash can take. An answered delivery
 always has a raw row, or a finished file on disk that reads back as it.
 */
module SpoolProtocol {
  import opened Prelude
  import opened GiftBodies
  import opened Gifts
  import opened Spool

  /** `finished` once renamed from `.tmp` to `.json`; `synced` once its bytes are on disk; `durable` once its directory entry is. */
  datatype File = File(finished: bool, content: Option<Value>, synced: bool, durable: bool)

  datatype Pc = Storing | Spooling | Opened | Written | Synced | Renamed | Answered | Failed

  /** `landing` while its insert is in flight, which a request that gave up does not recall. */
  datatype Request = Request(row: Payload, pc: Pc, landing: bool, landed: bool)

  datatype Sweep = Idle | HasRead(of: int, row: Payload) | HasStored(of: int, row: Payload)

  /** Each request spools under its own name, so files are known by their request. */
  datatype World = World(rows: seq<Payload>, files: map<int, File>, requests: map<int, Request>, sweep: Sweep, drifting: seq<Payload>)

  const START := World([], map[], map[], Idle, [])

  datatype Action =
    | Arrive(q: int, row: Payload)
    | InsertLands(q: int)
    | InsertFails(q: int)
    | AnswerStored(q: int)
    | GiveUp(q: int, hasSpool: bool)
    | Open(q: int)
    | Write(q: int)
    | Sync(q: int)
    | Rename(q: int)
    | AnswerSpooled(q: int)
    | SpoolFails(q: int)
    | TakeUp(q: int)
    | SweepStores
    | SweepGivesUp(drifts: bool)
    | Unlink
    | UnlinkFails
    | DriftLands(i: nat)
    | DriftFails(i: nat)
    | ClearUnfinished(q: int)
    | Crash(lost: set<int>, reverted: set<int>, torn: set<int>)

  predicate At(w: World, q: int, pc: Pc) { q in w.requests && w.requests[q].pc == pc }

  ghost predicate Enabled(w: World, readDate: string -> Option<int>, a: Action) {
    match a
    case Arrive(q, row) => q !in w.requests
    case InsertLands(q) => q in w.requests && w.requests[q].landing
    case InsertFails(q) => q in w.requests && w.requests[q].landing
    case AnswerStored(q) => At(w, q, Storing) && w.requests[q].landed
    case GiveUp(q, _) => At(w, q, Storing)
    case Open(q) => At(w, q, Spooling)
    case Write(q) => At(w, q, Opened)
    case Sync(q) => At(w, q, Written)
    case Rename(q) => At(w, q, Synced) && q in w.files
    case AnswerSpooled(q) => At(w, q, Renamed)
    case SpoolFails(q) => q in w.requests && w.requests[q].pc in {Spooling, Opened, Written, Synced, Renamed}
    case TakeUp(q) => w.sweep.Idle? && q in w.files && w.files[q].finished && ParseEntry(w.files[q].content, readDate).Some?
    case SweepStores => w.sweep.HasRead?
    case SweepGivesUp(_) => w.sweep.HasRead?
    case Unlink => w.sweep.HasStored?
    case UnlinkFails => w.sweep.HasStored?
    case DriftLands(i) => i < |w.drifting|
    case DriftFails(i) => i < |w.drifting|
    case ClearUnfinished(q) => q in w.files && !w.files[q].finished
    case Crash(lost, reverted, torn) =>
      // The disk may drop what was never synced, and nothing else.
      && (forall q :: q in lost && q in w.files ==> !w.files[q].durable)
      && (forall q :: q in reverted && q in w.files ==> !w.files[q].durable)
      && (forall q :: q in torn && q in w.files ==> !w.files[q].synced)
  }

  function Move(w: World, q: int, pc: Pc): World
    requires q in w.requests
  {
    w.(requests := w.requests[q := w.requests[q].(pc := pc)])
  }

  function WithFile(w: World, q: int, file: File): World { w.(files := w.files[q := file]) }

  function Store(w: World, row: Payload): World { w.(rows := w.rows + [row]) }

  function After(file: File, reverted: bool, torn: bool): File {
    File(file.finished && !reverted, if torn then None else file.content, file.synced, file.durable)
  }

  function Died(r: Request): Request { if r.pc.Answered? then r else r.(pc := Failed) }

  function Apply(w: World, readDate: string -> Option<int>, iso: int -> string, a: Action): World
    requires Enabled(w, readDate, a)
  {
    match a
    case Arrive(q, row) => w.(requests := w.requests[q := Request(row, Storing, true, false)])
    case InsertLands(q) =>
      var r := w.requests[q];
      Store(w, r.row).(requests := w.requests[q := r.(landing := false, landed := true)])
    case InsertFails(q) => w.(requests := w.requests[q := w.requests[q].(landing := false)])
    case AnswerStored(q) => Move(w, q, Answered)
    case GiveUp(q, hasSpool) => Move(w, q, if hasSpool then Spooling else Failed)
    case Open(q) => WithFile(Move(w, q, Opened), q, File(false, None, false, false))
    case Write(q) =>
      var next := Move(w, q, Written);
      if q in w.files then WithFile(next, q, w.files[q].(content := Some(FileOf(w.requests[q].row, iso)))) else next
    case Sync(q) =>
      var next := Move(w, q, Synced);
      if q in w.files then WithFile(next, q, w.files[q].(synced := true)) else next
    case Rename(q) => WithFile(Move(w, q, Renamed), q, w.files[q].(finished := true))
    case AnswerSpooled(q) =>
      var next := Move(w, q, Answered);
      if q in w.files then WithFile(next, q, w.files[q].(durable := true)) else next
    case SpoolFails(q) => Move(w, q, Failed)
    case TakeUp(q) => w.(sweep := HasRead(q, ParseEntry(w.files[q].content, readDate).value))
    case SweepStores => Store(w, w.sweep.row).(sweep := HasStored(w.sweep.of, w.sweep.row))
    case SweepGivesUp(drifts) => w.(sweep := Idle, drifting := if drifts then w.drifting + [w.sweep.row] else w.drifting)
    case Unlink => w.(files := w.files - {w.sweep.of}, sweep := Idle)
    case UnlinkFails => w.(sweep := Idle)
    case DriftLands(i) => Store(w, w.drifting[i]).(drifting := w.drifting[..i] + w.drifting[i + 1..])
    case DriftFails(i) => w.(drifting := w.drifting[..i] + w.drifting[i + 1..])
    case ClearUnfinished(q) => w.(files := w.files - {q})
    case Crash(lost, reverted, torn) =>
      w.(requests := map q | q in w.requests :: Died(w.requests[q]),
         files := map q | q in w.files && q !in lost :: After(w.files[q], q in reverted, q in torn),
         sweep := Idle)
  }

  // ---------- what every step keeps ----------

  /** A file that reads back as the row, and that no crash can take. */
  ghost predicate SafeFile(w: World, q: int, iso: int -> string) {
    && q in w.files && q in w.requests && w.files[q].durable
    && Complete(w.files[q], w.requests[q].row, iso)
  }

  ghost predicate Complete(file: File, row: Payload, iso: int -> string) {
    file.finished && file.synced && file.content == Some(FileOf(row, iso))
  }

  /** What a request's own progress says about its row and its file. */
  ghost predicate RequestOk(w: World, q: int, iso: int -> string)
    requires q in w.requests
  {
    var r := w.requests[q];
    && (r.landed ==> r.row in w.rows)
    && match r.pc
       case Storing => q !in w.files
       case Spooling => q !in w.files
       case Opened => q in w.files ==> !w.files[q].finished
       case Written => q in w.files ==> !w.files[q].finished && w.files[q].content == Some(FileOf(r.row, iso))
       case Synced => q in w.files ==> !w.files[q].finished && w.files[q].synced && w.files[q].content == Some(FileOf(r.row, iso))
       case Renamed => (r.row in w.rows || q in w.files) && (q in w.files ==> Complete(w.files[q], r.row, iso))
       case Answered => r.row in w.rows || SafeFile(w, q, iso)
       case Failed => true
  }

  /** A finished file is whole, whoever wrote it. */
  ghost predicate FileOk(w: World, q: int, iso: int -> string)
    requires q in w.files
  {
    && q in w.requests
    && (w.files[q].synced ==> w.files[q].content == Some(FileOf(w.requests[q].row, iso)))
    && (w.files[q].finished ==> Complete(w.files[q], w.requests[q].row, iso))
    && (w.files[q].durable ==> w.files[q].finished)
  }

  ghost predicate SweepOk(w: World) {
    match w.sweep
    case Idle => true
    case HasRead(q, row) => q in w.requests && w.requests[q].row == row && w.requests[q].pc !in {Storing, Spooling, Opened, Written, Synced}
    case HasStored(q, row) => q in w.requests && w.requests[q].row == row && row in w.rows
                              && w.requests[q].pc !in {Storing, Spooling, Opened, Written, Synced}
  }

  ghost predicate Delivered(w: World, row: Payload) { exists q :: q in w.requests && w.requests[q].row == row }

  ghost predicate Inv(w: World, iso: int -> string) {
    && (forall q :: q in w.requests ==> RequestOk(w, q, iso))
    && (forall q :: q in w.files ==> FileOk(w, q, iso))
    && SweepOk(w)
    && (forall row :: row in w.rows || row in w.drifting ==> Delivered(w, row))
  }

  ghost predicate ReadsDates(iso: int -> string, readDate: string -> Option<int>) {
    forall t: int :: readDate(iso(t)) == Some(t)
  }

  /** Requests other than `q` do not notice `q` moving. */
  lemma OthersUnmoved(w: World, next: World, q: int, iso: int -> string, p: int)
    requires p in w.requests && RequestOk(w, p, iso) && p != q
    requires p in next.requests && next.requests[p] == w.requests[p]
    requires (p in next.files <==> p in w.files) && (p in w.files ==> next.files[p] == w.files[p])
    requires forall row :: row in w.rows ==> row in next.rows
    ensures RequestOk(next, p, iso)
  {
  }

  /** A step of one request: its own part is checked, the rest stays. */
  lemma RequestStep(w: World, next: World, q: int, iso: int -> string)
    requires Inv(w, iso) && q in next.requests && q in w.requests && next.requests[q].row == w.requests[q].row
    requires next.requests == w.requests[q := next.requests[q]]
    requires forall p :: p != q ==> ((p in next.files <==> p in w.files) && (p in w.files ==> next.files[p] == w.files[p]))
    requires (forall row :: row in w.rows ==> row in next.rows) && (forall row :: row in next.rows ==> row in w.rows || row == w.requests[q].row)
    requires next.drifting == w.drifting && next.sweep == w.sweep
    requires RequestOk(next, q, iso) && (q in next.files ==> FileOk(next, q, iso))
    requires next.requests[q].pc in {Storing, Spooling, Opened, Written, Synced} ==>
      w.requests[q].pc in {Storing, Spooling, Opened, Written, Synced}
    ensures Inv(next, iso)
  {
    forall p | p in next.requests ensures RequestOk(next, p, iso) {
      if p != q { OthersUnmoved(w, next, q, iso, p); }
    }
    forall p | p in next.files ensures FileOk(next, p, iso) {
      if p != q { assert FileOk(w, p, iso); }
    }
    forall row | row in next.rows || row in next.drifting ensures Delivered(next, row) {
      if row == w.requests[q].row { assert next.requests[q].row == row; } else {
        var p :| p in w.requests && w.requests[p].row == row;
        assert next.requests[p].row == row;
      }
    }
  }

  predicate IsRequestStep(a: Action) {
    || a.InsertLands? || a.InsertFails? || a.AnswerStored? || a.GiveUp? || a.Open?
    || a.Write? || a.Sync? || a.Rename? || a.AnswerSpooled? || a.SpoolFails?
  }

  lemma RequestStepKeepsInv(w: World, readDate: string -> Option<int>, iso: int -> string, a: Action)
    requires Inv(w, iso) && IsRequestStep(a) && Enabled(w, readDate, a)
    ensures Inv(Apply(w, readDate, iso, a), iso)
  {
    var next := Apply(w, readDate, iso, a);
    assert RequestOk(w, a.q, iso);
    assert a.q in w.files ==> FileOk(w, a.q, iso);
    if a.InsertLands? { assert w.requests[a.q].row in next.rows; }
    RequestStep(w, next, a.q, iso);
  }

  lemma ArriveKeepsInv(w: World, readDate: string -> Option<int>, iso: int -> string, a: Action)
    requires Inv(w, iso) && a.Arrive? && Enabled(w, readDate, a)
    ensures Inv(Apply(w, readDate, iso, a), iso)
  {
    var next := Apply(w, readDate, iso, a);
    forall p | p in next.requests ensures RequestOk(next, p, iso) {
      if p != a.q { assert RequestOk(w, p, iso); }
    }
    forall p | p in next.files ensures FileOk(next, p, iso) { assert FileOk(w, p, iso); }
    assert next.requests[a.q].row == a.row;
    SameDeliveries(w, next);
  }

  lemma SameDeliveries(w: World, next: World)
    requires forall row :: row in w.rows || row in w.drifting ==> Delivered(w, row)
    requires forall q :: q in w.requests ==> q in next.requests && next.requests[q].row == w.requests[q].row
    requires forall row :: row in next.rows || row in next.drifting ==> row in w.rows || row in w.drifting
    ensures forall row :: row in next.rows || row in next.drifting ==> Delivered(next, row)
  {
    forall row | row in next.rows || row in next.drifting ensures Delivered(next, row) {
      var q :| q in w.requests && w.requests[q].row == row;
      assert next.requests[q].row == row;
    }
  }

  /** More rows and the same requests and files disturb nothing. */
  lemma MoreRows(w: World, next: World, iso: int -> string)
    requires Inv(w, iso) && next.requests == w.requests && next.files == w.files && SweepOk(next)
    requires forall row :: row in w.rows ==> row in next.rows
    requires forall row :: row in next.rows || row in next.drifting ==> Delivered(w, row)
    ensures Inv(next, iso)
  {
    forall p | p in next.requests ensures RequestOk(next, p, iso) { assert RequestOk(w, p, iso); }
    forall p | p in next.files ensures FileOk(next, p, iso) { assert FileOk(w, p, iso); }
    forall row | row in next.rows || row in next.drifting ensures Delivered(next, row) {
      var q :| q in w.requests && w.requests[q].row == row;
      assert next.requests[q].row == row;
    }
  }

  lemma TakeUpReads(w: World, readDate: string -> Option<int>, iso: int -> string, q: int)
    requires Inv(w, iso) && ReadsDates(iso, readDate) && q in w.files && w.files[q].finished
    ensures q in w.requests && ParseEntry(w.files[q].content, readDate) == Some(w.requests[q].row)
  {
    assert FileOk(w, q, iso);
    SpooledReadsBack(w.requests[q].row, iso, readDate);
  }

  lemma SweepStepKeepsInv(w: World, readDate: string -> Option<int>, iso: int -> string, a: Action)
    requires Inv(w, iso) && ReadsDates(iso, readDate) && Enabled(w, readDate, a)
    requires a.TakeUp? || a.SweepStores? || a.SweepGivesUp? || a.UnlinkFails? || a.DriftLands? || a.DriftFails?
    ensures Inv(Apply(w, readDate, iso, a), iso)
  {
    var next := Apply(w, readDate, iso, a);
    if a.TakeUp? {
      TakeUpReads(w, readDate, iso, a.q);
      assert RequestOk(w, a.q, iso);
    }
    MoreRows(w, next, iso);
  }

  /** The sweep unlinks what it has stored, so whoever relied on the file has the row. */
  lemma UnlinkKeepsInv(w: World, readDate: string -> Option<int>, iso: int -> string)
    requires Inv(w, iso) && w.sweep.HasStored?
    ensures Inv(Apply(w, readDate, iso, Unlink), iso)
  {
    var next := Apply(w, readDate, iso, Unlink);
    forall p | p in next.requests ensures RequestOk(next, p, iso) {
      assert RequestOk(w, p, iso);
    }
    forall p | p in next.files ensures FileOk(next, p, iso) { assert FileOk(w, p, iso); }
    SameDeliveries(w, next);
  }

  lemma ClearKeepsInv(w: World, readDate: string -> Option<int>, iso: int -> string, a: Action)
    requires Inv(w, iso) && a.ClearUnfinished? && Enabled(w, readDate, a)
    ensures Inv(Apply(w, readDate, iso, a), iso)
  {
    var next := Apply(w, readDate, iso, a);
    forall p | p in next.requests ensures RequestOk(next, p, iso) { assert RequestOk(w, p, iso); }
    forall p | p in next.files ensures FileOk(next, p, iso) { assert FileOk(w, p, iso); }
    SameDeliveries(w, next);
  }

  lemma CrashKeepsInv(w: World, readDate: string -> Option<int>, iso: int -> string, a: Action)
    requires Inv(w, iso) && a.Crash? && Enabled(w, readDate, a)
    ensures Inv(Apply(w, readDate, iso, a), iso)
  {
    var next := Apply(w, readDate, iso, a);
    forall p | p in next.requests ensures RequestOk(next, p, iso) {
      assert RequestOk(w, p, iso);
      assert p in w.files ==> FileOk(w, p, iso);
    }
    forall p | p in next.files ensures FileOk(next, p, iso) { assert FileOk(w, p, iso); }
    SameDeliveries(w, next);
  }

  lemma StepKeepsInv(w: World, readDate: string -> Option<int>, iso: int -> string, a: Action)
    requires Inv(w, iso) && ReadsDates(iso, readDate) && Enabled(w, readDate, a)
    ensures Inv(Apply(w, readDate, iso, a), iso)
  {
    if IsRequestStep(a) { RequestStepKeepsInv(w, readDate, iso, a); }
    else if a.Arrive? { ArriveKeepsInv(w, readDate, iso, a); }
    else if a.Unlink? { UnlinkKeepsInv(w, readDate, iso); }
    else if a.ClearUnfinished? { ClearKeepsInv(w, readDate, iso, a); }
    else if a.Crash? { CrashKeepsInv(w, readDate, iso, a); }
    else { SweepStepKeepsInv(w, readDate, iso, a); }
  }

  // ---------- runs ----------

  ghost predicate Allowed(readDate: string -> Option<int>, iso: int -> string, acts: seq<Action>)
    decreases |acts|, 0
  {
    acts == [] || (Allowed(readDate, iso, acts[..|acts| - 1]) && Enabled(Exec(readDate, iso, acts[..|acts| - 1]), readDate, acts[|acts| - 1]))
  }

  ghost function Exec(readDate: string -> Option<int>, iso: int -> string, acts: seq<Action>): World
    requires Allowed(readDate, iso, acts)
    decreases |acts|, 1
  {
    if acts == [] then START else Apply(Exec(readDate, iso, acts[..|acts| - 1]), readDate, iso, acts[|acts| - 1])
  }

  lemma {:induction false} RunKeepsInv(readDate: string -> Option<int>, iso: int -> string, acts: seq<Action>)
    requires ReadsDates(iso, readDate) && Allowed(readDate, iso, acts)
    ensures Inv(Exec(readDate, iso, acts), iso)
    decreases |acts|
  {
    if acts != [] {
      RunKeepsInv(readDate, iso, acts[..|acts| - 1]);
      StepKeepsInv(Exec(readDate, iso, acts[..|acts| - 1]), readDate, iso, acts[|acts| - 1]);
    }
  }

  /** A finished file that no crash can take and that the sweep will read as this row. */
  ghost predicate OnDisk(w: World, q: int, row: Payload, readDate: string -> Option<int>) {
    q in w.files && w.files[q].finished && w.files[q].synced && w.files[q].durable && ParseEntry(w.files[q].content, readDate) == Some(row)
  }

  /**
   Nothing accepted is lost, on every run: an answered delivery has its raw row, or a durable file that reads back as it. No file
   the sweep can see is half a delivery, and no row is anything but a delivery.
   */
  lemma NothingAcceptedIsLost(readDate: string -> Option<int>, iso: int -> string, acts: seq<Action>)
    requires ReadsDates(iso, readDate) && Allowed(readDate, iso, acts)
    ensures
      var w := Exec(readDate, iso, acts);
      && (forall q :: q in w.requests && w.requests[q].pc.Answered? ==>
            w.requests[q].row in w.rows || OnDisk(w, q, w.requests[q].row, readDate))
      && (forall q :: q in w.files && w.files[q].finished ==>
            q in w.requests && ParseEntry(w.files[q].content, readDate) == Some(w.requests[q].row))
      && (forall row :: row in w.rows ==> Delivered(w, row))
  {
    var w := Exec(readDate, iso, acts);
    RunKeepsInv(readDate, iso, acts);
    forall q | q in w.files && w.files[q].finished
      ensures q in w.requests && ParseEntry(w.files[q].content, readDate) == Some(w.requests[q].row)
    {
      TakeUpReads(w, readDate, iso, q);
    }
    forall q | q in w.requests && w.requests[q].pc.Answered?
      ensures w.requests[q].row in w.rows || OnDisk(w, q, w.requests[q].row, readDate)
    {
      assert RequestOk(w, q, iso);
    }
  }
}
