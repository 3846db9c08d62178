/**
 The painting email's tables and every transaction that writes them: the sweep's claim and outcome
 (painting-sweep.ts), the provider's events (resend-webhook.ts), the donor's corrections (intent.ts)
 and the stops (suppression.ts). Each transaction is a function from tables to tables, and `MailStore`
 is the object that holds the tables and updates them in place.
 */
module MailTables {
  import opened Prelude
  import opened Addresses

  type MailId = nat

  // ---------- digests ----------

  predicate SameAddress(a: Address, b: Address) { a == b }

  /** The two keyed digests. A keyed hash is taken to be injective, so a digest is what it was made of. */
  datatype Digest = Exact(address: Address) | Inbox(inbox: string)

  function ExactDigest(a: Address): Digest { Exact(a) }
  function InboxDigest(a: Address): Digest { Inbox(a.inbox) }

  // ---------- rows ----------

  datatype Intent = Intent(donorEmail: Option<Address>, hasAccount: bool, closed: bool, createdAt: int)
  datatype Keepsake = Keepsake(intentId: string, shareToken: string)
  datatype Code = Bounced | Refused(name: string)
  datatype SendRow = SendRow(claimedAt: int, sentAt: Option<int>, providerId: Option<MailId>, refusedCode: Option<Code>)

  /** `email.bounced` is split by its bounce type, as the stored event's own name is. */
  datatype Kind = Delivered | HardBounce | SoftBounce | ProviderSuppressed | SendFailed | Complained | Unhandled
  datatype Event = Event(kind: Kind, emailId: Option<MailId>, to: Option<Address>)
  datatype EventRow = EventRow(kind: Kind, emailId: Option<MailId>)

  datatype Db = Db(
    intents: map<string, Intent>,
    keepsakes: map<int, Keepsake>,
    sends: map<int, SendRow>,
    suppressed: set<Digest>,
    events: map<string, EventRow>)

  predicate IsSuppressed(suppressed: set<Digest>, a: Address) {
    ExactDigest(a) in suppressed || InboxDigest(a) in suppressed
  }

  /** Neither sent nor refused: the row still waits for an outcome. */
  predicate Open(row: SendRow) { row.sentAt.None? && row.refusedCode.None? }

  predicate Permanent(kind: Kind) { kind.HardBounce? || kind.ProviderSuppressed? }

  // ---------- the sweep's own writes ----------

  const HOUR: int := 60 * 60 * 1000
  const CLAIM_WINDOW_MS: int := 23 * HOUR

  datatype Claim = New | Retry | Stale | Held | AlreadySent

  function ClaimSend(sends: map<int, SendRow>, k: int, now: int): (map<int, SendRow>, Claim) {
    if k !in sends then (sends[k := SendRow(now, None, None, None)], New)
    else if sends[k].sentAt.Some? then (sends, AlreadySent)
    else if sends[k].refusedCode.Some? then (sends, Held)
    else (sends, if now - sends[k].claimedAt > CLAIM_WINDOW_MS then Stale else Retry)
  }

  /** Whether mail may have left on a failed attempt. */
  datatype Left = No | Unknown
  datatype SendResult = Sent(id: MailId) | Failed(code: string, left: Left, retry: bool)

  /** What came back over HTTP: nothing, or a status with the `id` and `name` its body held. */
  datatype Exchange = NoResponse | Response(status: nat, id: Option<MailId>, name: Option<string>)

  function Digits(n: nat): string {
    (if n < 10 then "" else Digits(n / 10)) + [(n % 10 + '0' as int) as char]
  }

  function ClassifyRefusal(status: nat, name: Option<string>): SendResult {
    var code := if name.Some? then name.value else "http_" + Digits(status);
    if name == Some("concurrent_idempotent_requests") then Failed(code, Unknown, true)
    else if name == Some("invalid_idempotent_request") then Failed(code, Unknown, false)
    else if status == 401 || status == 403 || status == 429 then Failed(code, No, true)
    else if status >= 500 || status == 200 then Failed(code, Unknown, true)
    else Failed(code, No, false)
  }

  /** The sender's reading of one request. */
  function ReadAnswer(x: Exchange): SendResult {
    match x
    case NoResponse => Failed("network", Unknown, true)
    case Response(status, id, name) =>
      if 200 <= status <= 299 && id.Some? then Sent(id.value) else ClassifyRefusal(status, name)
  }

  /** What the sweep writes once it has an answer. */
  function WriteOutcome(sends: map<int, SendRow>, k: int, isNew: bool, result: SendResult, clock: int): map<int, SendRow> {
    if k !in sends then sends
    else match result
      case Sent(id) => sends[k := sends[k].(sentAt := Some(clock), providerId := Some(id))]
      case Failed(code, left, retry) =>
        if !retry then sends[k := sends[k].(refusedCode := Some(Refused(code)))]
        else if left == No && isNew then sends - {k}
        else sends
  }

  // ---------- the provider's events ----------

  ghost predicate Carries(db: Db, k: int, e: MailId) {
    k in db.sends && k in db.keepsakes && db.sends[k].providerId == Some(e)
  }

  /** The gift whose send row carries this provider id. */
  ghost function IntentOf(db: Db, e: Option<MailId>): Option<string> {
    if e.Some? && exists k :: Carries(db, k, e.value) then
      var k :| Carries(db, k, e.value);
      Some(db.keepsakes[k].intentId)
    else None
  }

  /** A provider gives every mail an id of its own. */
  ghost predicate OneRowPerMail(sends: map<int, SendRow>) {
    forall k, j :: k in sends && j in sends && sends[k].providerId.Some? && sends[k].providerId == sends[j].providerId ==> k == j
  }

  function DonorOf(intents: map<string, Intent>, i: string): Option<Address> {
    if i in intents then intents[i].donorEmail else None
  }

  function Erase(intents: map<string, Intent>, i: string): map<string, Intent> {
    if i in intents then intents[i := intents[i].(donorEmail := None)] else intents
  }

  /** Erasing on delivery: never an account holder's address. */
  function EraseUnlessAccount(intents: map<string, Intent>, i: string): map<string, Intent> {
    if i in intents && !intents[i].hasAccount then Erase(intents, i) else intents
  }

  function EraseInbox(intents: map<string, Intent>, d: Digest): map<string, Intent> {
    map i | i in intents ::
      if intents[i].donorEmail.Some? && InboxDigest(intents[i].donorEmail.value) == d
      then intents[i].(donorEmail := None) else intents[i]
  }

  function MarkBounced(sends: map<int, SendRow>, e: MailId): map<int, SendRow> {
    map k | k in sends :: if sends[k].providerId == Some(e) then sends[k].(refusedCode := Some(Bounced)) else sends[k]
  }

  function ClearMail(sends: map<int, SendRow>, e: MailId): map<int, SendRow> {
    map k | k in sends && sends[k].providerId != Some(e) :: sends[k]
  }

  datatype Outcome = Replay | Ignored | Erased | ListedOnly | BouncedMail | FailedMail

  ghost function Receive(db: Db, svix: string, ev: Event): (Db, Outcome) {
    if svix in db.events then (db, Replay)
    else
      var at := db.(events := db.events[svix := EventRow(ev.kind, ev.emailId)]);
      var intent := IntentOf(db, ev.emailId);
      if ev.kind.Delivered? then
        if intent.None? || ev.to.None? then (at, Ignored)
        else
          var donor := DonorOf(db.intents, intent.value);
          if donor.None? || !SameAddress(donor.value, ev.to.value) then (at, Ignored)
          else (at.(intents := EraseUnlessAccount(db.intents, intent.value)), Erased)
      else if ev.kind.SendFailed? then (at, FailedMail)
      else if Permanent(ev.kind) then
        var listed := if ev.to.Some? then at.(suppressed := db.suppressed + {ExactDigest(ev.to.value)}) else at;
        if intent.None? then (listed, ListedOnly)
        else
          var donor := DonorOf(db.intents, intent.value);
          if donor.Some? && ev.to.Some? && !SameAddress(donor.value, ev.to.value) then
            (listed.(sends := ClearMail(db.sends, ev.emailId.value)), ListedOnly)
          else
            (listed.(intents := Erase(db.intents, intent.value), sends := MarkBounced(db.sends, ev.emailId.value)), BouncedMail)
      else if ev.kind.Complained? then
        if ev.to.None? then (at, Ignored)
        else (at.(suppressed := db.suppressed + {InboxDigest(ev.to.value)},
                  intents := EraseInbox(db.intents, InboxDigest(ev.to.value))), ListedOnly)
      else (at, Ignored)
  }

  predicate Early(row: EventRow, e: MailId) {
    row.emailId == Some(e) && (row.kind.Delivered? || Permanent(row.kind))
  }

  datatype Settled = Nothing | SettledBounced | SettledErased

  /** Straight after `provider_id` is written: acts on the events that came before it. */
  ghost function SettleEarly(db: Db, e: MailId, sentTo: Address): (Db, Settled) {
    if !exists s :: s in db.events && Early(db.events[s], e) then (db, Nothing)
    else
      var intent := IntentOf(db, Some(e));
      if intent.None? then (db, Nothing)
      else
        var donor := DonorOf(db.intents, intent.value);
        var still := donor.Some? && SameAddress(donor.value, sentTo);
        if exists s :: s in db.events && Early(db.events[s], e) && !db.events[s].kind.Delivered? then
          (db.(intents := if still then Erase(db.intents, intent.value) else db.intents, sends := MarkBounced(db.sends, e)), SettledBounced)
        else if !still then (db, Nothing)
        else (db.(intents := EraseUnlessAccount(db.intents, intent.value)), SettledErased)
  }

  // ---------- the donor's side ----------

  datatype MailState = NotSent | OnItsWay | SentState | BouncedState | HeldState

  ghost function StateOf(db: Db, i: string): MailState {
    if !exists k :: k in db.sends && k in db.keepsakes && db.keepsakes[k].intentId == i then NotSent
    else
      var k :| k in db.sends && k in db.keepsakes && db.keepsakes[k].intentId == i;
      if db.sends[k].refusedCode == Some(Bounced) then BouncedState
      else if db.sends[k].refusedCode.Some? then HeldState
      else if db.sends[k].sentAt.Some? then SentState
      else OnItsWay
  }

  datatype AddressFix = Saved | Resending | FixAlreadySent | FixHeld | FixErased

  function SetDonor(intents: map<string, Intent>, i: string, a: Address): map<string, Intent> {
    if i in intents then intents[i := intents[i].(donorEmail := Some(a))] else intents
  }

  function ClearGift(db: Db, i: string): map<int, SendRow> {
    map k | k in db.sends && !(k in db.keepsakes && db.keepsakes[k].intentId == i) :: db.sends[k]
  }

  ghost function Correct(db: Db, i: string, a: Address): (Db, AddressFix) {
    match StateOf(db, i)
    case HeldState => (db, FixHeld)
    case OnItsWay => (db, FixAlreadySent)
    case SentState => (db, FixAlreadySent)
    case BouncedState => (db.(intents := SetDonor(db.intents, i, a), sends := ClearGift(db, i)), Resending)
    case NotSent =>
      if DonorOf(db.intents, i).Some? then (db.(intents := SetDonor(db.intents, i, a)), Saved) else (db, FixErased)
  }

  function Unsubscribe(db: Db, inbox: string): Db {
    db.(suppressed := db.suppressed + {Inbox(inbox)}, intents := EraseInbox(db.intents, Inbox(inbox)))
  }

  const ABANDONED_AFTER_MS: int := 30 * 24 * HOUR

  function EraseAbandoned(intents: map<string, Intent>, asOf: int): map<string, Intent> {
    map i | i in intents ::
      if !intents[i].closed && intents[i].createdAt < asOf - ABANDONED_AFTER_MS
      then intents[i].(donorEmail := None) else intents[i]
  }

  // ---------- one turn of the sweep's loop ----------

  /** What a gift can show: paintings under the animal's name, no name, or art that could not be read or encoded. */
  datatype Paintings = Ready | Unnamed | Unreadable

  datatype Owed = Owed(k: int, to: Address, paintings: Paintings)
  datatype Report = Report(sent: nat, bounced: nat, suppressed: nat, stale: nat, held: nat, incomplete: nat, artUnreadable: nat,
                           failures: map<string, nat>)

  const NO_REPORT := Report(0, 0, 0, 0, 0, 0, 0, map[])

  function CountFailure(r: Report, code: string): Report {
    r.(failures := r.failures[code := (if code in r.failures then r.failures[code] else 0) + 1])
  }

  /** `answer` is what the sender would return for this gift, and `clock` when it does. */
  ghost function SweepOne(db: Db, r: Report, owed: Owed, now: int, answer: SendResult, clock: int): (Db, Report) {
    if IsSuppressed(db.suppressed, owed.to) then (db, r.(suppressed := r.suppressed + 1))
    else if owed.paintings.Unnamed? then (db, r.(incomplete := r.incomplete + 1))
    else if owed.paintings.Unreadable? then (db, r.(artUnreadable := r.artUnreadable + 1))
    else
      var (sends, claim) := ClaimSend(db.sends, owed.k, now);
      match claim
      case Stale => (db, r.(stale := r.stale + 1))
      case Held => (db, r.(held := r.held + 1))
      case AlreadySent => (db, r)
      case _ =>
        var written := db.(sends := WriteOutcome(sends, owed.k, claim.New?, answer, clock));
        match answer
        case Failed(code, _, _) => (written, CountFailure(r, code))
        case Sent(id) =>
          var (settled, how) := SettleEarly(written, id, owed.to);
          (settled, r.(sent := r.sent + 1, bounced := r.bounced + if how.SettledBounced? then 1 else 0))
  }

  ghost function SweepAll(db: Db, r: Report, owed: seq<Owed>, now: int, answers: seq<SendResult>,
      clocks: seq<int>): (Db, Report)
    requires |owed| == |answers| == |clocks|
  {
    if owed == [] then (db, r)
    else
      var n := |owed| - 1;
      var (before, tally) := SweepAll(db, r, owed[..n], now, answers[..n], clocks[..n]);
      SweepOne(before, tally, owed[n], now, answers[n], clocks[n])
  }
}
