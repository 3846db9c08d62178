/**
 The sweep as a protocol: it reads what is owed, claims, sends, writes the answer and settles, and may
 stop between any two of those, while the provider's events, corrections and stops come in between.

 The provider is taken to honour its key for a day after first accepting it, to answer "not sent" only
 when nothing left, to name each mail anew, and to report a bounce with the address it mailed. One sweep
 runs at a time, and sends within the hour its claim window leaves.
 */
module MailProtocol {
  import opened Prelude
  import opened Addresses
  import opened MailTables

  const DAY: int := 24 * HOUR

  datatype Key = Key(shareToken: string, digest: Digest)
  datatype Mail = Mail(k: int, to: Address, at: int, id: MailId)

  datatype Pc =
    | Idle
    | Walking(now: int, owed: seq<Owed>)
    | Checked(now: int, owed: seq<Owed>)
    | Claimed(now: int, owed: seq<Owed>, isNew: bool)
    | Answered(now: int, owed: seq<Owed>, isNew: bool, result: SendResult)
    | Settling(now: int, owed: seq<Owed>, id: MailId)

  /** `mails` is everything the provider ever put in an inbox; `keys` is what it remembers accepting. */
  datatype World = World(db: Db, clock: int, keys: map<Key, Mail>, mails: seq<Mail>, pc: Pc)

  datatype Action =
    | PassTime(ms: nat)
    | Load(owed: seq<Owed>)
    | CheckNext
    | TakeClaim
    | Deliver(x: Exchange, taken: Option<MailId>)
    | Write
    | Settle
    | Finish
    | Crash
    | Hear(svix: string, ev: Event)
    | Fix(i: string, a: Address)
    | Stop(inbox: string)
    | Abandon(asOf: int)
    | Gift(i: string, intent: Intent, k: int, shareToken: string)

  ghost function KeyOf(db: Db, k: int, to: Address): Key
    requires k in db.keepsakes
  {
    Key(db.keepsakes[k].shareToken, ExactDigest(to))
  }

  function Donor(db: Db, k: int): Option<Address>
    requires k in db.keepsakes
  {
    DonorOf(db.intents, db.keepsakes[k].intentId)
  }

  /** What `loadOwedPaintings` lists: an address still held, and no send row past open. */
  ghost predicate IsOwed(db: Db, o: Owed) {
    && o.k in db.keepsakes
    && Donor(db, o.k) == Some(o.to)
    && (o.k in db.sends ==> Open(db.sends[o.k]))
  }

  ghost predicate OncePerKeepsake(owed: seq<Owed>) {
    forall i, j :: 0 <= i < j < |owed| ==> owed[i].k != owed[j].k
  }

  /** The provider still holds this key, so it mails nothing new under it. */
  ghost predicate Remembered(w: World, key: Key) {
    key in w.keys && w.clock < w.keys[key].at + DAY
  }

  ghost predicate NewId(w: World, id: MailId) {
    && (forall m :: m in w.mails ==> m.id != id)
    && (forall s :: s in w.db.events ==> w.db.events[s].emailId != Some(id))
  }

  /** What the caller hears agrees with what the provider did. */
  predicate Honest(x: Exchange, taken: Option<MailId>) {
    match ReadAnswer(x)
    case Sent(id) => taken == Some(id)
    case Failed(_, left, _) => left == No ==> taken.None?
  }

  ghost predicate Genuine(w: World, ev: Event) {
    ev.emailId.Some? ==>
      exists m :: m in w.mails && m.id == ev.emailId.value
                  && (ev.to.Some? ==> SameAddress(ev.to.value, m.to))
                  && (Permanent(ev.kind) ==> ev.to.Some?)
  }

  ghost predicate Enabled(w: World, a: Action) {
    match a
    case PassTime(_) => true
    case Load(owed) => w.pc.Idle? && OncePerKeepsake(owed) && forall o :: o in owed ==> IsOwed(w.db, o)
    case CheckNext => w.pc.Walking? && w.pc.owed != []
    case TakeClaim => w.pc.Checked? && w.pc.owed != []
    case Deliver(x, taken) =>
      && w.pc.Claimed? && w.pc.owed != [] && w.pc.owed[0].k in w.db.keepsakes
      && w.clock - w.pc.now < HOUR
      && Honest(x, taken)
      && (taken.Some? ==>
            var key := KeyOf(w.db, w.pc.owed[0].k, w.pc.owed[0].to);
            if Remembered(w, key) then taken.value == w.keys[key].id else NewId(w, taken.value))
    case Write => w.pc.Answered? && w.pc.owed != []
    case Settle => w.pc.Settling? && w.pc.owed != []
    case Finish => w.pc.Walking? && w.pc.owed == []
    case Crash => true
    case Hear(_, ev) => Genuine(w, ev)
    case Fix(_, _) => true
    case Stop(_) => true
    case Abandon(_) => true
    case Gift(i, _, k, token) =>
      && i !in w.db.intents && k !in w.db.keepsakes
      && (forall j :: j in w.db.keepsakes ==> w.db.keepsakes[j].shareToken != token)
  }

  ghost function Apply(w: World, a: Action): World
    requires Enabled(w, a)
  {
    match a
    case PassTime(ms) => w.(clock := w.clock + ms)
    case Load(owed) => w.(pc := Walking(w.clock, owed))
    case CheckNext =>
      var o := w.pc.owed[0];
      w.(pc := if IsSuppressed(w.db.suppressed, o.to) || !o.paintings.Ready?
               then Walking(w.pc.now, w.pc.owed[1..]) else Checked(w.pc.now, w.pc.owed))
    case TakeClaim =>
      var (sends, claim) := ClaimSend(w.db.sends, w.pc.owed[0].k, w.pc.now);
      w.(db := w.db.(sends := sends),
         pc := if claim.New? || claim.Retry? then Claimed(w.pc.now, w.pc.owed, claim.New?)
               else Walking(w.pc.now, w.pc.owed[1..]))
    case Deliver(x, taken) =>
      var o := w.pc.owed[0];
      var key := KeyOf(w.db, o.k, o.to);
      var heard := w.(pc := Answered(w.pc.now, w.pc.owed, w.pc.isNew, ReadAnswer(x)));
      if taken.None? || Remembered(w, key) then heard
      else
        var mail := Mail(o.k, o.to, w.clock, taken.value);
        heard.(mails := w.mails + [mail], keys := w.keys[key := mail])
    case Write =>
      var sends := WriteOutcome(w.db.sends, w.pc.owed[0].k, w.pc.isNew, w.pc.result, w.clock);
      w.(db := w.db.(sends := sends),
         pc := if w.pc.result.Sent? then Settling(w.pc.now, w.pc.owed, w.pc.result.id)
               else Walking(w.pc.now, w.pc.owed[1..]))
    case Settle =>
      w.(db := SettleEarly(w.db, w.pc.id, w.pc.owed[0].to).0, pc := Walking(w.pc.now, w.pc.owed[1..]))
    case Finish => w.(pc := Idle)
    case Crash => w.(pc := Idle)
    case Hear(svix, ev) => w.(db := Receive(w.db, svix, ev).0)
    case Fix(i, a) => w.(db := Correct(w.db, i, a).0)
    case Stop(inbox) => w.(db := Unsubscribe(w.db, inbox))
    case Abandon(asOf) => w.(db := w.db.(intents := EraseAbandoned(w.db.intents, asOf)))
    case Gift(i, intent, k, token) =>
      w.(db := w.db.(intents := w.db.intents[i := intent], keepsakes := w.db.keepsakes[k := Keepsake(i, token)]))
  }

  ghost predicate Allowed(w: World, acts: seq<Action>)
    decreases |acts|
  {
    acts == [] || (Enabled(w, acts[0]) && Allowed(Apply(w, acts[0]), acts[1..]))
  }

  ghost function Exec(w: World, acts: seq<Action>): World
    requires Allowed(w, acts)
    decreases |acts|
  {
    if acts == [] then w else Exec(Apply(w, acts[0]), acts[1..])
  }

  lemma {:induction false} ExecConcat(w: World, a: seq<Action>, b: seq<Action>)
    requires Allowed(w, a) && Allowed(Exec(w, a), b)
    ensures Allowed(w, a + b) && Exec(w, a + b) == Exec(Exec(w, a), b)
    decreases |a|
  {
    if a == [] {
      assert a + b == b;
    } else {
      assert (a + b)[0] == a[0] && (a + b)[1..] == a[1..] + b;
      ExecConcat(Apply(w, a[0]), a[1..], b);
    }
  }

  ghost function Start(clock: int): World {
    World(Db(map[], map[], map[], {}, map[]), clock, map[], [], Idle)
  }

  // ---------- the property ----------

  predicate SamePair(a: Mail, b: Mail) { a.k == b.k && SameAddress(a.to, b.to) }

  /** No gift's painting reached one address twice. */
  ghost predicate AtMostOnce(mails: seq<Mail>) {
    forall i, j :: 0 <= i < j < |mails| ==> !SamePair(mails[i], mails[j])
  }

  /** The gift's own address no longer points anywhere this mail's address could be taken back from. */
  predicate SafeDonor(db: Db, k: int, to: Address)
    requires k in db.keepsakes
  {
    var donor := Donor(db, k);
    donor.None? || SameAddress(donor.value, to) || IsSuppressed(db.suppressed, donor.value)
  }

  /** At the claim: the address read with the owed list is still the gift's, or can't be mailed again. */
  predicate SafeClaim(db: Db, o: Owed)
    requires o.k in db.keepsakes
  {
    IsSuppressed(db.suppressed, o.to) || SafeDonor(db, o.k, o.to)
  }

  /** Every claim of the run was for an address the gift still had. */
  ghost predicate Guarded(w: World, acts: seq<Action>)
    requires Allowed(w, acts)
    decreases |acts|
  {
    acts != [] ==>
      && (acts[0].TakeClaim? ==> w.pc.owed[0].k in w.db.keepsakes && SafeClaim(w.db, w.pc.owed[0]))
      && Guarded(Apply(w, acts[0]), acts[1..])
  }

  // ---------- the invariant ----------

  ghost predicate AllListed(mails: seq<Mail>, k: int, suppressed: set<Digest>) {
    forall m :: m in mails && m.k == k ==> IsSuppressed(suppressed, m.to)
  }

  ghost predicate Shape(db: Db) {
    && db.sends.Keys <= db.keepsakes.Keys
    && (forall k :: k in db.keepsakes ==> db.keepsakes[k].intentId in db.intents)
    && (forall k, j :: k in db.keepsakes && j in db.keepsakes && db.keepsakes[k].intentId == db.keepsakes[j].intentId ==> k == j)
    && (forall k, j :: k in db.keepsakes && j in db.keepsakes && db.keepsakes[k].shareToken == db.keepsakes[j].shareToken ==> k == j)
    && (forall k :: k in db.sends ==> db.sends[k].sentAt.Some? == db.sends[k].providerId.Some?)
  }

  ghost predicate Ledger(w: World) {
    && AtMostOnce(w.mails)
    && (forall k :: k in w.db.sends ==> w.db.sends[k].claimedAt <= w.clock)
    && (forall m, n :: m in w.mails && n in w.mails && m.id == n.id ==> m == n)
    && (forall m :: m in w.mails ==> m.k in w.db.keepsakes && m.at <= w.clock)
    && (forall m :: m in w.mails ==> KeyOf(w.db, m.k, m.to) in w.keys && w.keys[KeyOf(w.db, m.k, m.to)] == m)
    && (forall key :: key in w.keys ==> w.keys[key] in w.mails && KeyOf(w.db, w.keys[key].k, w.keys[key].to) == key)
  }

  ghost predicate RowCovers(db: Db, m: Mail)
    requires m.k in db.keepsakes
  {
    && m.k in db.sends
    && (Open(db.sends[m.k]) ==> db.sends[m.k].claimedAt <= m.at && SafeDonor(db, m.k, m.to))
    && (db.sends[m.k].providerId.Some? ==> db.sends[m.k].providerId.value == m.id)
  }

  /** Every mail that left is on the stop list, or its gift's row still answers for it. */
  ghost predicate Covered(w: World)
    requires Ledger(w)
  {
    && (forall m :: m in w.mails ==> IsSuppressed(w.db.suppressed, m.to) || RowCovers(w.db, m))
    && (forall k :: k in w.db.sends && w.db.sends[k].refusedCode == Some(Bounced) ==>
          w.db.sends[k].providerId.Some? && AllListed(w.mails, k, w.db.suppressed))
    && BouncesListed(w.db, w.mails)
  }

  ghost predicate OpenRow(w: World, k: int) {
    k in w.db.sends && Open(w.db.sends[k])
  }

  ghost predicate Pending(w: World, o: Owed) {
    && o.k in w.db.keepsakes
    && (o.k in w.db.sends ==> Open(w.db.sends[o.k]) && (Donor(w.db, o.k).Some? ==> SameAddress(Donor(w.db, o.k).value, o.to)))
    && (forall m :: m in w.mails && m.k == o.k ==>
          IsSuppressed(w.db.suppressed, m.to) || IsSuppressed(w.db.suppressed, o.to) || SameAddress(m.to, o.to))
  }

  /** The gift in hand: past the stop list, so mail that left for it went to this very address, under this row. */
  ghost predicate InHand(w: World, o: Owed) {
    && o.k in w.db.keepsakes
    && (forall m :: m in w.mails && m.k == o.k ==> IsSuppressed(w.db.suppressed, m.to) || SameAddress(m.to, o.to))
    && (forall m :: m in w.mails && m.k == o.k && SameAddress(m.to, o.to) ==>
          OpenRow(w, o.k) && w.db.sends[o.k].claimedAt <= m.at)
  }

  ghost predicate Rest(w: World, owed: seq<Owed>) {
    && OncePerKeepsake(owed)
    && (forall n :: 1 <= n < |owed| ==> Pending(w, owed[n]))
  }

  ghost predicate UnderClaim(w: World, now: int, o: Owed) {
    && InHand(w, o)
    && OpenRow(w, o.k)
    && now - w.db.sends[o.k].claimedAt <= CLAIM_WINDOW_MS
    && SafeClaim(w.db, o)
  }

  ghost predicate PcInv(w: World) {
    match w.pc
    case Idle => true
    case Walking(now, owed) => now <= w.clock && Rest(w, owed) && (owed != [] ==> Pending(w, owed[0]))
    case Checked(now, owed) =>
      && now <= w.clock && owed != [] && Rest(w, owed) && InHand(w, owed[0])
      && (owed[0].k in w.db.sends ==>
            Open(w.db.sends[owed[0].k]) && (Donor(w.db, owed[0].k).Some? ==> SameAddress(Donor(w.db, owed[0].k).value, owed[0].to)))
    case Claimed(now, owed, isNew) =>
      && now <= w.clock && owed != [] && Rest(w, owed) && UnderClaim(w, now, owed[0])
      && (isNew ==> AllListed(w.mails, owed[0].k, w.db.suppressed))
    case Answered(now, owed, isNew, result) =>
      && now <= w.clock && owed != [] && Rest(w, owed) && UnderClaim(w, now, owed[0])
      && (result.Sent? ==> exists m :: m in w.mails && m.k == owed[0].k && SameAddress(m.to, owed[0].to) && m.id == result.id)
      && (isNew && result.Failed? && result.left == No ==> AllListed(w.mails, owed[0].k, w.db.suppressed))
    case Settling(now, owed, id) => now <= w.clock && owed != [] && Rest(w, owed)
  }

  ghost predicate Inv(w: World) {
    Shape(w.db) && Ledger(w) && Covered(w) && PcInv(w)
  }

  // ---------- steps around the sweep ----------

  ghost predicate RowKept(w: World, v: World, k: int)
    requires k in w.db.sends
  {
    if k in v.db.sends then
      v.db.sends[k] == w.db.sends[k] ||
      (w.db.sends[k].providerId.Some? && v.db.sends[k] == w.db.sends[k].(refusedCode := Some(Bounced)) && AllListed(w.mails, k, v.db.suppressed))
    else
      w.db.sends[k].providerId.Some? && AllListed(w.mails, k, v.db.suppressed)
  }

  /** No row is reopened, invented or re-dated, and none is cleared whose mail could still go again. */
  ghost predicate RowsKept(w: World, v: World) {
    && v.db.sends.Keys <= w.db.sends.Keys
    && (forall k :: k in w.db.sends ==> RowKept(w, v, k))
  }

  /** Under an open row the address can be erased and never replaced. */
  ghost predicate DonorsKept(w: World, v: World) {
    && (forall k :: k in w.db.keepsakes ==> k in v.db.keepsakes && v.db.keepsakes[k] == w.db.keepsakes[k])
    && (forall k :: k in w.db.keepsakes && OpenRow(w, k) ==> Donor(v.db, k) == Donor(w.db, k) || Donor(v.db, k).None?)
  }

  ghost predicate BouncesListed(db: Db, mails: seq<Mail>) {
    forall s, m :: s in db.events && m in mails && Permanent(db.events[s].kind) && db.events[s].emailId == Some(m.id)
      ==> IsSuppressed(db.suppressed, m.to)
  }

  /** What every step outside the sweep does no more than. */
  ghost predicate Around(w: World, v: World) {
    && v.pc == w.pc && v.mails == w.mails && v.keys == w.keys && w.clock <= v.clock
    && w.db.suppressed <= v.db.suppressed
    && RowsKept(w, v) && DonorsKept(w, v) && BouncesListed(v.db, v.mails)
  }

  lemma AroundKeepsOpen(w: World, v: World, k: int)
    requires RowsKept(w, v) && OpenRow(w, k) && Shape(w.db)
    ensures OpenRow(v, k) && v.db.sends[k] == w.db.sends[k]
  {
  }

  lemma AroundKeepsPending(w: World, v: World, o: Owed)
    requires Around(w, v) && Shape(w.db) && Pending(w, o)
    ensures Pending(v, o)
  {
    if o.k in v.db.sends { AroundKeepsOpen(w, v, o.k); }
  }

  lemma AroundKeepsInHand(w: World, v: World, o: Owed)
    requires Around(w, v) && Shape(w.db) && InHand(w, o)
    ensures InHand(v, o)
  {
    if OpenRow(w, o.k) { AroundKeepsOpen(w, v, o.k); }
  }

  lemma AroundKeepsRest(w: World, v: World, owed: seq<Owed>)
    requires Around(w, v) && Shape(w.db) && Rest(w, owed)
    ensures Rest(v, owed)
  {
    forall n | 1 <= n < |owed| { AroundKeepsPending(w, v, owed[n]); }
  }

  lemma AroundKeepsPc(w: World, v: World)
    requires Around(w, v) && Shape(w.db) && PcInv(w)
    ensures PcInv(v)
  {
    if !w.pc.Idle? {
      AroundKeepsRest(w, v, w.pc.owed);
    }
    match w.pc
    case Walking(now, owed) => if owed != [] { AroundKeepsPending(w, v, owed[0]); }
    case Checked(now, owed) =>
      AroundKeepsInHand(w, v, owed[0]);
      if owed[0].k in v.db.sends { AroundKeepsOpen(w, v, owed[0].k); }
    case Claimed(now, owed, isNew) => AroundKeepsInHand(w, v, owed[0]); AroundKeepsOpen(w, v, owed[0].k);
    case Answered(now, owed, isNew, result) => AroundKeepsInHand(w, v, owed[0]); AroundKeepsOpen(w, v, owed[0].k);
    case _ =>
  }

  lemma AroundKeepsCovered(w: World, v: World)
    requires Around(w, v) && Shape(w.db) && Ledger(w) && Ledger(v) && Covered(w)
    ensures Covered(v)
  {
    forall m | m in v.mails ensures IsSuppressed(v.db.suppressed, m.to) || RowCovers(v.db, m) {
      if !IsSuppressed(v.db.suppressed, m.to) {
        assert RowCovers(w.db, m);
        assert m.k in v.db.sends;
        if OpenRow(w, m.k) { AroundKeepsOpen(w, v, m.k); }
      }
    }
  }

  lemma AroundKeepsInv(w: World, v: World)
    requires Inv(w) && Around(w, v) && Shape(v.db)
    ensures Inv(v)
  {
    AroundKeepsPc(w, v);
    AroundKeepsCovered(w, v);
  }
}
