/**
 The provider may report on a mail before the sweep has written its id, between that write and its
 settling, or after. For a gift whose address was not corrected meanwhile, every interleaving ends in
 the same tables.
 */
module MailEvents {
  import opened Prelude
  import opened Addresses
  import opened MailTables

  /** One webhook delivery: the svix id a retry keeps, and the event. */
  datatype Delivery = Delivery(svix: string, ev: Event)

  ghost function ReceiveAll(db: Db, ds: seq<Delivery>): Db {
    if ds == [] then db else Receive(ReceiveAll(db, ds[..|ds| - 1]), ds[|ds| - 1].svix, ds[|ds| - 1].ev).0
  }

  /** The events table after the deliveries: each svix id once, as first heard. */
  function Heard(events: map<string, EventRow>, ds: seq<Delivery>): map<string, EventRow> {
    if ds == [] then events
    else
      var before := Heard(events, ds[..|ds| - 1]);
      var d := ds[|ds| - 1];
      if d.svix in before then before else before[d.svix := EventRow(d.ev.kind, d.ev.emailId)]
  }

  /** The sent write, as the sweep makes it for a row it claimed. */
  function WriteSent(db: Db, k: int, e: MailId, t: int): Db {
    db.(sends := WriteOutcome(db.sends, k, false, Sent(e), t))
  }

  ghost predicate About(ds: seq<Delivery>, e: MailId, a: Address) {
    forall d :: d in ds ==> d.ev.emailId == Some(e) && d.ev.to == Some(a)
  }

  /** A claimed gift whose mail `e` to `a` is out and not yet written, and of which nothing was heard. */
  ghost predicate Out(db: Db, k: int, e: MailId) {
    && k in db.sends && Open(db.sends[k]) && k in db.keepsakes
    && (forall j :: j in db.sends ==> db.sends[j].providerId != Some(e))
    && (forall s :: s in db.events ==> db.events[s].emailId != Some(e))
  }

  function DonorAt(db: Db, k: int): Option<Address>
    requires k in db.keepsakes
  {
    DonorOf(db.intents, db.keepsakes[k].intentId)
  }

  predicate Uncorrected(db: Db, k: int, a: Address)
    requires k in db.keepsakes
  {
    DonorAt(db, k).Some? ==> SameAddress(DonorAt(db, k).value, a)
  }

  ghost predicate Hard(events: map<string, EventRow>, e: MailId) {
    exists s :: s in events && events[s].emailId == Some(e) && Permanent(events[s].kind)
  }

  ghost predicate Arrived(events: map<string, EventRow>, e: MailId) {
    exists s :: s in events && events[s].emailId == Some(e) && events[s].kind.Delivered?
  }

  ghost predicate Complaint(events: map<string, EventRow>, e: MailId) {
    exists s :: s in events && events[s].emailId == Some(e) && events[s].kind.Complained?
  }

  /** The tables when `hard` and `arrived` have reached the gift, and all of `events` the stop list. */
  ghost function Tables(db: Db, k: int, e: MailId, a: Address, t: Option<int>, hard: bool, arrived: bool,
      events: map<string, EventRow>): Db
    requires k in db.sends && k in db.keepsakes
  {
    var i := db.keepsakes[k].intentId;
    var erased := if hard then Erase(db.intents, i) else if arrived then EraseUnlessAccount(db.intents, i) else db.intents;
    Db(if Complaint(events, e) then EraseInbox(erased, InboxDigest(a)) else erased,
       db.keepsakes,
       if t.None? then db.sends
       else db.sends[k := db.sends[k].(sentAt := t, providerId := Some(e), refusedCode := if hard then Some(Bounced) else None)],
       db.suppressed + (if Hard(events, e) then {ExactDigest(a)} else {}) + (if Complaint(events, e) then {InboxDigest(a)} else {}),
       events)
  }

  /** The one outcome: a permanent bounce beats a delivery, a delivery spares an account holder, a soft bounce does nothing. */
  ghost function Settlement(db: Db, k: int, e: MailId, a: Address, t: int, events: map<string, EventRow>): Db
    requires k in db.sends && k in db.keepsakes
  {
    Tables(db, k, e, a, Some(t), Hard(events, e), Arrived(events, e), events)
  }

  lemma HeardKeeps(events: map<string, EventRow>, d: Delivery, e: MailId)
    requires d.ev.emailId == Some(e) && d.svix !in events
    ensures
      var after := events[d.svix := EventRow(d.ev.kind, d.ev.emailId)];
      && (Hard(after, e) <==> Hard(events, e) || Permanent(d.ev.kind))
      && (Arrived(after, e) <==> Arrived(events, e) || d.ev.kind.Delivered?)
      && (Complaint(after, e) <==> Complaint(events, e) || d.ev.kind.Complained?)
  {
    var after := events[d.svix := EventRow(d.ev.kind, d.ev.emailId)];
    assert forall s :: s in events ==> s in after && after[s] == events[s];
    assert d.svix in after;
  }

  /** Before the write no row carries the mail's id, so an event reaches the stop list and no gift. */
  lemma EarlyStep(db: Db, k: int, e: MailId, a: Address, events: map<string, EventRow>, d: Delivery)
    requires Out(db, k, e) && d.ev.emailId == Some(e) && d.ev.to == Some(a) && d.svix !in events
    ensures
      var now := Tables(db, k, e, a, None, false, false, events);
      Receive(now, d.svix, d.ev).0 == Tables(db, k, e, a, None, false, false, events[d.svix := EventRow(d.ev.kind, d.ev.emailId)])
  {
    HeardKeeps(events, d, e);
  }

  lemma WrittenIntent(db: Db, k: int, e: MailId, a: Address, t: int, hard: bool, arrived: bool,
      events: map<string, EventRow>)
    requires Out(db, k, e)
    ensures IntentOf(Tables(db, k, e, a, Some(t), hard, arrived, events), Some(e)) == Some(db.keepsakes[k].intentId)
  {
    assert Carries(Tables(db, k, e, a, Some(t), hard, arrived, events), k, e);
  }

  /** The three ways of erasing commute, and repeating one adds nothing. */
  lemma ErasuresCommute(intents: map<string, Intent>, i: string, d: Digest)
    ensures EraseInbox(Erase(intents, i), d) == Erase(EraseInbox(intents, d), i)
    ensures EraseInbox(EraseUnlessAccount(intents, i), d) == EraseUnlessAccount(EraseInbox(intents, d), i)
    ensures Erase(EraseUnlessAccount(intents, i), i) == Erase(intents, i)
    ensures EraseUnlessAccount(Erase(intents, i), i) == Erase(intents, i) == Erase(Erase(intents, i), i)
    ensures EraseUnlessAccount(EraseUnlessAccount(intents, i), i) == EraseUnlessAccount(intents, i)
    ensures EraseInbox(EraseInbox(intents, d), d) == EraseInbox(intents, d)
    ensures DonorOf(intents, i).None? ==> Erase(intents, i) == intents && EraseUnlessAccount(intents, i) == intents
  {
  }

  lemma MarksThisRow(db: Db, k: int, e: MailId, a: Address, t: int, hard: bool, arrived: bool,
      events: map<string, EventRow>)
    requires Out(db, k, e)
    ensures MarkBounced(Tables(db, k, e, a, Some(t), hard, arrived, events).sends, e)
         == Tables(db, k, e, a, Some(t), true, arrived, events).sends
  {
    var now := Tables(db, k, e, a, Some(t), hard, arrived, events).sends;
    var want := Tables(db, k, e, a, Some(t), true, arrived, events).sends;
    forall j | j in want ensures j in now && MarkBounced(now, e)[j] == want[j] {
      assert j != k ==> want[j] == db.sends[j];
    }
    assert MarkBounced(now, e).Keys == want.Keys;
  }

  /** What an event can do to the gift's own address, given where it stands. */
  lemma LateAddress(db: Db, k: int, e: MailId, a: Address, t: int, hard: bool, arrived: bool, events: map<string, EventRow>)
    requires Out(db, k, e) && Uncorrected(db, k, a)
    ensures
      var i := db.keepsakes[k].intentId;
      var now := Tables(db, k, e, a, Some(t), hard, arrived, events);
      && (DonorOf(now.intents, i).Some? ==> DonorOf(now.intents, i).value == a)
      && Erase(now.intents, i) == Tables(db, k, e, a, Some(t), true, arrived, events).intents
      && EraseUnlessAccount(now.intents, i) == Tables(db, k, e, a, Some(t), hard, true, events).intents
      && (DonorOf(now.intents, i).None? ==> now.intents == Tables(db, k, e, a, Some(t), hard, true, events).intents)
  {
    var i := db.keepsakes[k].intentId;
    ErasuresCommute(db.intents, i, InboxDigest(a));
    ErasuresCommute(EraseInbox(db.intents, InboxDigest(a)), i, InboxDigest(a));
    ErasuresCommute(Tables(db, k, e, a, Some(t), hard, arrived, events).intents, i, InboxDigest(a));
  }

  lemma LateComplaint(db: Db, k: int, e: MailId, a: Address, t: int, hard: bool, arrived: bool,
      events: map<string, EventRow>, events': map<string, EventRow>)
    requires Out(db, k, e) && Complaint(events', e)
    ensures EraseInbox(Tables(db, k, e, a, Some(t), hard, arrived, events).intents, InboxDigest(a))
         == Tables(db, k, e, a, Some(t), hard, arrived, events').intents
  {
    var i := db.keepsakes[k].intentId;
    var erased := if hard then Erase(db.intents, i) else if arrived then EraseUnlessAccount(db.intents, i) else db.intents;
    ErasuresCommute(erased, i, InboxDigest(a));
  }

  lemma LateBounce(db: Db, k: int, e: MailId, a: Address, t: int, hard: bool, arrived: bool,
      events: map<string, EventRow>, d: Delivery)
    requires Out(db, k, e) && Uncorrected(db, k, a) && Permanent(d.ev.kind)
    requires d.ev.emailId == Some(e) && d.ev.to == Some(a) && d.svix !in events
    ensures
      Receive(Tables(db, k, e, a, Some(t), hard, arrived, events), d.svix, d.ev).0
      == Tables(db, k, e, a, Some(t), true, arrived, events[d.svix := EventRow(d.ev.kind, d.ev.emailId)])
  {
    HeardKeeps(events, d, e);
    WrittenIntent(db, k, e, a, t, hard, arrived, events);
    MarksThisRow(db, k, e, a, t, hard, arrived, events);
    LateAddress(db, k, e, a, t, hard, arrived, events);
  }

  lemma LateDelivered(db: Db, k: int, e: MailId, a: Address, t: int, hard: bool, arrived: bool,
      events: map<string, EventRow>, d: Delivery)
    requires Out(db, k, e) && Uncorrected(db, k, a) && d.ev.kind.Delivered?
    requires d.ev.emailId == Some(e) && d.ev.to == Some(a) && d.svix !in events
    ensures
      Receive(Tables(db, k, e, a, Some(t), hard, arrived, events), d.svix, d.ev).0
      == Tables(db, k, e, a, Some(t), hard, true, events[d.svix := EventRow(d.ev.kind, d.ev.emailId)])
  {
    HeardKeeps(events, d, e);
    WrittenIntent(db, k, e, a, t, hard, arrived, events);
    LateAddress(db, k, e, a, t, hard, arrived, events);
  }

  /** The rest reach no gift by its mail: a complaint stops the inbox. */
  lemma LateOther(db: Db, k: int, e: MailId, a: Address, t: int, hard: bool, arrived: bool,
      events: map<string, EventRow>, d: Delivery)
    requires Out(db, k, e) && !Permanent(d.ev.kind) && !d.ev.kind.Delivered?
    requires d.ev.emailId == Some(e) && d.ev.to == Some(a) && d.svix !in events
    ensures
      Receive(Tables(db, k, e, a, Some(t), hard, arrived, events), d.svix, d.ev).0
      == Tables(db, k, e, a, Some(t), hard, arrived, events[d.svix := EventRow(d.ev.kind, d.ev.emailId)])
  {
    HeardKeeps(events, d, e);
    if d.ev.kind.Complained? { LateComplaint(db, k, e, a, t, hard, arrived, events, events[d.svix := EventRow(d.ev.kind, d.ev.emailId)]); }
  }

  lemma LateStep(db: Db, k: int, e: MailId, a: Address, t: int, hard: bool, arrived: bool,
      events: map<string, EventRow>, d: Delivery)
    requires Out(db, k, e) && Uncorrected(db, k, a)
    requires d.ev.emailId == Some(e) && d.ev.to == Some(a) && d.svix !in events
    ensures
      var now := Tables(db, k, e, a, Some(t), hard, arrived, events);
      var after := Tables(db, k, e, a, Some(t), hard || Permanent(d.ev.kind), arrived || d.ev.kind.Delivered?,
                          events[d.svix := EventRow(d.ev.kind, d.ev.emailId)]);
      Receive(now, d.svix, d.ev).0 == after
  {
    if Permanent(d.ev.kind) { LateBounce(db, k, e, a, t, hard, arrived, events, d); }
    else if d.ev.kind.Delivered? { LateDelivered(db, k, e, a, t, hard, arrived, events, d); }
    else { LateOther(db, k, e, a, t, hard, arrived, events, d); }
  }

  lemma EarlyHeard(events: map<string, EventRow>, e: MailId)
    ensures (exists s :: s in events && Early(events[s], e)) <==> Hard(events, e) || Arrived(events, e)
    ensures (exists s :: s in events && Early(events[s], e) && !events[s].kind.Delivered?) <==> Hard(events, e)
  {
    if s :| s in events && events[s].emailId == Some(e) && Permanent(events[s].kind) { assert Early(events[s], e); }
    if s :| s in events && events[s].emailId == Some(e) && events[s].kind.Delivered? { assert Early(events[s], e); }
  }

  lemma SettleStep(db: Db, k: int, e: MailId, a: Address, t: int, hard: bool, arrived: bool, events: map<string, EventRow>)
    requires Out(db, k, e) && Uncorrected(db, k, a)
    requires (hard ==> Hard(events, e)) && (arrived ==> Arrived(events, e))
    ensures SettleEarly(Tables(db, k, e, a, Some(t), hard, arrived, events), e, a).0 == Settlement(db, k, e, a, t, events)
  {
    WrittenIntent(db, k, e, a, t, hard, arrived, events);
    MarksThisRow(db, k, e, a, t, hard, arrived, events);
    LateAddress(db, k, e, a, t, hard, arrived, events);
    EarlyHeard(events, e);
  }

  lemma {:induction false} EarlyRun(db: Db, k: int, e: MailId, a: Address, ds: seq<Delivery>)
    requires Out(db, k, e) && About(ds, e, a)
    ensures ReceiveAll(db, ds) == Tables(db, k, e, a, None, false, false, Heard(db.events, ds))
  {
    if ds != [] {
      var d := ds[|ds| - 1];
      EarlyRun(db, k, e, a, ds[..|ds| - 1]);
      var events := Heard(db.events, ds[..|ds| - 1]);
      if d.svix !in events { EarlyStep(db, k, e, a, events, d); }
    }
  }

  lemma {:induction false} LateRun(db: Db, k: int, e: MailId, a: Address, t: int, hard: bool, arrived: bool,
      events: map<string, EventRow>, ds: seq<Delivery>)
    returns (h: bool, r: bool)
    requires Out(db, k, e) && Uncorrected(db, k, a) && About(ds, e, a)
    requires (hard ==> Hard(events, e)) && (arrived ==> Arrived(events, e))
    ensures ReceiveAll(Tables(db, k, e, a, Some(t), hard, arrived, events), ds) == Tables(db, k, e, a, Some(t), h, r, Heard(events, ds))
    ensures (h ==> Hard(Heard(events, ds), e)) && (r ==> Arrived(Heard(events, ds), e))
    ensures hard == Hard(events, e) && arrived == Arrived(events, e) ==> h == Hard(Heard(events, ds), e) && r == Arrived(Heard(events, ds), e)
  {
    h, r := hard, arrived;
    if ds != [] {
      var d := ds[|ds| - 1];
      h, r := LateRun(db, k, e, a, t, hard, arrived, events, ds[..|ds| - 1]);
      var heard := Heard(events, ds[..|ds| - 1]);
      if d.svix !in heard {
        LateStep(db, k, e, a, t, h, r, heard, d);
        HeardKeeps(heard, d, e);
        h, r := h || Permanent(d.ev.kind), r || d.ev.kind.Delivered?;
      }
    }
  }

  /** The sweep's write and settle, with deliveries before, between and after. */
  ghost function Interleaved(db: Db, k: int, e: MailId, a: Address, t: int, pre: seq<Delivery>, mid: seq<Delivery>,
      post: seq<Delivery>): Db {
    ReceiveAll(SettleEarly(ReceiveAll(WriteSent(ReceiveAll(db, pre), k, e, t), mid), e, a).0, post)
  }

  /** Wherever the write and the settling fall among a mail's events, the tables end the same. */
  lemma EveryInterleavingSettles(db: Db, k: int, e: MailId, a: Address, t: int, pre: seq<Delivery>, mid: seq<Delivery>,
      post: seq<Delivery>)
    requires Out(db, k, e) && Uncorrected(db, k, a) && About(pre, e, a) && About(mid, e, a) && About(post, e, a)
    ensures Interleaved(db, k, e, a, t, pre, mid, post)
         == Settlement(db, k, e, a, t, Heard(Heard(Heard(db.events, pre), mid), post))
  {
    EarlyRun(db, k, e, a, pre);
    var early := Heard(db.events, pre);
    assert WriteSent(ReceiveAll(db, pre), k, e, t) == Tables(db, k, e, a, Some(t), false, false, early);
    var h, r := LateRun(db, k, e, a, t, false, false, early, mid);
    var middle := Heard(early, mid);
    SettleStep(db, k, e, a, t, h, r, middle);
    var h', r' := LateRun(db, k, e, a, t, Hard(middle, e), Arrived(middle, e), middle, post);
  }

  // ---------- the same deliveries in another order ----------

  /** A retry keeps its svix id and its event. */
  ghost predicate Consistent(ds: seq<Delivery>) {
    forall c, d :: c in ds && d in ds && c.svix == d.svix ==> c.ev == d.ev
  }

  lemma {:induction false} HeardAre(events: map<string, EventRow>, ds: seq<Delivery>)
    requires Consistent(ds)
    ensures forall s :: s in Heard(events, ds) <==> s in events || exists d :: d in ds && d.svix == s
    ensures forall s :: s in events ==> Heard(events, ds)[s] == events[s]
    ensures forall d :: d in ds && d.svix !in events ==> Heard(events, ds)[d.svix] == EventRow(d.ev.kind, d.ev.emailId)
  {
    if ds != [] {
      var init, last := ds[..|ds| - 1], ds[|ds| - 1];
      assert ds == init + [last];
      HeardAre(events, init);
      var before := Heard(events, init);
      assert Heard(events, ds) == if last.svix in before then before else before[last.svix := EventRow(last.ev.kind, last.ev.emailId)];
      forall s ensures s in Heard(events, ds) <==> s in events || exists d :: d in ds && d.svix == s {
        if d :| d in init && d.svix == s { assert d in ds; }
        if s == last.svix { assert last in ds; }
      }
    }
  }

  lemma {:induction false} HeardConcat(events: map<string, EventRow>, c: seq<Delivery>, d: seq<Delivery>)
    ensures Heard(events, c + d) == Heard(Heard(events, c), d)
  {
    if d == [] {
      assert c + d == c;
    } else {
      assert (c + d)[..|c + d| - 1] == c + d[..|d| - 1];
      HeardConcat(events, c, d[..|d| - 1]);
    }
  }

  lemma HeardForgetsOrder(events: map<string, EventRow>, c: seq<Delivery>, d: seq<Delivery>)
    requires Consistent(c) && (forall x :: x in c <==> x in d)
    ensures Heard(events, c) == Heard(events, d)
  {
    HeardAre(events, c);
    HeardAre(events, d);
    forall s | s in Heard(events, c) ensures s in Heard(events, d) && Heard(events, d)[s] == Heard(events, c)[s] {
      if s !in events { var x :| x in c && x.svix == s; }
    }
  }

  lemma InterleavedBy(db: Db, k: int, e: MailId, a: Address, t: int, pre: seq<Delivery>, mid: seq<Delivery>,
      post: seq<Delivery>)
    requires Out(db, k, e) && Uncorrected(db, k, a) && About(pre + mid + post, e, a)
    ensures Interleaved(db, k, e, a, t, pre, mid, post) == Settlement(db, k, e, a, t, Heard(db.events, pre + mid + post))
  {
    var all := pre + mid + post;
    assert forall d :: d in pre || d in mid || d in post ==> d in all;
    EveryInterleavingSettles(db, k, e, a, t, pre, mid, post);
    HeardConcat(db.events, pre, mid);
    HeardConcat(db.events, pre + mid, post);
  }

  /** Two interleavings of the same deliveries, repeats and all, end in the same tables, events included. */
  lemma EarlyAndLateAgree(db: Db, k: int, e: MailId, a: Address, t: int,
                          pre: seq<Delivery>, mid: seq<Delivery>, post: seq<Delivery>,
                          pre': seq<Delivery>, mid': seq<Delivery>, post': seq<Delivery>)
    requires Out(db, k, e) && Uncorrected(db, k, a)
    requires About(pre + mid + post, e, a) && Consistent(pre + mid + post)
    requires forall d :: d in pre + mid + post <==> d in pre' + mid' + post'
    ensures Interleaved(db, k, e, a, t, pre, mid, post) == Interleaved(db, k, e, a, t, pre', mid', post')
  {
    InterleavedBy(db, k, e, a, t, pre, mid, post);
    InterleavedBy(db, k, e, a, t, pre', mid', post');
    HeardForgetsOrder(db.events, pre + mid + post, pre' + mid' + post');
  }

  // ---------- where the two paths part ----------

  /** A hard bounce heard early and the same bounce heard late end alike exactly when the address was not corrected. */
  lemma HardBounceAgreesExactly(db: Db, k: int, e: MailId, a: Address, t: int, svix: string, ev: Event)
    requires Out(db, k, e) && svix !in db.events
    requires Permanent(ev.kind) && ev.emailId == Some(e) && ev.to == Some(a)
    ensures
      var d := [Delivery(svix, ev)];
      Interleaved(db, k, e, a, t, d, [], []) == Interleaved(db, k, e, a, t, [], [], d) <==> Uncorrected(db, k, a)
  {
    var d := [Delivery(svix, ev)];
    if Uncorrected(db, k, a) {
      EarlyAndLateAgree(db, k, e, a, t, d, [], [], [], [], d);
    } else {
      CorrectedBounceParts(db, k, e, a, t, svix, ev);
    }
  }

  /** With a newer address, the early path keeps a bounced row and the late path clears it to mail that address. */
  lemma CorrectedBounceParts(db: Db, k: int, e: MailId, a: Address, t: int, svix: string, ev: Event)
    requires Out(db, k, e) && svix !in db.events && !Uncorrected(db, k, a)
    requires Permanent(ev.kind) && ev.emailId == Some(e) && ev.to == Some(a)
    ensures
      var d := [Delivery(svix, ev)];
      var early := Interleaved(db, k, e, a, t, d, [], []);
      && k in early.sends && early.sends[k].refusedCode == Some(Bounced)
      && k !in Interleaved(db, k, e, a, t, [], [], d).sends
  {
    var d := [Delivery(svix, ev)];
    assert d[..0] == [] && ReceiveAll(db, d) == Receive(db, svix, ev).0;
    var written := WriteSent(Receive(db, svix, ev).0, k, e, t);
    assert Carries(written, k, e) && Early(written.events[svix], e);
    var plain := WriteSent(db, k, e, t);
    assert Carries(plain, k, e) && SettleEarly(plain, e, a).0 == plain;
    assert ReceiveAll(plain, d) == Receive(plain, svix, ev).0;
  }

  /** A crash right after the write: no settling, and nothing since. */
  ghost function Unsettled(db: Db, k: int, e: MailId, t: int, pre: seq<Delivery>): Db { WriteSent(ReceiveAll(db, pre), k, e, t) }

  /** Without the settling, an early bounce never reaches the gift: the address stays, and the row reads as sent. */
  lemma EarlyBounceNeedsSettling(db: Db, k: int, e: MailId, a: Address, t: int, pre: seq<Delivery>)
    requires Out(db, k, e) && About(pre, e, a) && Hard(Heard(db.events, pre), e) && !Complaint(Heard(db.events, pre), e)
    ensures
      var v := Unsettled(db, k, e, t, pre);
      && ExactDigest(a) in v.suppressed
      && k in v.sends && v.sends[k].sentAt == Some(t) && v.sends[k].refusedCode.None? && v.intents == db.intents
  {
    EarlyRun(db, k, e, a, pre);
  }

  /** An address a delivery erases: still the one mailed, and no account holder's. */
  predicate Erasable(db: Db, k: int, a: Address)
    requires k in db.keepsakes
  {
    DonorAt(db, k).Some? && SameAddress(DonorAt(db, k).value, a) && !db.intents[db.keepsakes[k].intentId].hasAccount
  }

  /**
   A settling skipped by a crash loses something exactly when a hard bounce came early, or a delivery did and the gift still holds the
   address mailed without an account.
   */
  lemma SettlingMattersExactly(db: Db, k: int, e: MailId, a: Address, t: int, pre: seq<Delivery>)
    requires Out(db, k, e) && About(pre, e, a)
    ensures
      var v := Unsettled(db, k, e, t, pre);
      k in v.keepsakes &&
      (SettleEarly(v, e, a).0 != v <==> Hard(v.events, e) || (Arrived(v.events, e) && Erasable(v, k, a)))
  {
    EarlyRun(db, k, e, a, pre);
    var v, events := Unsettled(db, k, e, t, pre), Heard(db.events, pre);
    assert v == Tables(db, k, e, a, Some(t), false, false, events);
    WrittenIntent(db, k, e, a, t, false, false, events);
    EarlyHeard(events, e);
    assert v.sends[k].providerId == Some(e) && v.sends[k].refusedCode.None?;
    assert Hard(events, e) ==> MarkBounced(v.sends, e)[k].refusedCode == Some(Bounced);
  }

  /** And no retry makes up for it: their svix ids are spent. */
  lemma {:induction false} RetriesDoNothing(db: Db, ds: seq<Delivery>)
    requires forall d :: d in ds ==> d.svix in db.events
    ensures ReceiveAll(db, ds) == db
  {
    if ds != [] { RetriesDoNothing(db, ds[..|ds| - 1]); }
  }

  lemma {:induction false} HeardSpends(events: map<string, EventRow>, ds: seq<Delivery>)
    ensures forall s :: s in events ==> s in Heard(events, ds)
    ensures forall d :: d in ds ==> d.svix in Heard(events, ds)
  {
    if ds != [] {
      assert ds == ds[..|ds| - 1] + [ds[|ds| - 1]];
      HeardSpends(events, ds[..|ds| - 1]);
    }
  }

  lemma SkippedSettlingIsFinal(db: Db, k: int, e: MailId, a: Address, t: int, pre: seq<Delivery>, retries: seq<Delivery>)
    requires Out(db, k, e) && About(pre, e, a) && forall d :: d in retries ==> d in pre
    ensures ReceiveAll(Unsettled(db, k, e, t, pre), retries) == Unsettled(db, k, e, t, pre)
  {
    EarlyRun(db, k, e, a, pre);
    HeardSpends(db.events, pre);
    RetriesDoNothing(Unsettled(db, k, e, t, pre), retries);
  }
}
