/** Every step of the protocol keeps the invariant, so guarded runs mail each pair of gift and address at most once. */
module MailSafety {
  import opened Prelude
  import opened Addresses
  import opened MailTables
  import opened MailProtocol

  // ---------- around the sweep ----------

  lemma BounceLists(w: World, ev: Event, k: int, listed: set<Digest>)
    requires Ledger(w) && Covered(w) && Genuine(w, ev) && Permanent(ev.kind) && ev.emailId.Some?
    requires k in w.db.sends && w.db.sends[k].providerId == ev.emailId
    requires ev.to.Some? && listed == w.db.suppressed + {ExactDigest(ev.to.value)}
    ensures AllListed(w.mails, k, listed)
  {
    forall m | m in w.mails && m.k == k ensures IsSuppressed(listed, m.to) {
      if !IsSuppressed(w.db.suppressed, m.to) {
        assert RowCovers(w.db, m);
      }
    }
  }

  lemma HearRows(w: World, svix: string, ev: Event)
    requires Ledger(w) && Covered(w) && Genuine(w, ev)
    ensures RowsKept(w, Apply(w, Hear(svix, ev)))
  {
    var v := Apply(w, Hear(svix, ev));
    forall k | k in w.db.sends ensures RowKept(w, v, k) {
      if svix !in w.db.events && Permanent(ev.kind) && ev.emailId.Some? && w.db.sends[k].providerId == ev.emailId {
        BounceLists(w, ev, k, v.db.suppressed);
      }
    }
  }

  /** A bounce lists the address it names, and takes nobody off the list. */
  lemma ReceiveLists(db: Db, svix: string, ev: Event)
    ensures
      var v := Receive(db, svix, ev).0;
      && db.suppressed <= v.suppressed
      && v.events == (if svix in db.events then db.events else db.events[svix := EventRow(ev.kind, ev.emailId)])
      && (svix !in db.events && Permanent(ev.kind) && ev.to.Some? ==> ExactDigest(ev.to.value) in v.suppressed)
  {
  }

  /** Of the mail a genuine bounce names, this is the one. */
  lemma NamesThisMail(w: World, ev: Event, m: Mail)
    requires Ledger(w) && Genuine(w, ev) && Permanent(ev.kind) && m in w.mails && ev.emailId == Some(m.id)
    ensures ev.to == Some(m.to)
  {
  }

  lemma HearBounces(w: World, svix: string, ev: Event)
    requires Ledger(w) && BouncesListed(w.db, w.mails) && Genuine(w, ev)
    ensures BouncesListed(Receive(w.db, svix, ev).0, w.mails)
  {
    var v := Receive(w.db, svix, ev).0;
    ReceiveLists(w.db, svix, ev);
    forall s, m | s in v.events && m in w.mails && Permanent(v.events[s].kind) && v.events[s].emailId == Some(m.id)
      ensures IsSuppressed(v.suppressed, m.to)
    {
      if s in w.db.events && v.events[s] == w.db.events[s] { assert IsSuppressed(w.db.suppressed, m.to); } else { NamesThisMail(w, ev, m); }
    }
  }

  /** An event can erase an address, and sets none. */
  lemma ReceiveErases(db: Db, svix: string, ev: Event)
    ensures
      var v := Receive(db, svix, ev).0;
      v.keepsakes == db.keepsakes && forall i :: DonorOf(v.intents, i) == DonorOf(db.intents, i) || DonorOf(v.intents, i).None?
  {
  }

  lemma HearDonors(w: World, svix: string, ev: Event)
    requires Genuine(w, ev)
    ensures DonorsKept(w, Apply(w, Hear(svix, ev)))
  {
    ReceiveErases(w.db, svix, ev);
  }

  lemma HearAround(w: World, svix: string, ev: Event)
    requires Ledger(w) && Covered(w) && Genuine(w, ev)
    ensures Around(w, Apply(w, Hear(svix, ev)))
  {
    HearRows(w, svix, ev);
    HearDonors(w, svix, ev);
    HearBounces(w, svix, ev);
    ReceiveLists(w.db, svix, ev);
  }

  lemma ReceiveKeeps(db: Db, svix: string, ev: Event)
    ensures
      var v := Receive(db, svix, ev).0;
      && v.keepsakes == db.keepsakes && v.intents.Keys == db.intents.Keys && v.sends.Keys <= db.sends.Keys
      && (forall k :: k in v.sends ==> v.sends[k].sentAt == db.sends[k].sentAt && v.sends[k].providerId == db.sends[k].providerId)
  {
  }

  lemma HearShape(w: World, svix: string, ev: Event)
    requires Shape(w.db) && Genuine(w, ev)
    ensures Shape(Apply(w, Hear(svix, ev)).db)
  {
    ReceiveKeeps(w.db, svix, ev);
    var v := Apply(w, Hear(svix, ev));
    assert v.db == Receive(w.db, svix, ev).0;
  }

  /** Every mail of a bounced row's gift is on the stop list. */
  ghost predicate BouncedListed(w: World) {
    forall k :: k in w.db.sends && w.db.sends[k].refusedCode == Some(Bounced) ==>
      w.db.sends[k].providerId.Some? && AllListed(w.mails, k, w.db.suppressed)
  }

  /** The one row a gift can have decides what a correction does. */
  lemma FixedRow(db: Db, i: string, k: int)
    requires Shape(db) && k in db.sends && db.keepsakes[k].intentId == i
    ensures StateOf(db, i).BouncedState? <==> db.sends[k].refusedCode == Some(Bounced)
    ensures !StateOf(db, i).NotSent?
  {
  }

  lemma FixRows(w: World, i: string, a: Address)
    requires Shape(w.db) && BouncedListed(w)
    ensures RowsKept(w, Apply(w, Fix(i, a)))
  {
    var v := Apply(w, Fix(i, a));
    forall k | k in w.db.sends ensures RowKept(w, v, k) {
      if w.db.keepsakes[k].intentId == i { FixedRow(w.db, i, k); }
    }
  }

  /** The address of a gift whose mail is under way stays. */
  lemma FixKeepsOpen(w: World, i: string, a: Address, k: int)
    requires Shape(w.db) && OpenRow(w, k)
    ensures Donor(Apply(w, Fix(i, a)).db, k) == Donor(w.db, k)
  {
    if w.db.keepsakes[k].intentId == i { FixedRow(w.db, i, k); }
  }

  lemma FixDonors(w: World, i: string, a: Address)
    requires Shape(w.db)
    ensures DonorsKept(w, Apply(w, Fix(i, a)))
  {
    CorrectKeeps(w.db, i, a);
    forall k | k in w.db.keepsakes && OpenRow(w, k) ensures Donor(Apply(w, Fix(i, a)).db, k) == Donor(w.db, k) {
      FixKeepsOpen(w, i, a, k);
    }
  }

  lemma FixAround(w: World, i: string, a: Address)
    requires Shape(w.db) && BouncesListed(w.db, w.mails) && BouncedListed(w)
    ensures Around(w, Apply(w, Fix(i, a)))
  {
    FixRows(w, i, a);
    FixDonors(w, i, a);
  }

  lemma CorrectKeeps(db: Db, i: string, a: Address)
    ensures
      var v := Correct(db, i, a).0;
      && v.keepsakes == db.keepsakes && v.intents.Keys == db.intents.Keys && v.sends.Keys <= db.sends.Keys
      && (forall k :: k in v.sends ==> v.sends[k] == db.sends[k])
  {
  }

  lemma FixShape(w: World, i: string, a: Address)
    requires Shape(w.db)
    ensures Shape(Apply(w, Fix(i, a)).db)
  {
    CorrectKeeps(w.db, i, a);
  }

  lemma StopAround(w: World, inbox: string)
    requires Inv(w)
    ensures Around(w, Apply(w, Stop(inbox))) && Shape(Apply(w, Stop(inbox)).db)
  {
  }

  lemma AbandonAround(w: World, asOf: int)
    requires Inv(w)
    ensures Around(w, Apply(w, Abandon(asOf))) && Shape(Apply(w, Abandon(asOf)).db)
  {
  }

  lemma GiftAround(w: World, a: Action)
    requires Inv(w) && a.Gift? && Enabled(w, a)
    ensures Around(w, Apply(w, a)) && Shape(Apply(w, a).db)
  {
  }

  // ---------- the sweep ----------

  lemma LoadKeepsInv(w: World, owed: seq<Owed>)
    requires Inv(w) && Enabled(w, Load(owed))
    ensures Inv(Apply(w, Load(owed)))
  {
    var v := Apply(w, Load(owed));
    forall o | o in owed ensures Pending(v, o) {
      assert IsOwed(w.db, o);
      forall m | m in v.mails && m.k == o.k
        ensures IsSuppressed(v.db.suppressed, m.to) || IsSuppressed(v.db.suppressed, o.to) || SameAddress(m.to, o.to)
      {
        if !IsSuppressed(v.db.suppressed, m.to) { assert RowCovers(w.db, m); }
      }
    }
    assert Rest(v, owed);
  }

  lemma RestTail(w: World, owed: seq<Owed>)
    requires owed != [] && Rest(w, owed)
    ensures Rest(w, owed[1..]) && (owed[1..] != [] ==> Pending(w, owed[1..][0]))
  {
    var t := owed[1..];
    assert forall n :: 0 <= n < |t| ==> t[n] == owed[n + 1];
  }

  lemma CheckKeepsInv(w: World)
    requires Inv(w) && Enabled(w, CheckNext)
    ensures Inv(Apply(w, CheckNext))
  {
    var v := Apply(w, CheckNext);
    var o := w.pc.owed[0];
    RestTail(w, w.pc.owed);
    assert forall p :: Pending(w, p) ==> Pending(v, p);
    if v.pc.Checked? {
      forall m | m in v.mails && m.k == o.k && SameAddress(m.to, o.to)
        ensures OpenRow(v, o.k) && v.db.sends[o.k].claimedAt <= m.at
      {
        assert IsSuppressed(w.db.suppressed, m.to) == IsSuppressed(w.db.suppressed, o.to);
        assert RowCovers(w.db, m);
      }
      assert InHand(v, o);
    }
  }

  /** A row changed for the gift in hand alone leaves the gifts still to come as they were. */
  lemma OtherGiftsPending(w: World, v: World, owed: seq<Owed>)
    requires owed != [] && Rest(w, owed)
    requires v.db.keepsakes == w.db.keepsakes && v.db.intents == w.db.intents && v.db.suppressed == w.db.suppressed
    requires forall k :: k != owed[0].k ==> (k in v.db.sends <==> k in w.db.sends) && (k in w.db.sends ==> v.db.sends[k] == w.db.sends[k])
    requires forall m :: m in v.mails && m.k != owed[0].k ==> m in w.mails
    ensures Rest(v, owed)
  {
    forall n | 1 <= n < |owed| ensures Pending(v, owed[n]) {
      assert Pending(w, owed[n]) && owed[n].k != owed[0].k;
    }
  }

  lemma ClaimCovers(w: World, m: Mail)
    requires Inv(w) && Enabled(w, TakeClaim) && m in w.mails && !IsSuppressed(w.db.suppressed, m.to)
    ensures RowCovers(Apply(w, TakeClaim).db, m) && m.k in w.db.sends
  {
    assert RowCovers(w.db, m);
  }

  lemma ClaimKeepsShape(w: World)
    requires Shape(w.db) && PcInv(w) && Enabled(w, TakeClaim)
    ensures Shape(Apply(w, TakeClaim).db)
  {
  }

  lemma ClaimKeepsLedger(w: World)
    requires Ledger(w) && PcInv(w) && Enabled(w, TakeClaim)
    ensures Ledger(Apply(w, TakeClaim))
  {
  }

  lemma ClaimKeepsBounced(w: World)
    requires BouncedListed(w) && Enabled(w, TakeClaim)
    ensures BouncedListed(Apply(w, TakeClaim))
  {
  }

  lemma ClaimCovered(w: World)
    requires Inv(w) && Enabled(w, TakeClaim)
    ensures Ledger(Apply(w, TakeClaim)) && Covered(Apply(w, TakeClaim)) && Shape(Apply(w, TakeClaim).db)
  {
    var v := Apply(w, TakeClaim);
    ClaimKeepsShape(w);
    ClaimKeepsLedger(w);
    assert BouncedListed(w);
    ClaimKeepsBounced(w);
    forall m | m in v.mails ensures IsSuppressed(v.db.suppressed, m.to) || RowCovers(v.db, m) {
      if !IsSuppressed(w.db.suppressed, m.to) { ClaimCovers(w, m); }
    }
  }

  /** Before a gift's first claim, every mail it ever sent is on the stop list. */
  lemma NewClaimListed(w: World)
    requires Inv(w) && Enabled(w, TakeClaim) && w.pc.owed[0].k !in w.db.sends
    ensures AllListed(w.mails, w.pc.owed[0].k, w.db.suppressed)
  {
    forall m | m in w.mails && m.k == w.pc.owed[0].k ensures IsSuppressed(w.db.suppressed, m.to) { CoveredMail(w, m); }
  }

  lemma CoveredMail(w: World, m: Mail)
    requires Ledger(w) && Covered(w) && m in w.mails
    ensures m.k in w.db.keepsakes && (IsSuppressed(w.db.suppressed, m.to) || RowCovers(w.db, m))
  {
  }

  lemma ClaimOpens(w: World)
    requires PcInv(w) && Enabled(w, TakeClaim) && SafeClaim(w.db, w.pc.owed[0])
    ensures
      var v := Apply(w, TakeClaim);
      && Rest(v, w.pc.owed) && v.db == w.db.(sends := v.db.sends)
      && (v.pc.Claimed? ==> UnderClaim(v, w.pc.now, w.pc.owed[0]))
  {
    OtherGiftsPending(w, Apply(w, TakeClaim), w.pc.owed);
  }

  lemma ClaimPc(w: World)
    requires PcInv(w) && Enabled(w, TakeClaim) && SafeClaim(w.db, w.pc.owed[0])
    requires w.pc.owed[0].k !in w.db.sends ==> AllListed(w.mails, w.pc.owed[0].k, w.db.suppressed)
    ensures PcInv(Apply(w, TakeClaim))
  {
    ClaimOpens(w);
    RestTail(Apply(w, TakeClaim), w.pc.owed);
  }

  lemma ClaimKeepsInv(w: World)
    requires Inv(w) && Enabled(w, TakeClaim) && SafeClaim(w.db, w.pc.owed[0])
    ensures Inv(Apply(w, TakeClaim))
  {
    ClaimCovered(w);
    if w.pc.owed[0].k !in w.db.sends { NewClaimListed(w); }
    ClaimPc(w);
  }

  /** The time bound: within the hour the window leaves, the provider still holds the key of any mail that left. */
  lemma KeyStillHeld(w: World, m: Mail)
    requires Inv(w) && w.pc.Claimed? && w.clock - w.pc.now < HOUR
    requires m in w.mails && m.k == w.pc.owed[0].k && SameAddress(m.to, w.pc.owed[0].to)
    ensures KeyOf(w.db, w.pc.owed[0].k, w.pc.owed[0].to) == KeyOf(w.db, m.k, m.to)
    ensures Remembered(w, KeyOf(w.db, m.k, m.to))
  {
  }

  /** A mail with an id, a pair and a key of its own joins the ledger. */
  lemma LedgerGrows(w: World, mail: Mail)
    requires Ledger(w) && mail.k in w.db.keepsakes && mail.at == w.clock
    requires forall m :: m in w.mails ==> !SamePair(m, mail) && m.id != mail.id && KeyOf(w.db, m.k, m.to) != KeyOf(w.db, mail.k, mail.to)
    ensures Ledger(w.(mails := w.mails + [mail], keys := w.keys[KeyOf(w.db, mail.k, mail.to) := mail]))
  {
    var v := w.(mails := w.mails + [mail], keys := w.keys[KeyOf(w.db, mail.k, mail.to) := mail]);
    forall m | m in v.mails ensures KeyOf(v.db, m.k, m.to) in v.keys && v.keys[KeyOf(v.db, m.k, m.to)] == m {
      if m != mail { assert m in w.mails; }
    }
    assert mail in v.mails;
  }

  lemma NewMailIsNew(w: World, m: Mail)
    requires Inv(w) && w.pc.Claimed? && w.clock - w.pc.now < HOUR && m in w.mails
    requires !Remembered(w, KeyOf(w.db, w.pc.owed[0].k, w.pc.owed[0].to))
    ensures !(m.k == w.pc.owed[0].k && SameAddress(m.to, w.pc.owed[0].to))
    ensures KeyOf(w.db, m.k, m.to) != KeyOf(w.db, w.pc.owed[0].k, w.pc.owed[0].to)
  {
    if m.k == w.pc.owed[0].k && SameAddress(m.to, w.pc.owed[0].to) { KeyStillHeld(w, m); }
  }

  lemma DeliverLedger(w: World, x: Exchange, taken: Option<MailId>)
    requires Inv(w) && Enabled(w, Deliver(x, taken))
    ensures Ledger(Apply(w, Deliver(x, taken)))
  {
    var o := w.pc.owed[0];
    if taken.Some? && !Remembered(w, KeyOf(w.db, o.k, o.to)) {
      forall m | m in w.mails
        ensures !SamePair(m, Mail(o.k, o.to, w.clock, taken.value)) && KeyOf(w.db, m.k, m.to) != KeyOf(w.db, o.k, o.to)
      {
        NewMailIsNew(w, m);
      }
      LedgerGrows(w, Mail(o.k, o.to, w.clock, taken.value));
    }
  }

  /** A mail that leaves now is covered by the row its claim opened, whatever left before staying as it was. */
  lemma DeliverCoversMails(w: World, x: Exchange, taken: Option<MailId>)
    requires Shape(w.db) && Ledger(w) && Covered(w) && PcInv(w) && Enabled(w, Deliver(x, taken))
    ensures
      var v := Apply(w, Deliver(x, taken));
      forall m :: m in v.mails ==> m.k in v.db.keepsakes && (IsSuppressed(v.db.suppressed, m.to) || RowCovers(v.db, m))
  {
    var v := Apply(w, Deliver(x, taken));
    forall m | m in v.mails ensures m.k in v.db.keepsakes && (IsSuppressed(v.db.suppressed, m.to) || RowCovers(v.db, m)) {
      if m in w.mails { CoveredMail(w, m); }
    }
  }

  lemma DeliverKeepsBounces(w: World, x: Exchange, taken: Option<MailId>)
    requires Ledger(w) && Covered(w) && PcInv(w) && Enabled(w, Deliver(x, taken))
    ensures
      var v := Apply(w, Deliver(x, taken));
      BouncedListed(v) && BouncesListed(v.db, v.mails)
  {
    var v := Apply(w, Deliver(x, taken));
    assert forall m :: m in v.mails ==> m in w.mails || m == Mail(w.pc.owed[0].k, w.pc.owed[0].to, w.clock, taken.value);
    assert BouncedListed(w);
  }

  lemma DeliverCovered(w: World, x: Exchange, taken: Option<MailId>)
    requires Inv(w) && Enabled(w, Deliver(x, taken)) && Ledger(Apply(w, Deliver(x, taken)))
    ensures Covered(Apply(w, Deliver(x, taken)))
  {
    DeliverCoversMails(w, x, taken);
    DeliverKeepsBounces(w, x, taken);
    assert BouncedListed(Apply(w, Deliver(x, taken)));
  }

  lemma DeliverInHand(w: World, x: Exchange, taken: Option<MailId>)
    requires PcInv(w) && Enabled(w, Deliver(x, taken)) && forall k :: k in w.db.sends ==> w.db.sends[k].claimedAt <= w.clock
    ensures InHand(Apply(w, Deliver(x, taken)), w.pc.owed[0])
  {
    var v := Apply(w, Deliver(x, taken));
    assert forall m :: m in v.mails && m !in w.mails ==> m == Mail(w.pc.owed[0].k, w.pc.owed[0].to, w.clock, taken.value);
  }

  /** An id the sweep hears is the id of the one mail this gift sent this address. */
  lemma DeliverNamesMail(w: World, x: Exchange, taken: Option<MailId>) returns (mail: Mail)
    requires Shape(w.db) && Ledger(w) && Enabled(w, Deliver(x, taken)) && ReadAnswer(x).Sent?
    ensures mail in Apply(w, Deliver(x, taken)).mails && mail.id == ReadAnswer(x).id
    ensures mail.k == w.pc.owed[0].k && SameAddress(mail.to, w.pc.owed[0].to)
  {
    var o := w.pc.owed[0];
    mail := Apply(w, Deliver(x, taken)).keys[KeyOf(w.db, o.k, o.to)];
  }

  /** The claim in hand stays claimed, and the gifts behind it stay as they were. */
  lemma DeliverKeepsClaim(w: World, x: Exchange, taken: Option<MailId>)
    requires PcInv(w) && Enabled(w, Deliver(x, taken)) && forall k :: k in w.db.sends ==> w.db.sends[k].claimedAt <= w.clock
    ensures
      var v := Apply(w, Deliver(x, taken));
      Rest(v, w.pc.owed) && UnderClaim(v, w.pc.now, w.pc.owed[0])
  {
    var v := Apply(w, Deliver(x, taken));
    OtherGiftsPending(w, v, w.pc.owed);
    DeliverInHand(w, x, taken);
  }

  /** Nothing new left when the answer says so. */
  lemma DeliverRefused(w: World, x: Exchange, taken: Option<MailId>)
    requires PcInv(w) && Enabled(w, Deliver(x, taken)) && ReadAnswer(x).Failed? && ReadAnswer(x).left == No
    ensures Apply(w, Deliver(x, taken)).mails == w.mails
  {
  }

  lemma DeliverPc(w: World, x: Exchange, taken: Option<MailId>)
    requires Inv(w) && Enabled(w, Deliver(x, taken))
    ensures PcInv(Apply(w, Deliver(x, taken)))
  {
    DeliverKeepsClaim(w, x, taken);
    if ReadAnswer(x).Sent? { var _ := DeliverNamesMail(w, x, taken); }
    else if ReadAnswer(x).left == No { DeliverRefused(w, x, taken); }
  }

  lemma DeliverKeepsInv(w: World, x: Exchange, taken: Option<MailId>)
    requires Inv(w) && Enabled(w, Deliver(x, taken))
    ensures Inv(Apply(w, Deliver(x, taken)))
  {
    DeliverLedger(w, x, taken);
    DeliverCovered(w, x, taken);
    DeliverPc(w, x, taken);
  }

  lemma WriteCovers(w: World, m: Mail)
    requires Inv(w) && Enabled(w, Write) && m in w.mails && !IsSuppressed(w.db.suppressed, m.to)
    ensures RowCovers(Apply(w, Write).db, m)
  {
    var o := w.pc.owed[0];
    assert RowCovers(w.db, m);
    if m.k == o.k && w.pc.result.Sent? {
      var n :| n in w.mails && n.k == o.k && SameAddress(n.to, o.to) && n.id == w.pc.result.id;
      OnePerPair(w, m, n);
    }
  }

  /** No outcome adds a row, and a row has its provider id just when it has its sending time. */
  lemma OutcomeShape(sends: map<int, SendRow>, k: int, isNew: bool, result: SendResult, clock: int)
    requires forall j :: j in sends ==> sends[j].sentAt.Some? == sends[j].providerId.Some?
    ensures
      var v := WriteOutcome(sends, k, isNew, result, clock);
      v.Keys <= sends.Keys && forall j :: j in v ==> v[j].sentAt.Some? == v[j].providerId.Some?
  {
  }

  lemma WriteShape(w: World)
    requires Enabled(w, Write) && Shape(w.db)
    ensures Shape(Apply(w, Write).db)
  {
    OutcomeShape(w.db.sends, w.pc.owed[0].k, w.pc.isNew, w.pc.result, w.clock);
  }

  lemma WriteLedger(w: World)
    requires Enabled(w, Write) && Ledger(w)
    ensures Ledger(Apply(w, Write))
  {
  }

  lemma WriteCovered(w: World)
    requires Inv(w) && Enabled(w, Write) && Ledger(Apply(w, Write))
    ensures Covered(Apply(w, Write))
  {
    var v := Apply(w, Write);
    forall m | m in v.mails ensures IsSuppressed(v.db.suppressed, m.to) || RowCovers(v.db, m) {
      if !IsSuppressed(w.db.suppressed, m.to) { WriteCovers(w, m); }
    }
  }

  lemma WritePc(w: World)
    requires PcInv(w) && Enabled(w, Write)
    ensures PcInv(Apply(w, Write))
  {
    var v := Apply(w, Write);
    OtherGiftsPending(w, v, w.pc.owed);
    RestTail(v, w.pc.owed);
  }

  lemma WriteKeepsInv(w: World)
    requires Inv(w) && Enabled(w, Write)
    ensures Inv(Apply(w, Write))
  {
    WriteShape(w);
    WriteLedger(w);
    WriteCovered(w);
    WritePc(w);
  }

  lemma OnePerPair(w: World, m: Mail, n: Mail)
    requires AtMostOnce(w.mails) && m in w.mails && n in w.mails && SamePair(m, n)
    ensures m == n
  {
    var i :| 0 <= i < |w.mails| && w.mails[i] == m;
    var j :| 0 <= j < |w.mails| && w.mails[j] == n;
    assert SamePair(w.mails[i], w.mails[j]) && SamePair(w.mails[j], w.mails[i]);
  }

  /** An early bounce was heard with the address mailed, so that address is already listed. */
  lemma EarlyBounceListed(w: World, s: string, e: MailId, k: int)
    requires Inv(w) && s in w.db.events && Permanent(w.db.events[s].kind) && w.db.events[s].emailId == Some(e)
    requires k in w.db.sends && w.db.sends[k].providerId == Some(e)
    ensures AllListed(w.mails, k, w.db.suppressed)
  {
    forall m | m in w.mails && m.k == k ensures IsSuppressed(w.db.suppressed, m.to) {
      assert IsSuppressed(w.db.suppressed, m.to) || RowCovers(w.db, m);
    }
  }

  lemma SettleAround(w: World)
    requires Inv(w) && Enabled(w, Settle)
    ensures
      var v := Apply(w, Settle).(pc := w.pc);
      Around(w, v) && Shape(v.db)
  {
    var e := w.pc.id;
    if s :| s in w.db.events && Early(w.db.events[s], e) && !w.db.events[s].kind.Delivered? {
      forall k | k in w.db.sends && w.db.sends[k].providerId == Some(e) ensures AllListed(w.mails, k, w.db.suppressed) {
        EarlyBounceListed(w, s, e, k);
      }
    }
    SettleRows(w);
    SettleAroundRows(w);
    SettleShape(w);
  }

  /** Settling can erase an address, and sets none; the stop list and the events stay. */
  lemma SettleErases(db: Db, e: MailId, sentTo: Address)
    ensures
      var v := SettleEarly(db, e, sentTo).0;
      && v.keepsakes == db.keepsakes && v.suppressed == db.suppressed && v.events == db.events
      && forall i :: DonorOf(v.intents, i) == DonorOf(db.intents, i) || DonorOf(v.intents, i).None?
  {
  }

  /** A row stays, or is marked bounced by an event that was no delivery. */
  lemma SettleRow(db: Db, e: MailId, sentTo: Address, k: int)
    requires k in db.sends
    ensures
      var v := SettleEarly(db, e, sentTo).0;
      && k in v.sends && v.sends.Keys == db.sends.Keys
      && (v.sends[k] == db.sends[k]
          || (db.sends[k].providerId == Some(e) && v.sends[k] == db.sends[k].(refusedCode := Some(Bounced))
              && exists s :: s in db.events && Early(db.events[s], e) && !db.events[s].kind.Delivered?))
  {
  }

  lemma SettleRows(w: World)
    requires Enabled(w, Settle)
    requires
      || (forall s :: s in w.db.events && Early(w.db.events[s], w.pc.id) ==> w.db.events[s].kind.Delivered?)
      || (forall k :: k in w.db.sends && w.db.sends[k].providerId == Some(w.pc.id) ==> AllListed(w.mails, k, w.db.suppressed))
    ensures RowsKept(w, Apply(w, Settle).(pc := w.pc))
  {
    var v := Apply(w, Settle).(pc := w.pc);
    SettleErases(w.db, w.pc.id, w.pc.owed[0].to);
    SettleKeeps(w.db, w.pc.id, w.pc.owed[0].to);
    forall k | k in w.db.sends ensures RowKept(w, v, k) { SettleRow(w.db, w.pc.id, w.pc.owed[0].to, k); }
  }

  lemma SettleAroundRows(w: World)
    requires BouncesListed(w.db, w.mails) && Enabled(w, Settle) && RowsKept(w, Apply(w, Settle).(pc := w.pc))
    ensures Around(w, Apply(w, Settle).(pc := w.pc))
  {
    SettleErases(w.db, w.pc.id, w.pc.owed[0].to);
  }

  lemma SettleKeeps(db: Db, e: MailId, sentTo: Address)
    ensures
      var v := SettleEarly(db, e, sentTo).0;
      && v.keepsakes == db.keepsakes && v.intents.Keys == db.intents.Keys && v.sends.Keys == db.sends.Keys
      && (forall k :: k in v.sends ==> v.sends[k].sentAt == db.sends[k].sentAt && v.sends[k].providerId == db.sends[k].providerId)
  {
  }

  lemma SettleShape(w: World)
    requires Shape(w.db) && Enabled(w, Settle)
    ensures Shape(Apply(w, Settle).db)
  {
    SettleKeeps(w.db, w.pc.id, w.pc.owed[0].to);
  }

  lemma SettleKeepsInv(w: World)
    requires Inv(w) && Enabled(w, Settle)
    ensures Inv(Apply(w, Settle))
  {
    var v := Apply(w, Settle).(pc := w.pc);
    SettleAround(w);
    AroundKeepsInv(w, v);
    RestTail(v, v.pc.owed);
    var u := Apply(w, Settle);
    assert forall o :: Pending(v, o) ==> Pending(u, o);
  }

  predicate BySweep(a: Action) {
    a.Load? || a.CheckNext? || a.TakeClaim? || a.Deliver? || a.Write? || a.Settle? || a.Finish? || a.Crash?
  }

  lemma StepAround(w: World, a: Action)
    requires Inv(w) && Enabled(w, a) && !BySweep(a)
    ensures Inv(Apply(w, a))
  {
    match a {
      case Hear(svix, ev) => HearAround(w, svix, ev); HearShape(w, svix, ev);
      case Fix(i, x) => assert BouncedListed(w); FixAround(w, i, x); FixShape(w, i, x);
      case Stop(inbox) => StopAround(w, inbox);
      case Abandon(asOf) => AbandonAround(w, asOf);
      case Gift(_, _, _, _) => GiftAround(w, a);
      case PassTime(_) =>
    }
    AroundKeepsInv(w, Apply(w, a));
  }

  /** The walk is over, or cut short: nothing is in hand. */
  lemma IdleKeepsInv(w: World, a: Action)
    requires Inv(w) && Enabled(w, a) && (a.Finish? || a.Crash?)
    ensures Inv(Apply(w, a))
  {
  }

  lemma SendingKeepsInv(w: World, a: Action)
    requires Inv(w) && Enabled(w, a) && (a.Deliver? || a.Write? || a.Settle?)
    ensures Inv(Apply(w, a))
  {
    match a
    case Deliver(x, taken) => DeliverKeepsInv(w, x, taken);
    case Write => WriteKeepsInv(w);
    case Settle => SettleKeepsInv(w);
  }

  lemma StepKeepsInv(w: World, a: Action)
    requires Inv(w) && Enabled(w, a)
    requires a.TakeClaim? ==> SafeClaim(w.db, w.pc.owed[0])
    ensures Inv(Apply(w, a))
  {
    if a.TakeClaim? { ClaimKeepsInv(w); }
    else if a.CheckNext? { CheckKeepsInv(w); }
    else if a.Load? { LoadKeepsInv(w, a.owed); }
    else if a.Finish? || a.Crash? { IdleKeepsInv(w, a); }
    else if BySweep(a) { SendingKeepsInv(w, a); }
    else { StepAround(w, a); }
  }

  lemma {:induction false} RunKeepsInv(w: World, acts: seq<Action>)
    requires Inv(w) && Allowed(w, acts) && Guarded(w, acts)
    ensures Inv(Exec(w, acts))
    decreases |acts|
  {
    if acts != [] {
      StepKeepsInv(w, acts[0]);
      RunKeepsInv(Apply(w, acts[0]), acts[1..]);
    }
  }

  /**
   On every run from empty tables, whatever crashes, events, corrections and stops come in between: if each
   claim was for an address the gift still had, no painting reached one address twice.
   */
  lemma GuardedRunsMailOnce(clock: int, acts: seq<Action>)
    requires Allowed(Start(clock), acts) && Guarded(Start(clock), acts)
    ensures AtMostOnce(Exec(Start(clock), acts).mails)
  {
    RunKeepsInv(Start(clock), acts);
  }
}
