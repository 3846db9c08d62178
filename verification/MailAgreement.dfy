/** Whether the order in which a mail's events come matters: exactly when its gift's address was corrected and it bounced for good. */
module MailAgreement {
  import opened Prelude
  import opened Addresses
  import opened MailTables
  import opened MailEvents

  /** The same deliveries, in any order and however often, before, between and after the sweep's write and settling. */
  ghost predicate Interleaves(ds: seq<Delivery>, pre: seq<Delivery>, mid: seq<Delivery>, post: seq<Delivery>) {
    forall d :: d in pre + mid + post <==> d in ds
  }

  ghost predicate AllAgree(db: Db, k: int, e: MailId, a: Address, t: int, ds: seq<Delivery>) {
    forall pre, mid, post, pre', mid', post' ::
      Interleaves(ds, pre, mid, post) && Interleaves(ds, pre', mid', post') ==>
      Interleaved(db, k, e, a, t, pre, mid, post) == Interleaved(db, k, e, a, t, pre', mid', post')
  }

  /** A hard bounce among them whose svix id was not spent before. */
  ghost predicate BouncesForGood(events: map<string, EventRow>, ds: seq<Delivery>) {
    exists d :: d in ds && Permanent(d.ev.kind) && d.svix !in events
  }

  // ---------- a corrected address and no hard bounce ----------

  /** The newer address is not the one delivered to, so nothing is erased. */
  lemma CorrectedDelivered(db: Db, k: int, e: MailId, a: Address, t: int, events: map<string, EventRow>, d: Delivery)
    requires Out(db, k, e) && !Uncorrected(db, k, a) && d.ev.kind.Delivered?
    requires d.ev.emailId == Some(e) && d.ev.to == Some(a) && d.svix !in events
    ensures
      Receive(Tables(db, k, e, a, Some(t), false, false, events), d.svix, d.ev).0
      == Tables(db, k, e, a, Some(t), false, false, events[d.svix := EventRow(d.ev.kind, d.ev.emailId)])
  {
    HeardKeeps(events, d, e);
    WrittenIntent(db, k, e, a, t, false, false, events);
  }

  lemma {:induction false} CorrectedRun(db: Db, k: int, e: MailId, a: Address, t: int, events: map<string, EventRow>, ds: seq<Delivery>)
    requires Out(db, k, e) && !Uncorrected(db, k, a) && About(ds, e, a) && !BouncesForGood(events, ds)
    ensures
      ReceiveAll(Tables(db, k, e, a, Some(t), false, false, events), ds)
      == Tables(db, k, e, a, Some(t), false, false, Heard(events, ds))
    ensures Hard(Heard(events, ds), e) == Hard(events, e) && forall s :: s in events ==> s in Heard(events, ds)
    decreases |ds|
  {
    if ds != [] {
      var init, d := ds[..|ds| - 1], ds[|ds| - 1];
      assert forall x :: x in init ==> x in ds;
      CorrectedRun(db, k, e, a, t, events, init);
      var heard := Heard(events, init);
      if d.svix !in heard {
        assert !Permanent(d.ev.kind);
        HeardKeeps(heard, d, e);
        if d.ev.kind.Delivered? { CorrectedDelivered(db, k, e, a, t, heard, d); } else { LateOther(db, k, e, a, t, false, false, heard, d); }
      }
    }
  }

  /** Nothing to settle: the address is not the one mailed, and no event was a hard bounce. */
  lemma CorrectedSettles(db: Db, k: int, e: MailId, a: Address, t: int, events: map<string, EventRow>)
    requires Out(db, k, e) && !Uncorrected(db, k, a) && !Hard(events, e)
    ensures
      var now := Tables(db, k, e, a, Some(t), false, false, events);
      SettleEarly(now, e, a).0 == now
  {
    WrittenIntent(db, k, e, a, t, false, false, events);
    EarlyHeard(events, e);
  }

  lemma StillNone(events: map<string, EventRow>, later: map<string, EventRow>, ds: seq<Delivery>)
    requires !BouncesForGood(events, ds) && forall s :: s in events ==> s in later
    ensures !BouncesForGood(later, ds)
  {
  }

  lemma NoneOfPart(events: map<string, EventRow>, ds: seq<Delivery>, part: seq<Delivery>)
    requires !BouncesForGood(events, ds) && forall d :: d in part ==> d in ds
    ensures !BouncesForGood(events, part)
  {
  }

  lemma CorrectedInterleaves(db: Db, k: int, e: MailId, a: Address, t: int, pre: seq<Delivery>, mid: seq<Delivery>,
      post: seq<Delivery>)
    requires Out(db, k, e) && !Uncorrected(db, k, a) && About(pre + mid + post, e, a)
    requires !BouncesForGood(db.events, pre + mid + post)
    ensures
      Interleaved(db, k, e, a, t, pre, mid, post)
      == Tables(db, k, e, a, Some(t), false, false, Heard(db.events, pre + mid + post))
  {
    var all := pre + mid + post;
    assert forall d :: d in pre || d in mid || d in post ==> d in all;
    NoneOfPart(db.events, all, pre);
    NoneOfPart(db.events, all, mid);
    NoneOfPart(db.events, all, post);
    EarlyRun(db, k, e, a, pre);
    var early := Heard(db.events, pre);
    CorrectedRun(db, k, e, a, t, db.events, pre);
    assert WriteSent(ReceiveAll(db, pre), k, e, t) == Tables(db, k, e, a, Some(t), false, false, early);
    StillNone(db.events, early, mid);
    CorrectedRun(db, k, e, a, t, early, mid);
    var middle := Heard(early, mid);
    CorrectedSettles(db, k, e, a, t, middle);
    StillNone(db.events, middle, post);
    CorrectedRun(db, k, e, a, t, middle, post);
    HeardConcat(db.events, pre, mid);
    HeardConcat(db.events, pre + mid, post);
  }

  lemma CorrectedAgree(db: Db, k: int, e: MailId, a: Address, t: int, ds: seq<Delivery>)
    requires Out(db, k, e) && !Uncorrected(db, k, a) && About(ds, e, a) && Consistent(ds) && !BouncesForGood(db.events, ds)
    ensures AllAgree(db, k, e, a, t, ds)
  {
    forall pre, mid, post, pre', mid', post' | Interleaves(ds, pre, mid, post) && Interleaves(ds, pre', mid', post')
      ensures Interleaved(db, k, e, a, t, pre, mid, post) == Interleaved(db, k, e, a, t, pre', mid', post')
    {
      NoneOfPart(db.events, ds, pre + mid + post);
      NoneOfPart(db.events, ds, pre' + mid' + post');
      CorrectedInterleaves(db, k, e, a, t, pre, mid, post);
      CorrectedInterleaves(db, k, e, a, t, pre', mid', post');
      HeardForgetsOrder(db.events, pre + mid + post, pre' + mid' + post');
    }
  }

  // ---------- a corrected address and a hard bounce ----------

  lemma {:induction false} ReceiveConcat(db: Db, c: seq<Delivery>, d: seq<Delivery>)
    ensures ReceiveAll(db, c + d) == ReceiveAll(ReceiveAll(db, c), d)
    decreases |d|
  {
    if d == [] {
      assert c + d == c;
    } else {
      assert (c + d)[..|c + d| - 1] == c + d[..|d| - 1];
      ReceiveConcat(db, c, d[..|d| - 1]);
    }
  }

  lemma {:induction false} NoRowComesBack(db: Db, ds: seq<Delivery>, k: int)
    requires k !in db.sends
    ensures k !in ReceiveAll(db, ds).sends
    decreases |ds|
  {
    if ds != [] {
      NoRowComesBack(db, ds[..|ds| - 1], k);
      ReceiveAddsNoRow(ReceiveAll(db, ds[..|ds| - 1]), ds[|ds| - 1], k);
    }
  }

  lemma ReceiveAddsNoRow(db: Db, d: Delivery, k: int)
    requires k !in db.sends
    ensures k !in Receive(db, d.svix, d.ev).0.sends
  {
  }

  /** All heard early: the settling keeps the row, bounced. */
  lemma EarlyKeepsRow(db: Db, k: int, e: MailId, a: Address, t: int, ds: seq<Delivery>)
    requires Out(db, k, e) && About(ds, e, a) && Consistent(ds) && BouncesForGood(db.events, ds)
    ensures k in Interleaved(db, k, e, a, t, ds, [], []).sends
  {
    var heard := Heard(db.events, ds);
    EarlyRun(db, k, e, a, ds);
    var written := WriteSent(ReceiveAll(db, ds), k, e, t);
    assert written == Tables(db, k, e, a, Some(t), false, false, heard);
    assert k in SettleEarly(written, e, a).0.sends;
    assert ReceiveAll(written, []) == written;
  }

  /** The bounce heard first, and late: the row is cleared, and no event brings it back. */
  lemma LateClearsRow(db: Db, k: int, e: MailId, a: Address, t: int, ds: seq<Delivery>, d: Delivery)
    requires Out(db, k, e) && !Uncorrected(db, k, a) && About(ds, e, a)
    requires d in ds && Permanent(d.ev.kind) && d.svix !in db.events
    ensures k !in Interleaved(db, k, e, a, t, [], [], [d] + ds).sends
  {
    CorrectedBounceParts(db, k, e, a, t, d.svix, d.ev);
    assert Delivery(d.svix, d.ev) == d;
    var late := Interleaved(db, k, e, a, t, [], [], [d]);
    ReceiveConcat(SettleEarly(ReceiveAll(WriteSent(ReceiveAll(db, []), k, e, t), []), e, a).0, [d], ds);
    NoRowComesBack(late, ds, k);
  }

  lemma TwoOrders(ds: seq<Delivery>, d: Delivery)
    requires d in ds
    ensures Interleaves(ds, ds, [], []) && Interleaves(ds, [], [], [d] + ds)
  {
    assert ds + [] + [] == ds && [] + [] + ([d] + ds) == [d] + ds;
  }

  lemma TwoOutcomes(db: Db, k: int, e: MailId, a: Address, t: int, ds: seq<Delivery>, early: seq<Delivery>, late: seq<Delivery>)
    requires Interleaves(ds, early, [], []) && Interleaves(ds, [], [], late)
    requires Interleaved(db, k, e, a, t, early, [], []) != Interleaved(db, k, e, a, t, [], [], late)
    ensures !AllAgree(db, k, e, a, t, ds)
  {
  }

  lemma CorrectedParts(db: Db, k: int, e: MailId, a: Address, t: int, ds: seq<Delivery>)
    requires Out(db, k, e) && !Uncorrected(db, k, a) && About(ds, e, a) && Consistent(ds) && BouncesForGood(db.events, ds)
    ensures !AllAgree(db, k, e, a, t, ds)
  {
    var d :| d in ds && Permanent(d.ev.kind) && d.svix !in db.events;
    EarlyKeepsRow(db, k, e, a, t, ds);
    LateClearsRow(db, k, e, a, t, ds, d);
    TwoOrders(ds, d);
    TwoOutcomes(db, k, e, a, t, ds, ds, [d] + ds);
  }

  // ---------- exactly when ----------

  lemma UncorrectedAgree(db: Db, k: int, e: MailId, a: Address, t: int, ds: seq<Delivery>)
    requires Out(db, k, e) && Uncorrected(db, k, a) && About(ds, e, a) && Consistent(ds)
    ensures AllAgree(db, k, e, a, t, ds)
  {
    forall pre, mid, post, pre', mid', post' | Interleaves(ds, pre, mid, post) && Interleaves(ds, pre', mid', post')
      ensures Interleaved(db, k, e, a, t, pre, mid, post) == Interleaved(db, k, e, a, t, pre', mid', post')
    {
      EarlyAndLateAgree(db, k, e, a, t, pre, mid, post, pre', mid', post');
    }
  }

  /**
   However a mail's deliveries fall around the sweep's write and settling, the tables end the same, exactly when the gift's address was
   not corrected or none of them is a hard bounce.
   */
  lemma OrderMattersExactly(db: Db, k: int, e: MailId, a: Address, t: int, ds: seq<Delivery>)
    requires Out(db, k, e) && About(ds, e, a) && Consistent(ds)
    ensures AllAgree(db, k, e, a, t, ds) <==> Uncorrected(db, k, a) || !BouncesForGood(db.events, ds)
  {
    if Uncorrected(db, k, a) { UncorrectedAgree(db, k, e, a, t, ds); }
    else if BouncesForGood(db.events, ds) { CorrectedParts(db, k, e, a, t, ds); }
    else { CorrectedAgree(db, k, e, a, t, ds); }
  }
}
