/** The tables as one object updated in place, every method proved against the function of the same transaction. */
module MailStore {
  import opened Prelude
  import opened Addresses
  import opened MailTables
  import opened MailBodies
  import GiftBodies

  class Store {
    var intents: map<string, Intent>
    var keepsakes: map<int, Keepsake>
    var sends: map<int, SendRow>
    var suppressed: set<Digest>
    var events: map<string, EventRow>

    ghost function Tables(): Db
      reads this
    {
      Db(intents, keepsakes, sends, suppressed, events)
    }

    constructor (intents: map<string, Intent>, keepsakes: map<int, Keepsake>)
      ensures Tables() == Db(intents, keepsakes, map[], {}, map[])
    {
      this.intents, this.keepsakes := intents, keepsakes;
      sends, suppressed, events := map[], {}, map[];
    }

    method FindIntent(e: Option<MailId>) returns (intent: Option<string>)
      requires OneRowPerMail(sends)
      ensures intent == IntentOf(Tables(), e)
    {
      if e.None? { return None; }
      if k :| k in sends && k in keepsakes && sends[k].providerId == e {
        assert Carries(Tables(), k, e.value);
        return Some(keepsakes[k].intentId);
      }
      assert forall k :: !Carries(Tables(), k, e.value);
      return None;
    }

    method ClaimSendRow(k: int, now: int) returns (claim: Claim)
      modifies this`sends
      ensures (sends, claim) == ClaimSend(old(sends), k, now)
    {
      if k !in sends {
        sends := sends[k := SendRow(now, None, None, None)];
        return New;
      }
      var row := sends[k];
      if row.sentAt.Some? { return AlreadySent; }
      if row.refusedCode.Some? { return Held; }
      return if now - row.claimedAt > CLAIM_WINDOW_MS then Stale else Retry;
    }

    method ReceiveResendEvent(svix: string, ev: Event) returns (outcome: Outcome)
      requires OneRowPerMail(sends)
      modifies this
      ensures (Tables(), outcome) == Receive(old(Tables()), svix, ev)
    {
      if svix in events { return Replay; }
      var intent := FindIntent(ev.emailId);
      events := events[svix := EventRow(ev.kind, ev.emailId)];
      match ev.kind
      case Delivered =>
        if intent.None? || ev.to.None? { return Ignored; }
        var donor := DonorOf(intents, intent.value);
        if donor.None? || !SameAddress(donor.value, ev.to.value) { return Ignored; }
        intents := EraseUnlessAccount(intents, intent.value);
        return Erased;
      case SendFailed =>
        return FailedMail;
      case HardBounce | ProviderSuppressed =>
        if ev.to.Some? { suppressed := suppressed + {ExactDigest(ev.to.value)}; }
        if intent.None? { return ListedOnly; }
        var donor := DonorOf(intents, intent.value);
        if donor.Some? && ev.to.Some? && !SameAddress(donor.value, ev.to.value) {
          sends := ClearMail(sends, ev.emailId.value);
          return ListedOnly;
        }
        intents := Erase(intents, intent.value);
        sends := MarkBounced(sends, ev.emailId.value);
        return BouncedMail;
      case Complained =>
        if ev.to.None? { return Ignored; }
        suppressed := suppressed + {InboxDigest(ev.to.value)};
        intents := EraseInbox(intents, InboxDigest(ev.to.value));
        return ListedOnly;
      case _ =>
        return Ignored;
    }

    /** The same from the body as it parsed; an unreadable one is no event, and its svix id stays unspent. */
    method ReceiveBody(svix: string, parsed: Option<GiftBodies.Value>, idOf: string -> MailId) returns (outcome: Option<Outcome>)
      requires OneRowPerMail(sends)
      modifies this
      ensures
        var ev := ReadEvent(parsed, idOf);
        if ev.None? then outcome.None? && Tables() == old(Tables())
        else outcome.Some? && (Tables(), outcome.value) == Receive(old(Tables()), svix, ev.value)
    {
      var ev := ReadEvent(parsed, idOf);
      if ev.None? { return None; }
      var heard := ReceiveResendEvent(svix, ev.value);
      return Some(heard);
    }

    method SettleEarlyEvent(e: MailId, sentTo: Address) returns (how: Settled)
      requires OneRowPerMail(sends)
      modifies this`intents, this`sends
      ensures (Tables(), how) == SettleEarly(old(Tables()), e, sentTo)
    {
      if !exists s :: s in events && Early(events[s], e) { return Nothing; }
      var intent := FindIntent(Some(e));
      if intent.None? { return Nothing; }
      var donor := DonorOf(intents, intent.value);
      var still := donor.Some? && SameAddress(donor.value, sentTo);
      if exists s :: s in events && Early(events[s], e) && !events[s].kind.Delivered? {
        if still { intents := Erase(intents, intent.value); }
        sends := MarkBounced(sends, e);
        return SettledBounced;
      }
      if !still { return Nothing; }
      intents := EraseUnlessAccount(intents, intent.value);
      return SettledErased;
    }

    /** A keepsake has one gift and a gift one keepsake (`keepsake_intent_uq`). */
    ghost predicate OneKeepsakePerGift()
      reads this
    {
      forall k, j :: k in keepsakes && j in keepsakes && keepsakes[k].intentId == keepsakes[j].intentId ==> k == j
    }

    method PaintingMailState(i: string) returns (state: MailState)
      requires OneKeepsakePerGift()
      ensures state == StateOf(Tables(), i)
    {
      if k :| k in sends && k in keepsakes && keepsakes[k].intentId == i {
        var row := sends[k];
        if row.refusedCode == Some(Bounced) { return BouncedState; }
        if row.refusedCode.Some? { return HeldState; }
        return if row.sentAt.Some? then SentState else OnItsWay;
      }
      return NotSent;
    }

    method CorrectDonorEmail(i: string, a: Address) returns (fix: AddressFix)
      requires OneKeepsakePerGift()
      modifies this`intents, this`sends
      ensures (Tables(), fix) == Correct(old(Tables()), i, a)
    {
      var state := PaintingMailState(i);
      match state
      case HeldState => return FixHeld;
      case OnItsWay => return FixAlreadySent;
      case SentState => return FixAlreadySent;
      case BouncedState =>
        intents := SetDonor(intents, i, a);
        sends := ClearGift(Db(intents, keepsakes, sends, suppressed, events), i);
        return Resending;
      case NotSent =>
        if DonorOf(intents, i).None? { return FixErased; }
        intents := SetDonor(intents, i, a);
        return Saved;
    }

    /** The stop, and the address taken off every gift of that inbox. `inboxOf` reads the inbox from a token this key made. */
    method StopInbox(token: string, inboxOf: string -> Option<string>) returns (erased: Option<nat>)
      modifies this`suppressed, this`intents
      ensures
        var inbox := inboxOf(token);
        if inbox.None? then erased.None? && Tables() == old(Tables())
        else
          && Tables() == Unsubscribe(old(Tables()), inbox.value)
          && erased == Some(|set i | i in old(intents) && DonorOf(old(intents), i).Some? && DonorOf(old(intents), i).value.inbox == inbox.value|)
    {
      if inboxOf(token).None? { return None; }
      var inbox := inboxOf(token).value;
      suppressed := suppressed + {Inbox(inbox)};
      var ids := set i | i in intents && intents[i].donorEmail.Some? && intents[i].donorEmail.value.inbox == inbox;
      assert ids == set i | i in intents && DonorOf(intents, i).Some? && DonorOf(intents, i).value.inbox == inbox;
      intents := map i | i in intents :: if i in ids then intents[i].(donorEmail := None) else intents[i];
      return Some(|ids|);
    }

    /** Closed intents keep their address: their painting is still owed. */
    method EraseAbandonedAddresses(asOf: int) returns (erased: nat)
      modifies this`intents
      ensures intents == EraseAbandoned(old(intents), asOf)
      ensures forall i :: i in intents && old(intents)[i].closed ==> intents[i] == old(intents)[i]
      ensures erased == |set i | i in old(intents) && old(intents)[i] != intents[i]|
    {
      var ids := set i | i in intents && !intents[i].closed && intents[i].donorEmail.Some? && intents[i].createdAt < asOf - ABANDONED_AFTER_MS;
      intents := map i | i in intents :: if i in ids then intents[i].(donorEmail := None) else intents[i];
      assert ids == set i | i in old(intents) && old(intents)[i] != intents[i];
      return |ids|;
    }

    /**
     The sweep's loop. What the sender answers for each gift, and when, is given: `answers[n]` and `clocks[n]`.
     The provider names every mail with an id no other mail of this sweep and no row carries.
     */
    method SendOwedPaintings(owed: seq<Owed>, now: int, answers: seq<SendResult>, clocks: seq<int>) returns (report: Report)
      requires |owed| == |answers| == |clocks|
      requires OneRowPerMail(sends)
      requires forall n :: 0 <= n < |answers| && answers[n].Sent? ==> NewMail(sends, answers[n].id)
      requires forall n, m :: 0 <= n < m < |answers| && answers[n].Sent? && answers[m].Sent? ==> answers[n].id != answers[m].id
      modifies this
      ensures (Tables(), report) == SweepAll(old(Tables()), NO_REPORT, owed, now, answers, clocks)
      ensures OneRowPerMail(sends)
    {
      report := NO_REPORT;
      var n := 0;
      while n < |owed|
        invariant n <= |owed|
        invariant (Tables(), report) == SweepAll(old(Tables()), NO_REPORT, owed[..n], now, answers[..n], clocks[..n])
        invariant OneRowPerMail(sends)
        invariant forall m :: n <= m < |answers| && answers[m].Sent? ==> NewMail(sends, answers[m].id)
      {
        assert owed[..n + 1][..n] == owed[..n] && answers[..n + 1][..n] == answers[..n] && clocks[..n + 1][..n] == clocks[..n];
        report := SendOne(owed[n], now, answers[n], clocks[n], report);
        n := n + 1;
      }
      assert owed[..n] == owed && answers[..n] == answers && clocks[..n] == clocks;
    }

    static ghost predicate NewMail(sends: map<int, SendRow>, id: MailId) {
      forall k :: k in sends ==> sends[k].providerId != Some(id)
    }

    static lemma WriteKeepsIds(sends: map<int, SendRow>, k: int, now: int, answer: SendResult, clock: int)
      requires OneRowPerMail(sends) && (answer.Sent? ==> NewMail(sends, answer.id))
      ensures
        var (claimed, claim) := ClaimSend(sends, k, now);
        var after := WriteOutcome(claimed, k, claim.New?, answer, clock);
        && OneRowPerMail(after)
        && (forall id :: NewMail(sends, id) && (answer.Sent? ==> id != answer.id) ==> NewMail(after, id))
    {
      var (claimed, claim) := ClaimSend(sends, k, now);
      assert OneRowPerMail(claimed) && forall id :: NewMail(sends, id) ==> NewMail(claimed, id);
    }

    static lemma SettleKeepsIds(db: Db, e: MailId, sentTo: Address)
      requires OneRowPerMail(db.sends)
      ensures
        var after := SettleEarly(db, e, sentTo).0.sends;
        && OneRowPerMail(after)
        && (forall id :: NewMail(db.sends, id) ==> NewMail(after, id))
    {
    }

    /** The loop's body. */
    method SendOne(owed: Owed, now: int, answer: SendResult, clock: int, report: Report) returns (r: Report)
      requires OneRowPerMail(sends)
      requires answer.Sent? ==> NewMail(sends, answer.id)
      modifies this
      ensures (Tables(), r) == SweepOne(old(Tables()), report, owed, now, answer, clock)
      ensures OneRowPerMail(sends)
      ensures forall id :: NewMail(old(sends), id) && (answer.Sent? ==> id != answer.id) ==> NewMail(sends, id)
    {
      r := report;
      if IsSuppressed(suppressed, owed.to) {
        return r.(suppressed := r.suppressed + 1);
      }
      if owed.paintings.Unnamed? {
        return r.(incomplete := r.incomplete + 1);
      }
      if owed.paintings.Unreadable? {
        return r.(artUnreadable := r.artUnreadable + 1);
      }
      WriteKeepsIds(sends, owed.k, now, answer, clock);
      var claim := ClaimSendRow(owed.k, now);
      if claim.Stale? { return r.(stale := r.stale + 1); }
      if claim.Held? { return r.(held := r.held + 1); }
      if !claim.New? && !claim.Retry? { return; }
      match answer
      case Sent(id) =>
        sends := WriteOutcome(sends, owed.k, claim.New?, answer, clock);
        r := r.(sent := r.sent + 1);
        SettleKeepsIds(Tables(), id, owed.to);
        var how := SettleEarlyEvent(id, owed.to);
        if how.SettledBounced? { r := r.(bounced := r.bounced + 1); }
      case Failed(code, left, retry) =>
        r := CountFailure(r, code);
        sends := WriteOutcome(sends, owed.k, claim.New?, answer, clock);
    }
  }
}
