/** What a stop and a correction promise a donor: who is never mailed again, and which address a gift may take. */
module MailStops {
  import opened Prelude
  import opened Addresses
  import opened MailTables
  import opened MailProtocol

  // ---------- stops ----------

  /** The sweep is past the stop list with a gift for this address, and has not sent it. */
  predicate InHandFor(w: World, a: Address) {
    (w.pc.Checked? || w.pc.Claimed?) && w.pc.owed != [] && SameAddress(w.pc.owed[0].to, a)
  }

  function ToAddress(a: Address): Mail -> bool { (m: Mail) => SameAddress(m.to, a) }

  /** The mails to `a` that left between two states of a run. */
  ghost function MailedSince(w: World, v: World, a: Address): seq<Mail>
    requires w.mails <= v.mails
  {
    Filter(ToAddress(a), v.mails[|w.mails|..])
  }

  /** At most the gift that was in hand still goes. */
  ghost predicate OnlyInHand(w: World, a: Address, since: seq<Mail>) {
    |since| <= (if InHandFor(w, a) then 1 else 0) && forall m :: m in since ==> InHandFor(w, a) && m.k == w.pc.owed[0].k
  }

  lemma StopOnlyGrows(w: World, act: Action, a: Address)
    requires Enabled(w, act) && IsSuppressed(w.db.suppressed, a)
    ensures IsSuppressed(Apply(w, act).db.suppressed, a)
  {
  }

  /** One step: the gift in hand stays in hand, or goes and is in hand no more. */
  lemma StepAfterStop(w: World, act: Action, a: Address)
    requires Enabled(w, act) && IsSuppressed(w.db.suppressed, a)
    ensures
      var v := Apply(w, act);
      && w.mails <= v.mails
      && OnlyInHand(w, a, MailedSince(w, v, a))
      && (InHandFor(v, a) ==> InHandFor(w, a) && v.pc.owed[0].k == w.pc.owed[0].k && MailedSince(w, v, a) == [])
  {
    var v := Apply(w, act);
    if act.Deliver? && v.mails != w.mails {
      assert v.mails[|w.mails|..] == [Mail(w.pc.owed[0].k, w.pc.owed[0].to, w.clock, act.taken.value)];
    } else {
      assert v.mails[|w.mails|..] == [];
    }
  }

  lemma MailedInSteps(w: World, u: World, v: World, a: Address)
    requires w.mails <= u.mails <= v.mails
    ensures MailedSince(w, v, a) == MailedSince(w, u, a) + MailedSince(u, v, a)
  {
    assert v.mails[|w.mails|..] == u.mails[|w.mails|..] + v.mails[|u.mails|..];
    FilterConcat(ToAddress(a), u.mails[|w.mails|..], v.mails[|u.mails|..]);
  }

  /**
   Once an address is on the stop list, by a bounce, a complaint or an unsubscribe, no run mails it again; at most
   the one gift the sweep already had in hand for it still goes.
   */
  lemma {:induction false} StoppedIsNeverMailed(w: World, acts: seq<Action>, a: Address)
    requires Allowed(w, acts) && IsSuppressed(w.db.suppressed, a)
    ensures w.mails <= Exec(w, acts).mails
    ensures OnlyInHand(w, a, MailedSince(w, Exec(w, acts), a))
    decreases |acts|
  {
    if acts == [] {
      assert w.mails[|w.mails|..] == [];
    } else {
      var u := Apply(w, acts[0]);
      StopOnlyGrows(w, acts[0], a);
      StepAfterStop(w, acts[0], a);
      StoppedIsNeverMailed(u, acts[1..], a);
      MailedInSteps(w, u, Exec(u, acts[1..]), a);
    }
  }

  /** An unsubscribe stops every spelling of the inbox and leaves no gift holding one. */
  lemma UnsubscribeStopsInbox(db: Db, inbox: string)
    ensures forall a: Address :: a.inbox == inbox ==> IsSuppressed(Unsubscribe(db, inbox).suppressed, a)
    ensures forall i :: i in db.intents ==>
      var held := DonorOf(Unsubscribe(db, inbox).intents, i);
      held == if DonorOf(db.intents, i).Some? && DonorOf(db.intents, i).value.inbox == inbox then None else DonorOf(db.intents, i)
  {
  }

  // ---------- corrections ----------

  /**
   A correction takes hold exactly when the gift's mail bounced, or has not been claimed and an address is still held: never once
   mail may have left, and never over an erased address but after a bounce. Then the gift is owed to the new address.
   */
  lemma CorrectionMeans(db: Db, i: string, k: int, a: Address)
    requires Shape(db) && k in db.keepsakes && db.keepsakes[k].intentId == i
    ensures
      var (after, fix) := Correct(db, i, a);
      var takes := if k in db.sends then db.sends[k].refusedCode == Some(Bounced) else Donor(db, k).Some?;
      && (fix.Saved? || fix.Resending? <==> takes)
      && (takes ==> IsOwed(after, Owed(k, a, Ready)) && k !in after.sends && after.sends == map j | j in db.sends && j != k :: db.sends[j])
      && (!takes ==> after == db)
      && (forall j :: j in db.keepsakes && j != k ==> Donor(after, j) == Donor(db, j))
  {
    if k in db.sends {
      assert forall j :: j in db.sends && db.keepsakes[j].intentId == i ==> j == k;
    } else {
      assert forall j :: j in db.sends ==> db.keepsakes[j].intentId != i;
    }
  }
}
