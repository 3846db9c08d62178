/** The hazards are met: runs from empty tables that reach them. */
module MailReach {
  import opened Prelude
  import opened Addresses
  import opened MailTables
  import opened MailProtocol
  import opened MailSafety
  import opened MailHazard
  import MailEvents

  const GIFT: string := "gift"
  const KEEPSAKE: int := 1

  /** A gift is started, listed for its address and found mailable; then the donor corrects the address. */
  function CorrectedAfterListing(clock: int, a: Address, b: Address): seq<Action> {
    [Gift(GIFT, Intent(Some(a), false, true, clock), KEEPSAKE, "token"), Load([Owed(KEEPSAKE, a, Ready)]), CheckNext, Fix(GIFT, b)]
  }

  function Begun(clock: int, a: Address): Db {
    Db(map[GIFT := Intent(Some(a), false, true, clock)], map[KEEPSAKE := Keepsake(GIFT, "token")], map[], {}, map[])
  }

  lemma ListedIsReached(clock: int, a: Address) returns (acts: seq<Action>)
    ensures acts == [Gift(GIFT, Intent(Some(a), false, true, clock), KEEPSAKE, "token"), Load([Owed(KEEPSAKE, a, Ready)]), CheckNext]
    ensures Leads(Start(clock), acts, World(Begun(clock, a), clock, map[], [], Checked(clock, [Owed(KEEPSAKE, a, Ready)])))
  {
    var w0, gift, load := Start(clock), Gift(GIFT, Intent(Some(a), false, true, clock), KEEPSAKE, "token"), Load([Owed(KEEPSAKE, a, Ready)]);
    var w1 := World(Begun(clock, a), clock, map[], [], Idle);
    assert w1 == Apply(w0, gift);
    Extend(w0, [], w0, gift);
    assert IsOwed(w1.db, Owed(KEEPSAKE, a, Ready));
    var w2 := w1.(pc := Walking(clock, [Owed(KEEPSAKE, a, Ready)]));
    assert w2 == Apply(w1, load);
    Extend(w0, [gift], w1, load);
    Extend(w0, [gift] + [load], w2, CheckNext);
    acts := [gift] + [load] + [CheckNext];
  }

  lemma StaleClaimIsReached(clock: int, a: Address, b: Address) returns (w: World)
    requires a != b
    ensures Leads(Start(clock), CorrectedAfterListing(clock, a, b), w) && StaleClaim(w, KEEPSAKE, a, b)
    ensures w.db.sends == map[] && w.db.events == map[] && w.mails == [] && w.keys == map[] && w.clock == clock
  {
    var acts := ListedIsReached(clock, a);
    var listed := World(Begun(clock, a), clock, map[], [], Checked(clock, [Owed(KEEPSAKE, a, Ready)]));
    w := Apply(listed, Fix(GIFT, b));
    Extend(Start(clock), acts, listed, Fix(GIFT, b));
    assert acts + [Fix(GIFT, b)] == CorrectedAfterListing(clock, a, b);
    RunKeepsInv(Start(clock), CorrectedAfterListing(clock, a, b));
    assert StateOf(listed.db, GIFT) == NotSent;
  }

  /** One mail per gift and address fails on some run: the stale claim is taken, and its hazard follows. */
  lemma SomeRunMailsTwice(clock: int, a: Address, b: Address) returns (acts: seq<Action>)
    requires a != b
    ensures Allowed(Start(clock), acts) && !AtMostOnce(Exec(Start(clock), acts).mails)
  {
    var w := StaleClaimIsReached(clock, a, b);
    var rest, r := StaleClaimMailsTwice(w, KEEPSAKE, a, b);
    var taken := [TakeClaim] + rest;
    assert taken[0] == TakeClaim && taken[1..] == rest;
    assert Allowed(w, taken) && Exec(w, taken) == r;
    acts := CorrectedAfterListing(clock, a, b) + taken;
    ExecConcat(Start(clock), CorrectedAfterListing(clock, a, b), taken);
  }

  /** A mail is out, its outcome not yet written, and its gift's address has been corrected: where early and late bounces part. */
  lemma CorrectedMailIsReached(clock: int, a: Address, b: Address, e: MailId) returns (acts: seq<Action>, w: World)
    requires a != b
    ensures Allowed(Start(clock), acts) && Exec(Start(clock), acts) == w
    ensures MailEvents.Out(w.db, KEEPSAKE, e) && !MailEvents.Uncorrected(w.db, KEEPSAKE, a)
    ensures w.mails == [Mail(KEEPSAKE, a, w.clock, e)] && w.pc.Answered? && w.pc.result == Sent(e)
  {
    var w1 := StaleClaimIsReached(clock, a, b);
    var w2 := Apply(w1, TakeClaim);
    RunFurther(Start(clock), CorrectedAfterListing(clock, a, b), TakeClaim);
    var send := Deliver(Response(200, Some(e), None), Some(e));
    w := Apply(w2, send);
    RunFurther(Start(clock), CorrectedAfterListing(clock, a, b) + [TakeClaim], send);
    acts := CorrectedAfterListing(clock, a, b) + [TakeClaim] + [send];
  }
}
