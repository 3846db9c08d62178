/**
 Where one mail per gift and address can fail: a claim for an address the donor replaced after the owed
 list was read. Such a claim always has a continuation that mails the address twice; no other claim has.
 */
module MailHazard {
  import opened Prelude
  import opened Addresses
  import opened MailTables
  import opened MailProtocol
  import opened MailSafety

  ghost predicate Leads(w: World, acts: seq<Action>, v: World) {
    Allowed(w, acts) && Guarded(w, acts) && Exec(w, acts) == v
  }

  lemma {:induction false} Extend(w: World, acts: seq<Action>, v: World, a: Action)
    requires Leads(w, acts, v) && Enabled(v, a)
    requires a.TakeClaim? ==> v.pc.owed[0].k in v.db.keepsakes && SafeClaim(v.db, v.pc.owed[0])
    ensures Leads(w, acts + [a], Apply(v, a))
    decreases |acts|
  {
    var longer := acts + [a];
    if acts == [] {
      assert longer[0] == a && longer[1..] == [];
      assert Allowed(Apply(w, a), []) && Guarded(Apply(w, a), []);
    } else {
      assert longer[0] == acts[0] && longer[1..] == acts[1..] + [a];
      Extend(Apply(w, acts[0]), acts[1..], v, a);
    }
  }

  lemma {:induction false} AboveAll(ids: set<nat>) returns (top: nat)
    ensures forall id :: id in ids ==> id < top
  {
    if ids == {} {
      top := 0;
    } else {
      var id :| id in ids;
      top := AboveAll(ids - {id});
      if top <= id { top := id + 1; }
      assert forall x :: x in ids ==> x == id || x in ids - {id};
    }
  }

  /** An id no mail, event or row has used, nor any id above it. */
  ghost predicate Unused(w: World, id: MailId) {
    && (forall m :: m in w.mails ==> m.id < id)
    && (forall s :: s in w.db.events && w.db.events[s].emailId.Some? ==> w.db.events[s].emailId.value < id)
    && (forall k :: k in w.db.sends && w.db.sends[k].providerId.Some? ==> w.db.sends[k].providerId.value < id)
  }

  lemma UnusedExists(w: World) returns (id: MailId)
    ensures Unused(w, id)
  {
    var mailed := set m | m in w.mails :: m.id;
    var named := set s | s in w.db.events && w.db.events[s].emailId.Some? :: w.db.events[s].emailId.value;
    var written := set k | k in w.db.sends && w.db.sends[k].providerId.Some? :: w.db.sends[k].providerId.value;
    id := AboveAll(mailed + named + written);
    assert forall m :: m in w.mails ==> m.id in mailed;
    assert forall s :: s in w.db.events && w.db.events[s].emailId.Some? ==> w.db.events[s].emailId.value in named;
    assert forall k :: k in w.db.sends && w.db.sends[k].providerId.Some? ==> w.db.sends[k].providerId.value in written;
  }

  lemma {:induction false} LongerName(names: set<string>) returns (name: string)
    ensures forall n :: n in names ==> |n| < |name|
  {
    if names == {} {
      name := "";
    } else {
      var n :| n in names;
      name := LongerName(names - {n});
      if |name| <= |n| { name := n + "x"; }
    }
  }

  /** A stale claim about to be taken: the owed list says `a`, the donor since said `b`, and neither is stopped. */
  ghost predicate StaleClaim(w: World, k: int, a: Address, b: Address) {
    && Inv(w) && w.pc.Checked? && w.pc.owed[0].k == k && w.pc.owed[0].to == a
    && k in w.db.keepsakes && Donor(w.db, k) == Some(b) && b != a
    && !IsSuppressed(w.db.suppressed, a) && !IsSuppressed(w.db.suppressed, b)
    && w.clock - w.pc.now < HOUR
  }

  lemma StaleClaimIsFirst(w: World, k: int, a: Address, b: Address)
    requires StaleClaim(w, k, a, b)
    ensures k !in w.db.sends
    ensures forall m :: m in w.mails && m.k == k ==> m.to != a && m.to != b
    ensures KeyOf(w.db, k, a) !in w.keys && KeyOf(w.db, k, b) !in w.keys
  {
    forall m | m in w.mails && m.k == k ensures IsSuppressed(w.db.suppressed, m.to) {
      assert IsSuppressed(w.db.suppressed, m.to) || RowCovers(w.db, m);
    }
  }

  /** After the stale claim: the mail to `a` leaves, and its answer is lost. */
  ghost predicate Lost(w: World, v: World, k: int, a: Address, id: MailId)
    requires w.pc.Checked? && k in w.db.keepsakes
  {
    v == World(w.db.(sends := w.db.sends[k := SendRow(w.pc.now, None, None, None)]), w.clock,
               w.keys[KeyOf(w.db, k, a) := Mail(k, a, w.clock, id)], w.mails + [Mail(k, a, w.clock, id)], Idle)
  }

  lemma LoseAnswer(w: World, k: int, a: Address, b: Address, id: MailId) returns (acts: seq<Action>, v: World)
    requires StaleClaim(w, k, a, b) && Unused(w, id)
    ensures Leads(Apply(w, TakeClaim), acts, v) && Lost(w, v, k, a, id)
  {
    StaleClaimIsFirst(w, k, a, b);
    var w1 := Apply(w, TakeClaim);
    var a2 := Deliver(NoResponse, Some(id));
    var w2 := Apply(w1, a2);
    Extend(w1, [], w1, a2);
    var w3 := Apply(w2, Write);
    Extend(w1, [a2], w2, Write);
    Extend(w1, [a2] + [Write], w3, Crash);
    acts, v := [a2] + [Write] + [Crash], Apply(w3, Crash);
  }

  /** The next tick mails `b`, and hears so. */
  ghost predicate Mailed(v: World, u: World, k: int, b: Address, id: MailId)
    requires k in v.db.sends && k in v.db.keepsakes
  {
    u == World(v.db.(sends := v.db.sends[k := v.db.sends[k].(sentAt := Some(v.clock), providerId := Some(id))]), v.clock,
               v.keys[KeyOf(v.db, k, b) := Mail(k, b, v.clock, id)], v.mails + [Mail(k, b, v.clock, id)], Idle)
  }

  /** A tick that finds this one gift owed, up to its claim. */
  lemma WalkToClaim(v: World, k: int, b: Address) returns (acts: seq<Action>, c: World)
    requires v.pc.Idle? && k in v.db.keepsakes && Donor(v.db, k) == Some(b) && !IsSuppressed(v.db.suppressed, b)
    requires var claim := ClaimSend(v.db.sends, k, v.clock).1; claim.New? || claim.Retry?
    ensures Leads(v, acts, c)
    ensures
      var (sends, claim) := ClaimSend(v.db.sends, k, v.clock);
      c == v.(db := v.db.(sends := sends), pc := Claimed(v.clock, [Owed(k, b, Ready)], claim.New?))
  {
    var load := Load([Owed(k, b, Ready)]);
    var v1 := Apply(v, load);
    Extend(v, [], v, load);
    var v2 := Apply(v1, CheckNext);
    Extend(v, [load], v1, CheckNext);
    Extend(v, [load] + [CheckNext], v2, TakeClaim);
    acts, c := [load] + [CheckNext] + [TakeClaim], Apply(v2, TakeClaim);
  }

  lemma SendHeard(v: World, k: int, b: Address, id: MailId) returns (acts: seq<Action>, u: World)
    requires v.pc.Idle? && k in v.db.keepsakes && Donor(v.db, k) == Some(b) && !IsSuppressed(v.db.suppressed, b)
    requires k in v.db.sends && Open(v.db.sends[k]) && v.clock - v.db.sends[k].claimedAt <= CLAIM_WINDOW_MS
    requires !Remembered(v, KeyOf(v.db, k, b)) && Unused(v, id)
    ensures Leads(v, acts, u) && Mailed(v, u, k, b, id) && Unused(u, id + 1)
  {
    var walk, c := WalkToClaim(v, k, b);
    var deliver := Deliver(Response(200, Some(id), None), Some(id));
    var c1 := Apply(c, deliver);
    Extend(v, walk, c, deliver);
    var c2 := Apply(c1, Write);
    Extend(v, walk + [deliver], c1, Write);
    var c3 := Apply(c2, Settle);
    NothingEarly(c2.db, id, b);
    Extend(v, walk + [deliver] + [Write], c2, Settle);
    Extend(v, walk + [deliver] + [Write] + [Settle], c3, Crash);
    acts, u := walk + [deliver] + [Write] + [Settle] + [Crash], Apply(c3, Crash);
  }

  lemma NothingEarly(db: Db, id: MailId, b: Address)
    requires forall s :: s in db.events ==> db.events[s].emailId != Some(id)
    ensures SettleEarly(db, id, b).0 == db
  {
  }

  /** That mail bounces: the address is listed and erased, and the row keeps the bounce. */
  lemma BounceKeepsUnused(u: World, svix: string, ev: Event, id: MailId, n: MailId)
    requires svix !in u.db.events && ev.emailId == Some(id) && Unused(u, n) && id < n && Genuine(u, ev)
    ensures Unused(Apply(u, Hear(svix, ev)), n)
  {
    ReceiveKeeps(u.db, svix, ev);
    ReceiveLists(u.db, svix, ev);
  }

  /** The only row under a mail's id is the one that names its gift. */
  lemma OneCarrier(db: Db, k: int, id: MailId)
    requires k in db.sends && k in db.keepsakes && db.sends[k].providerId == Some(id)
    requires forall j :: j in db.sends && j != k ==> db.sends[j].providerId != Some(id)
    ensures IntentOf(db, Some(id)) == Some(db.keepsakes[k].intentId)
  {
    assert Carries(db, k, id);
    forall j | Carries(db, j, id) ensures j == k {}
  }

  lemma OneRowMarked(sends: map<int, SendRow>, k: int, id: MailId)
    requires k in sends && sends[k].providerId == Some(id)
    requires forall j :: j in sends && j != k ==> sends[j].providerId != Some(id)
    ensures MarkBounced(sends, id) == sends[k := sends[k].(refusedCode := Some(Bounced))]
  {
    var marked, want := MarkBounced(sends, id), sends[k := sends[k].(refusedCode := Some(Bounced))];
    assert marked.Keys == sends.Keys == want.Keys;
    forall j | j in sends ensures marked[j] == want[j] {
      assert j != k ==> sends[j].providerId != Some(id);
    }
  }

  lemma Bounce(u: World, k: int, b: Address, id: MailId) returns (a: Action)
    requires Shape(u.db) && k in u.db.sends && Donor(u.db, k) == Some(b) && u.db.sends[k].providerId == Some(id)
    requires forall j :: j in u.db.sends && j != k ==> u.db.sends[j].providerId != Some(id)
    requires exists m :: m in u.mails && m.id == id && m.to == b
    ensures a.Hear? && Enabled(u, a)
    ensures Apply(u, a).db.sends == u.db.sends[k := u.db.sends[k].(refusedCode := Some(Bounced))]
    ensures Apply(u, a).db.suppressed == u.db.suppressed + {ExactDigest(b)}
    ensures Apply(u, a).db.keepsakes == u.db.keepsakes && Apply(u, a).db.intents.Keys == u.db.intents.Keys
    ensures forall n :: Unused(u, n) ==> Unused(Apply(u, a), n)
  {
    var svix := LongerName(u.db.events.Keys);
    var ev := Event(HardBounce, Some(id), Some(b));
    a := Hear(svix, ev);
    assert svix !in u.db.events && Genuine(u, ev);
    OneCarrier(u.db, k, id);
    OneRowMarked(u.db.sends, k, id);
    forall n | Unused(u, n) ensures Unused(Apply(u, a), n) { BounceKeepsUnused(u, svix, ev, id, n); }
  }

  /** That mail bounces, the donor goes back to `a`, and a day passes. */
  lemma BounceAndReturn(u: World, k: int, a: Address, b: Address, id: MailId) returns (acts: seq<Action>, t: World)
    requires u.pc.Idle? && Shape(u.db) && k in u.db.sends && Donor(u.db, k) == Some(b) && u.db.sends[k].providerId == Some(id)
    requires forall j :: j in u.db.sends && j != k ==> u.db.sends[j].providerId != Some(id)
    requires exists m :: m in u.mails && m.id == id && m.to == b
    ensures Leads(u, acts, t)
    ensures t.pc.Idle? && t.clock == u.clock + DAY && t.keys == u.keys && t.mails == u.mails
    ensures t.db.keepsakes == u.db.keepsakes && Donor(t.db, k) == Some(a) && k !in t.db.sends
    ensures t.db.suppressed == u.db.suppressed + {ExactDigest(b)}
    ensures forall n :: Unused(u, n) ==> Unused(t, n)
  {
    var hear := Bounce(u, k, b, id);
    var u1 := Apply(u, hear);
    Extend(u, [], u, hear);
    var fix := Fix(u.db.keepsakes[k].intentId, a);
    Returned(u1, k, a);
    var u2 := Apply(u1, fix);
    Extend(u, [hear], u1, fix);
    Extend(u, [hear] + [fix], u2, PassTime(DAY));
    acts, t := [hear] + [fix] + [PassTime(DAY)], Apply(u2, PassTime(DAY));
  }

  /** Correcting a bounced gift clears its row and takes the address. */
  lemma Returned(u: World, k: int, a: Address)
    requires Shape(u.db) && k in u.db.sends && u.db.sends[k].refusedCode == Some(Bounced)
    ensures
      var i := u.db.keepsakes[k].intentId;
      var v := Apply(u, Fix(i, a));
      && v == u.(db := u.db.(intents := SetDonor(u.db.intents, i, a), sends := ClearGift(u.db, i)))
      && Donor(v.db, k) == Some(a) && k !in v.db.sends
      && forall n :: Unused(u, n) ==> Unused(v, n)
  {
    assert StateOf(u.db, u.db.keepsakes[k].intentId).BouncedState?;
  }

  /** A first claim for an address nothing stops mails it, once the provider no longer holds the key. */
  lemma SendAgain(t: World, k: int, a: Address, id: MailId) returns (acts: seq<Action>, r: World)
    requires t.pc.Idle? && k in t.db.keepsakes && Donor(t.db, k) == Some(a) && !IsSuppressed(t.db.suppressed, a)
    requires k !in t.db.sends && !Remembered(t, KeyOf(t.db, k, a)) && Unused(t, id)
    ensures Leads(t, acts, r) && r.mails == t.mails + [Mail(k, a, t.clock, id)]
  {
    var walk, c := WalkToClaim(t, k, a);
    var deliver := Deliver(NoResponse, Some(id));
    Extend(t, walk, c, deliver);
    acts, r := walk + [deliver], Apply(c, deliver);
  }

  lemma {:induction false} Chain(w: World, a: seq<Action>, v: World, b: seq<Action>, u: World)
    requires Leads(w, a, v) && Leads(v, b, u)
    ensures Leads(w, a + b, u)
    decreases |a|
  {
    if a == [] {
      assert a + b == b;
    } else {
      assert (a + b)[0] == a[0] && (a + b)[1..] == a[1..] + b;
      Chain(Apply(w, a[0]), a[1..], v, b, u);
    }
  }

  /** Up to the day after: `a` and `b` were mailed, the row is gone, and `a` is the gift's address again. */
  ghost predicate Reopened(w: World, t: World, k: int, a: Address, b: Address, id: MailId)
    requires k in w.db.keepsakes
  {
    && t.pc.Idle? && t.db.keepsakes == w.db.keepsakes && Donor(t.db, k) == Some(a) && k !in t.db.sends
    && !IsSuppressed(t.db.suppressed, a) && !Remembered(t, KeyOf(t.db, k, a)) && Unused(t, id + 2)
    && t.mails == w.mails + [Mail(k, a, w.clock, id), Mail(k, b, w.clock, id + 1)]
  }

  ghost predicate BothMailed(w: World, u: World, k: int, a: Address, b: Address, id: MailId)
    requires k in w.db.keepsakes
  {
    && u.pc.Idle? && u.clock == w.clock && Shape(u.db)
    && u.db.keepsakes == w.db.keepsakes && u.db.suppressed == w.db.suppressed && Donor(u.db, k) == Some(b)
    && k in u.db.sends && u.db.sends[k].providerId == Some(id + 1)
    && (forall j :: j in u.db.sends && j != k ==> u.db.sends[j].providerId != Some(id + 1))
    && KeyOf(w.db, k, a) in u.keys && u.keys[KeyOf(w.db, k, a)].at == w.clock
    && u.mails == w.mails + [Mail(k, a, w.clock, id), Mail(k, b, w.clock, id + 1)]
    && Unused(u, id + 2)
  }

  lemma LostThenMailed(w: World, v: World, k: int, a: Address, b: Address, id: MailId) returns (acts: seq<Action>, u: World)
    requires w.pc.Checked? && k in w.db.keepsakes && Lost(w, v, k, a, id)
    requires Shape(w.db) && Donor(w.db, k) == Some(b) && b != a && w.clock - w.pc.now < HOUR
    requires !IsSuppressed(w.db.suppressed, b) && KeyOf(w.db, k, b) !in w.keys && Unused(w, id)
    ensures Leads(v, acts, u) && BothMailed(w, u, k, a, b, id)
  {
    acts, u := SendHeard(v, k, b, id + 1);
    LostAndMailed(w, v, u, k, a, b, id);
  }

  lemma LostAndMailed(w: World, v: World, u: World, k: int, a: Address, b: Address, id: MailId)
    requires w.pc.Checked? && k in w.db.keepsakes && Lost(w, v, k, a, id) && Mailed(v, u, k, b, id + 1) && Unused(u, id + 2)
    requires Shape(w.db) && Donor(w.db, k) == Some(b) && b != a && Unused(w, id)
    ensures BothMailed(w, u, k, a, b, id)
  {
    assert KeyOf(v.db, k, b) != KeyOf(w.db, k, a);
  }

  lemma MailedReopens(w: World, u: World, k: int, a: Address, b: Address, id: MailId) returns (acts: seq<Action>, t: World)
    requires k in w.db.keepsakes && BothMailed(w, u, k, a, b, id)
    requires b != a && !IsSuppressed(w.db.suppressed, a)
    ensures Leads(u, acts, t) && Reopened(w, t, k, a, b, id)
  {
    assert u.mails[|w.mails| + 1] in u.mails;
    acts, t := BounceAndReturn(u, k, a, b, id + 1);
  }

  lemma StaleClaimReopens(w: World, k: int, a: Address, b: Address, id: MailId) returns (acts: seq<Action>, t: World)
    requires StaleClaim(w, k, a, b) && Unused(w, id)
    ensures Leads(Apply(w, TakeClaim), acts, t) && Reopened(w, t, k, a, b, id)
  {
    StaleClaimIsFirst(w, k, a, b);
    var lost, v := LoseAnswer(w, k, a, b, id);
    var heard, u := LostThenMailed(w, v, k, a, b, id);
    var after: seq<Action>;
    after, t := MailedReopens(w, u, k, a, b, id);
    Chain(v, heard, u, after, t);
    Chain(Apply(w, TakeClaim), lost, v, heard + after, t);
    acts := lost + (heard + after);
  }

  /** The hazard, from any reachable state: with every later claim guarded, `a` still gets a second mail. */
  lemma StaleClaimMailsTwice(w: World, k: int, a: Address, b: Address) returns (acts: seq<Action>, r: World)
    requires StaleClaim(w, k, a, b)
    ensures Leads(Apply(w, TakeClaim), acts, r) && !AtMostOnce(r.mails)
  {
    var id := UnusedExists(w);
    var reopened, t := StaleClaimReopens(w, k, a, b, id);
    var again: seq<Action>;
    again, r := SendAgain(t, k, a, id + 2);
    Chain(Apply(w, TakeClaim), reopened, t, again, r);
    acts := reopened + again;
    SecondMail(w, t, r, k, a, b, id);
  }

  lemma SecondMail(w: World, t: World, r: World, k: int, a: Address, b: Address, id: MailId)
    requires k in w.db.keepsakes && Reopened(w, t, k, a, b, id) && r.mails == t.mails + [Mail(k, a, t.clock, id + 2)]
    ensures !AtMostOnce(r.mails)
  {
    var n := |w.mails|;
    assert r.mails[n] == Mail(k, a, w.clock, id) && r.mails[n + 2] == Mail(k, a, t.clock, id + 2);
    assert SamePair(r.mails[n], r.mails[n + 2]);
  }

  /** Every continuation that takes the claim in hand, and guards its later ones, mails each pair at most once. */
  ghost predicate SafeToTake(w: World) {
    forall acts: seq<Action> ::
      acts != [] && acts[0].TakeClaim? && Allowed(w, acts) && Guarded(Apply(w, acts[0]), acts[1..])
      ==> AtMostOnce(Exec(w, acts).mails)
  }

  /** The guard is exact: in any reachable state with time left to send, a claim is safe to take just when it holds. */
  lemma ClaimGuardIsExact(w: World)
    requires Inv(w) && w.pc.Checked? && w.clock - w.pc.now < HOUR
    ensures w.pc.owed[0].k in w.db.keepsakes
    ensures SafeToTake(w) <==> SafeClaim(w.db, w.pc.owed[0])
  {
    var o := w.pc.owed[0];
    if SafeClaim(w.db, o) {
      forall acts: seq<Action> | acts != [] && acts[0].TakeClaim? && Allowed(w, acts) && Guarded(Apply(w, acts[0]), acts[1..])
        ensures AtMostOnce(Exec(w, acts).mails)
      {
        RunKeepsInv(w, acts);
      }
    } else {
      var rest, r := StaleClaimMailsTwice(w, o.k, o.to, Donor(w.db, o.k).value);
      var acts := [TakeClaim] + rest;
      assert acts[0] == TakeClaim && acts[1..] == rest;
      assert Allowed(w, acts) && Exec(w, acts) == r;
    }
  }

  /** The same on runs: after any guarded run from empty tables, whatever it met. */
  lemma ClaimGuardIsExactOnRuns(clock: int, past: seq<Action>)
    requires Allowed(Start(clock), past) && Guarded(Start(clock), past)
    requires Exec(Start(clock), past).pc.Checked? && Exec(Start(clock), past).clock - Exec(Start(clock), past).pc.now < HOUR
    ensures
      var w := Exec(Start(clock), past);
      && w.pc.owed != [] && w.pc.owed[0].k in w.db.keepsakes
      && (SafeToTake(w) <==> SafeClaim(w.db, w.pc.owed[0]))
  {
    RunKeepsInv(Start(clock), past);
    ClaimGuardIsExact(Exec(Start(clock), past));
  }

  // ---------- the loop of the sweep is a run of the protocol ----------

  /** What one turn of the loop does, step by step. */
  ghost function Turn(w: World, x: Exchange, taken: Option<MailId>): seq<Action>
    requires w.pc.Walking? && w.pc.owed != []
  {
    var o := w.pc.owed[0];
    if IsSuppressed(w.db.suppressed, o.to) || !o.paintings.Ready? then [CheckNext]
    else if !ClaimSend(w.db.sends, o.k, w.pc.now).1.New? && !ClaimSend(w.db.sends, o.k, w.pc.now).1.Retry? then [CheckNext, TakeClaim]
    else if ReadAnswer(x).Failed? then [CheckNext, TakeClaim, Deliver(x, taken), Write]
    else [CheckNext, TakeClaim, Deliver(x, taken), Write, Settle]
  }

  lemma RunFurther(w: World, acts: seq<Action>, a: Action)
    requires Allowed(w, acts) && Enabled(Exec(w, acts), a)
    ensures Allowed(w, acts + [a]) && Exec(w, acts + [a]) == Apply(Exec(w, acts), a)
  {
    var v := Exec(w, acts);
    assert Allowed(Apply(v, a), []) && Exec(Apply(v, a), []) == Apply(v, a);
    assert [a][1..] == [] && Allowed(v, [a]) && Exec(v, [a]) == Apply(v, a);
    ExecConcat(w, acts, [a]);
  }

  ghost predicate TurnAgrees(w: World, report: Report, x: Exchange, taken: Option<MailId>)
    requires w.pc.Walking? && w.pc.owed != []
  {
    && Allowed(w, Turn(w, x, taken))
    && Exec(w, Turn(w, x, taken)).db == SweepOne(w.db, report, w.pc.owed[0], w.pc.now, ReadAnswer(x), w.clock).0
    && Exec(w, Turn(w, x, taken)).pc == Walking(w.pc.now, w.pc.owed[1..])
  }

  /** Deliver and write, from a claim: whatever left, the row gets the outcome. */
  lemma SentAndWritten(w: World, acts: seq<Action>, v: World, x: Exchange, taken: Option<MailId>)
    requires Allowed(w, acts) && v == Exec(w, acts) && Enabled(v, Deliver(x, taken))
    ensures Allowed(w, acts + [Deliver(x, taken)] + [Write])
    ensures
      var u := Exec(w, acts + [Deliver(x, taken)] + [Write]);
      && u.db == v.db.(sends := WriteOutcome(v.db.sends, v.pc.owed[0].k, v.pc.isNew, ReadAnswer(x), v.clock))
      && u.pc == (if ReadAnswer(x).Sent? then Settling(v.pc.now, v.pc.owed, ReadAnswer(x).id) else Walking(v.pc.now, v.pc.owed[1..]))
  {
    RunFurther(w, acts, Deliver(x, taken));
    RunFurther(w, acts + [Deliver(x, taken)], Write);
  }

  lemma SendingTurn(w: World, report: Report, x: Exchange, taken: Option<MailId>, v: World)
    requires w.pc.Walking? && w.pc.owed != [] && w.pc.owed[0].k in w.db.keepsakes
    requires !IsSuppressed(w.db.suppressed, w.pc.owed[0].to) && w.pc.owed[0].paintings.Ready?
    requires Allowed(w, [CheckNext] + [TakeClaim]) && v == Exec(w, [CheckNext] + [TakeClaim])
    requires v.pc.Claimed? && v == w.(db := w.db.(sends := ClaimSend(w.db.sends, w.pc.owed[0].k, w.pc.now).0), pc := v.pc)
    requires v.pc == Claimed(w.pc.now, w.pc.owed, ClaimSend(w.db.sends, w.pc.owed[0].k, w.pc.now).1.New?)
    requires Enabled(v, Deliver(x, taken))
    requires var claim := ClaimSend(w.db.sends, w.pc.owed[0].k, w.pc.now).1; claim.New? || claim.Retry?
    ensures TurnAgrees(w, report, x, taken)
  {
    var start := [CheckNext] + [TakeClaim];
    SentAndWritten(w, start, v, x, taken);
    if ReadAnswer(x).Sent? {
      RunFurther(w, start + [Deliver(x, taken)] + [Write], Settle);
      assert Turn(w, x, taken) == start + [Deliver(x, taken)] + [Write] + [Settle];
    } else {
      assert Turn(w, x, taken) == start + [Deliver(x, taken)] + [Write];
    }
  }

  /** One turn of `sendOwedPaintings`, uninterrupted, leaves the tables the protocol's steps leave. */
  lemma TurnIsRun(w: World, report: Report, x: Exchange, taken: Option<MailId>)
    requires w.pc.Walking? && w.pc.owed != [] && w.pc.owed[0].k in w.db.keepsakes
    requires w.clock - w.pc.now < HOUR && Honest(x, taken)
    requires
      var key := KeyOf(w.db, w.pc.owed[0].k, w.pc.owed[0].to);
      taken.Some? ==> if Remembered(w, key) then taken.value == w.keys[key].id else NewId(w, taken.value)
    ensures TurnAgrees(w, report, x, taken)
  {
    var o := w.pc.owed[0];
    RunFurther(w, [], CheckNext);
    if IsSuppressed(w.db.suppressed, o.to) || !o.paintings.Ready? {
      assert Turn(w, x, taken) == [] + [CheckNext];
    } else {
      RunFurther(w, [CheckNext], TakeClaim);
      var v := Exec(w, [CheckNext] + [TakeClaim]);
      if v.pc.Claimed? {
        SendingTurn(w, report, x, taken, v);
      } else {
        assert Turn(w, x, taken) == [CheckNext] + [TakeClaim];
      }
    }
  }
}
