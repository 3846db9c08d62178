/** Duplicates are harmless: a run's gifts are those of the run that keeps only the first decision of each equal body. */
module GiftRuns {
  import opened Prelude
  import opened GiftBodies
  import opened Gifts

  /** The bodies decided in a run. */
  function DecidedIn(acts: seq<Action>): set<Delivery> {
    set a | a in acts && a.Settle? :: a.delivery
  }

  /** The run without the decisions that came after an equal body's first one. */
  function FirstOnly(acts: seq<Action>): seq<Action> {
    if acts == [] then [] else
      var init, last := acts[..|acts| - 1], acts[|acts| - 1];
      if last.Settle? && last.delivery in DecidedIn(init) then FirstOnly(init) else FirstOnly(init) + [last]
  }

  /** Everything but the decisions of repeats. */
  ghost predicate SameGifts(all: Db, firsts: Db) {
    && all.intents == firsts.intents && all.payloads == firsts.payloads
    && all.donations == firsts.donations && all.stats == firsts.stats
    && forall p :: p in firsts.decisions ==> p in all.decisions && all.decisions[p] == firsts.decisions[p]
  }

  ghost predicate RowDecided(db: Db, p: nat, d: Delivery) {
    p in db.decisions && p in db.payloads && db.payloads[p].delivery == d
  }

  ghost predicate HasDecided(db: Db, d: Delivery) { exists p :: RowDecided(db, p, d) }

  lemma {:induction false} DecidedBodiesHaveRows(judge: Delivery -> Verdict, acts: seq<Action>)
    requires Allowed(judge, acts)
    ensures forall d :: d in DecidedIn(acts) ==> HasDecided(Exec(judge, acts), d)
  {
    if acts != [] {
      var init, last := acts[..|acts| - 1], acts[|acts| - 1];
      var was, now := Exec(judge, init), Exec(judge, acts);
      DecidedBodiesHaveRows(judge, init);
      assert acts == init + [last];
      forall d | d in DecidedIn(acts) ensures HasDecided(now, d) {
        if d in DecidedIn(init) {
          var p :| RowDecided(was, p, d);
          assert RowDecided(now, p, d);
        } else {
          assert last.Settle? && last.delivery == d;
          assert RowDecided(now, last.payloadId, d);
        }
      }
    }
  }

  lemma {:induction false} DecidedRowsHaveBodies(judge: Delivery -> Verdict, acts: seq<Action>, p: nat, d: Delivery)
    requires ReadsOwnIntent(judge) && Allowed(judge, acts) && RowDecided(Exec(judge, acts), p, d)
    ensures d in DecidedIn(acts)
  {
    if acts != [] {
      var init, last := acts[..|acts| - 1], acts[|acts| - 1];
      RunConserves(judge, init);
      assert acts == init + [last];
      if last.Settle? && p == last.payloadId {
        assert last.delivery == d;
      } else {
        DecidedRowsHaveBodies(judge, init, p, d);
      }
    }
  }

  /** Deciding an equal body again changes nothing but, perhaps, adds the repeat's own decision. */
  lemma RepeatChangesNothing(judge: Delivery -> Verdict, db: Db, firsts: Db, payloadId: nat, delivery: Delivery)
    requires Conserved(db, judge) && SameGifts(db, firsts) && HasDecided(db, delivery)
    ensures SameGifts(Decide(db, payloadId, judge(delivery)), firsts)
  {
    var p :| RowDecided(db, p, delivery);
    assert Spent(db, judge(db.payloads[p].delivery));
  }

  lemma SameOutcome(db: Db, firsts: Db, verdict: Verdict)
    requires SameGifts(db, firsts)
    ensures OutcomeOf(db, verdict) == OutcomeOf(firsts, verdict)
  {
  }

  lemma StepTogether(judge: Delivery -> Verdict, db: Db, firsts: Db, a: Action)
    requires SameGifts(db, firsts) && Enabled(db, a) && (a.Settle? ==> a.payloadId !in db.decisions)
    ensures Enabled(firsts, a) && SameGifts(Apply(db, judge, a), Apply(firsts, judge, a))
  {
    if a.Settle? { SameOutcome(db, firsts, judge(a.delivery)); }
  }

  /**
   However often a delivery is stored and decided, by request, replay or late insert, in any order: the donations,
   the statistics and the closed intents are those of the run that keeps only the first decision of each equal body.
   */
  lemma {:induction false} DuplicatesAreHarmless(judge: Delivery -> Verdict, acts: seq<Action>)
    requires ReadsOwnIntent(judge) && Allowed(judge, acts)
    ensures Allowed(judge, FirstOnly(acts))
    ensures SameGifts(Exec(judge, acts), Exec(judge, FirstOnly(acts)))
  {
    if acts != [] {
      var init, last := acts[..|acts| - 1], acts[|acts| - 1];
      var was, firsts := Exec(judge, init), Exec(judge, FirstOnly(init));
      DuplicatesAreHarmless(judge, init);
      RunConserves(judge, init);
      DecidedBodiesHaveRows(judge, init);
      if last.Settle? && last.delivery in DecidedIn(init) {
        RepeatChangesNothing(judge, was, firsts, last.payloadId, last.delivery);
      } else {
        if last.Settle? && last.payloadId in was.decisions {
          DecidedRowsHaveBodies(judge, init, last.payloadId, last.delivery);
        }
        StepTogether(judge, was, firsts, last);
        assert (FirstOnly(init) + [last])[..|FirstOnly(init)|] == FirstOnly(init);
      }
    }
  }

  /** With the rows read as the platform reads them. */
  lemma ReadingDuplicatesAreHarmless(parse: string -> Option<seq<Entry>>, readDate: string -> Option<int>, acts: seq<Action>)
    requires Allowed(Reading(parse, readDate), acts)
    ensures
      var judge := Reading(parse, readDate);
      Allowed(judge, FirstOnly(acts)) && SameGifts(Exec(judge, acts), Exec(judge, FirstOnly(acts)))
  {
    ReadingIsOwn(parse, readDate);
    DuplicatesAreHarmless(Reading(parse, readDate), acts);
  }
}
