/**
 Deciding stored deliveries (webhook.ts): what one decision does to the tables, what every run of deliveries keeps,
 and why a delivery that became several rows is still one gift.
 */
module Gifts {
  import opened Prelude
  import opened GiftBodies

  datatype Intent = Intent(source: string, externalId: string, slug: string, ein: string, closed: bool)

  /** What a decision reads of a raw row: the stored body's text and the intent it names. Deliveries of one gift keep the same. */
  datatype Delivery = Delivery(body: string, partner: Option<string>)

  datatype Header = Header(name: string, value: string)

  /** A raw row. */
  datatype Payload = Payload(delivery: Delivery, headers: seq<Header>, receivedAt: int)

  datatype Outcome =
    | Recorded | Repeated | Unreadable | NoPartner | NotCompleted | BadShapes
    | NoIntent | ClosedIntent | ChargeOnOtherIntent | NonprofitMismatch

  datatype Donation = Donation(intentId: string, payloadId: nat, fields: Fields)

  datatype Stat = Stat(source: string, externalId: string, slug: string, cents: nat, currency: string, frequency: string, donatedOn: int)

  datatype Db = Db(
    intents: map<string, Intent>, payloads: map<nat, Payload>, decisions: map<nat, Outcome>,
    donations: seq<Donation>, stats: seq<Stat>)

  const EMPTY := Db(map[], map[], map[], [], [])

  const DAY_MS := 86_400_000

  /** How a row is read: `StoredVerdict`, with the platform's JSON and date parsers. */
  function Reading(parse: string -> Option<seq<Entry>>, readDate: string -> Option<int>): Delivery -> Verdict {
    (d: Delivery) =>
      var stored := parse(d.body);
      if stored.None? then Unparsable else StoredVerdict(stored.value, d.partner, readDate)
  }

  /** `prepareDelivery`: the stored form of a delivery, before any query. */
  function Prepare(parsed: Option<seq<Entry>>, toText: seq<Entry> -> string): Delivery {
    Delivery(toText(StoredFields(parsed)), PartnerOf(parsed))
  }

  /** A row is read as its whole body would have been, the stored form going through text and back. */
  lemma PreparedReadsAsBody(
    parsed: Option<seq<Entry>>, toText: seq<Entry> -> string, parse: string -> Option<seq<Entry>>, readDate: string -> Option<int>)
    requires parsed.Some? ==> ParsedBody(parsed.value)
    requires parse(toText(StoredFields(parsed))) == Some(StoredFields(parsed))
    ensures Reading(parse, readDate)(Prepare(parsed, toText)) == BodyVerdict(parsed, PartnerOf(parsed), readDate)
  {
    StoredDecidesAlike(parsed, PartnerOf(parsed), readDate);
  }

  function IsFigureOf(): char -> bool { (c: char) => IsDigit(c) }

  function EinDigits(ein: string): string { Filter(IsFigureOf(), ein) }

  /** The intent the donation with this charge is on. */
  function ChargedTo(donations: seq<Donation>, chargeId: string): (r: Option<string>)
    ensures r.None? ==> forall d :: d in donations ==> d.fields.chargeId != chargeId
    ensures r.Some? ==> exists d :: d in donations && d.fields.chargeId == chargeId && d.intentId == r.value
  {
    if donations == [] then None
    else if donations[0].fields.chargeId == chargeId then Some(donations[0].intentId)
    else ChargedTo(donations[1..], chargeId)
  }

  predicate SameNonprofit(intent: Intent, f: Fields) { intent.slug == f.slug && EinDigits(intent.ein) == EinDigits(f.ein) }

  /** What a completed gift is found to be, under the intent's row lock. */
  function Found(db: Db, intentId: string, f: Fields): Outcome {
    if intentId !in db.intents then NoIntent
    else if !SameNonprofit(db.intents[intentId], f) then NonprofitMismatch
    else if db.intents[intentId].closed then
      if ChargedTo(db.donations, f.chargeId) == Some(intentId) then Repeated else ClosedIntent
    else if ChargedTo(db.donations, f.chargeId).Some? then ChargeOnOtherIntent
    else Recorded
  }

  function StatOf(intent: Intent, f: Fields): Stat {
    Stat(intent.source, intent.externalId, f.slug, f.cents, f.currency, f.frequency, f.donatedAt / DAY_MS)
  }

  /** The three writes of a recorded gift. */
  function Give(db: Db, payloadId: nat, intentId: string, f: Fields): Db
    requires intentId in db.intents
  {
    var intent := db.intents[intentId];
    db.(donations := db.donations + [Donation(intentId, payloadId, f)],
        stats := db.stats + [StatOf(intent, f)],
        intents := db.intents[intentId := intent.(closed := true)])
  }

  function OutcomeOf(db: Db, verdict: Verdict): Outcome {
    match verdict
    case Unparsable => Unreadable
    case NoPartnerId => NoPartner
    case OtherEvent => NotCompleted
    case BadFields => BadShapes
    case Gift(intentId, f) => Found(db, intentId, f)
  }

  /** `insert … on conflict do nothing` into the decisions. */
  function Note(db: Db, payloadId: nat, outcome: Outcome): Db {
    if payloadId in db.decisions then db else db.(decisions := db.decisions[payloadId := outcome])
  }

  /** One committed decision: the gift's writes and the decision row land together. */
  function Decide(db: Db, payloadId: nat, verdict: Verdict): Db {
    var outcome := OutcomeOf(db, verdict);
    Note(if outcome == Recorded then Give(db, payloadId, verdict.intentId, verdict.fields) else db, payloadId, outcome)
  }

  // ---------- runs ----------

  /** A donor starts a gift; a delivery becomes a row; a row is decided. A decision that fails rolls back and is no step. */
  datatype Action = Mint(id: string, intent: Intent) | Store(rowId: nat, payload: Payload) | Settle(payloadId: nat, delivery: Delivery)

  /** New intents are open and their ids were named by no decided delivery; a decision reads its own row. */
  ghost predicate Enabled(db: Db, a: Action) {
    match a
    case Mint(id, intent) => id !in db.intents && !intent.closed && Unnamed(db, id)
    case Store(rowId, payload) => rowId !in db.payloads
    case Settle(payloadId, delivery) => payloadId in db.payloads && db.payloads[payloadId].delivery == delivery
  }

  ghost predicate Unnamed(db: Db, id: string) {
    forall p :: p in db.decisions && p in db.payloads ==> db.payloads[p].delivery.partner != Some(id)
  }

  function Apply(db: Db, judge: Delivery -> Verdict, a: Action): Db {
    match a
    case Mint(id, intent) => db.(intents := db.intents[id := intent])
    case Store(rowId, payload) => db.(payloads := db.payloads[rowId := payload])
    case Settle(payloadId, delivery) => Decide(db, payloadId, judge(delivery))
  }

  /** A gift is read only for the intent its row names, as `Reading` does. */
  ghost predicate ReadsOwnIntent(judge: Delivery -> Verdict) {
    forall d :: judge(d).Gift? ==> d.partner == Some(judge(d).intentId)
  }

  lemma ReadingIsOwn(parse: string -> Option<seq<Entry>>, readDate: string -> Option<int>)
    ensures ReadsOwnIntent(Reading(parse, readDate))
  {
  }

  function Exec(judge: Delivery -> Verdict, acts: seq<Action>): Db {
    if acts == [] then EMPTY else Apply(Exec(judge, acts[..|acts| - 1]), judge, acts[|acts| - 1])
  }

  ghost predicate Allowed(judge: Delivery -> Verdict, acts: seq<Action>) {
    acts == [] || (Allowed(judge, acts[..|acts| - 1]) && Enabled(Exec(judge, acts[..|acts| - 1]), acts[|acts| - 1]))
  }

  // ---------- what every run keeps ----------

  ghost predicate HasGift(donations: seq<Donation>, intentId: string) {
    exists d :: d in donations && d.intentId == intentId
  }

  /** An intent is closed exactly when it has a donation, and no intent or charge or payload has two. */
  ghost predicate OneGiftEach(db: Db) {
    && (forall i :: i in db.intents ==> (db.intents[i].closed <==> HasGift(db.donations, i)))
    && (forall d :: d in db.donations ==> d.intentId in db.intents)
    && (forall j, k :: 0 <= j < k < |db.donations| ==>
          && db.donations[j].intentId != db.donations[k].intentId
          && db.donations[j].fields.chargeId != db.donations[k].fields.chargeId
          && db.donations[j].payloadId != db.donations[k].payloadId)
  }

  /** Each donation has its own stat, and it is the stat of that gift. */
  ghost predicate StatsMatch(db: Db) {
    && |db.stats| == |db.donations|
    && forall k :: 0 <= k < |db.donations| ==>
         db.donations[k].intentId in db.intents && db.stats[k] == StatOf(db.intents[db.donations[k].intentId], db.donations[k].fields)
  }

  ghost predicate Paid(donations: seq<Donation>, payloadId: nat) { exists d :: d in donations && d.payloadId == payloadId }

  /** A payload's decision is `recorded` exactly when a donation references it. */
  ghost predicate DecisionsMatch(db: Db) {
    && (forall p :: p in db.decisions ==> p in db.payloads && (db.decisions[p] == Recorded <==> Paid(db.donations, p)))
    && (forall d :: d in db.donations ==> d.payloadId in db.decisions)
  }

  /** A donation says what its payload said, for the nonprofit its intent named. */
  ghost predicate DonationsFaithful(db: Db, judge: Delivery -> Verdict) {
    forall d :: d in db.donations && d.payloadId in db.payloads && d.intentId in db.intents ==>
      && judge(db.payloads[d.payloadId].delivery) == Gift(d.intentId, d.fields)
      && SameNonprofit(db.intents[d.intentId], d.fields)
  }

  /** Deciding it again would record nothing. */
  predicate Spent(db: Db, verdict: Verdict) { OutcomeOf(db, verdict) != Recorded }

  ghost predicate DecidedAreSpent(db: Db, judge: Delivery -> Verdict) {
    forall p :: p in db.decisions && p in db.payloads ==> Spent(db, judge(db.payloads[p].delivery))
  }

  ghost predicate Conserved(db: Db, judge: Delivery -> Verdict) {
    OneGiftEach(db) && StatsMatch(db) && DecisionsMatch(db) && DonationsFaithful(db, judge) && DecidedAreSpent(db, judge)
  }

  lemma GiveKeepsSpent(db: Db, payloadId: nat, intentId: string, f: Fields, other: string, g: Fields)
    requires intentId in db.intents && Found(db, other, g) != Recorded
    ensures Found(Give(db, payloadId, intentId, f), other, g) != Recorded
  {
    ChargesGrow(db.donations, Donation(intentId, payloadId, f), g.chargeId);
  }

  lemma DecideKeepsSpent(db: Db, payloadId: nat, decided: Verdict, verdict: Verdict)
    requires Spent(db, verdict)
    ensures Spent(Decide(db, payloadId, decided), verdict)
  {
    if OutcomeOf(db, decided) == Recorded && verdict.Gift? {
      GiveKeepsSpent(db, payloadId, decided.intentId, decided.fields, verdict.intentId, verdict.fields);
    }
  }

  /** Once spent, only minting the very intent it names could make a verdict count again. */
  lemma SpentStays(db: Db, judge: Delivery -> Verdict, a: Action, verdict: Verdict)
    requires Spent(db, verdict) && Enabled(db, a)
    requires a.Mint? && verdict.Gift? ==> verdict.intentId != a.id
    ensures Spent(Apply(db, judge, a), verdict)
  {
    if a.Settle? { DecideKeepsSpent(db, a.payloadId, judge(a.delivery), verdict); }
  }

  lemma {:induction false} ChargesGrow(donations: seq<Donation>, d: Donation, chargeId: string)
    ensures ChargedTo(donations + [d], chargeId) ==
      if ChargedTo(donations, chargeId).Some? then ChargedTo(donations, chargeId)
      else if d.fields.chargeId == chargeId then Some(d.intentId) else None
  {
    if donations != [] {
      assert (donations + [d])[1..] == donations[1..] + [d];
      ChargesGrow(donations[1..], d, chargeId);
    }
  }

  /** Right after a decision, the verdict decided is spent. */
  lemma DecidingSpends(db: Db, payloadId: nat, verdict: Verdict)
    ensures Spent(Decide(db, payloadId, verdict), verdict)
  {
  }

  lemma RecordKeepsOneGift(db: Db, payloadId: nat, intentId: string, f: Fields)
    requires OneGiftEach(db) && Found(db, intentId, f) == Recorded && !Paid(db.donations, payloadId)
    ensures OneGiftEach(Give(db, payloadId, intentId, f))
  {
    var next := Give(db, payloadId, intentId, f);
    var d := Donation(intentId, payloadId, f);
    assert forall x :: x in next.donations <==> x in db.donations || x == d;
    assert d in next.donations;
    forall i | i in next.intents ensures next.intents[i].closed <==> HasGift(next.donations, i) {
      if i != intentId && HasGift(next.donations, i) {
        var x :| x in next.donations && x.intentId == i;
        assert x in db.donations;
      }
      if i != intentId && next.intents[i].closed {
        var x :| x in db.donations && x.intentId == i;
        assert x in next.donations;
      }
    }
    forall j | 0 <= j < |db.donations|
      ensures db.donations[j].intentId != intentId && db.donations[j].fields.chargeId != f.chargeId && db.donations[j].payloadId != payloadId
    {
      assert db.donations[j] in db.donations;
    }
  }

  lemma RecordKeepsStats(db: Db, payloadId: nat, intentId: string, f: Fields)
    requires StatsMatch(db) && Found(db, intentId, f) == Recorded
    ensures StatsMatch(Give(db, payloadId, intentId, f))
  {
  }

  lemma DecideKeepsDecisions(db: Db, payloadId: nat, verdict: Verdict)
    requires DecisionsMatch(db) && payloadId in db.payloads && (payloadId in db.decisions ==> Spent(db, verdict))
    ensures DecisionsMatch(Decide(db, payloadId, verdict))
  {
    var next := Decide(db, payloadId, verdict);
    if OutcomeOf(db, verdict) == Recorded {
      var d := Donation(verdict.intentId, payloadId, verdict.fields);
      assert next.donations == db.donations + [d];
      assert forall x :: x in next.donations <==> x in db.donations || x == d;
      assert d in next.donations;
      forall p | p in next.decisions ensures next.decisions[p] == Recorded <==> Paid(next.donations, p) {
        if p != payloadId {
          if Paid(db.donations, p) {
            var x :| x in db.donations && x.payloadId == p;
            assert x in next.donations;
          }
        }
      }
    }
  }

  lemma DecideKeepsFaithful(db: Db, judge: Delivery -> Verdict, payloadId: nat, delivery: Delivery)
    requires DonationsFaithful(db, judge) && DecisionsMatch(db) && OneGiftEach(db)
    requires payloadId in db.payloads && db.payloads[payloadId].delivery == delivery
    ensures DonationsFaithful(Decide(db, payloadId, judge(delivery)), judge)
  {
    var next := Decide(db, payloadId, judge(delivery));
    forall d | d in next.donations && d.payloadId in next.payloads && d.intentId in next.intents
      ensures judge(next.payloads[d.payloadId].delivery) == Gift(d.intentId, d.fields) && SameNonprofit(next.intents[d.intentId], d.fields)
    {
      assert d in db.donations || d.payloadId == payloadId;
    }
  }

  lemma StepKeepsSpent(db: Db, judge: Delivery -> Verdict, a: Action)
    requires DecidedAreSpent(db, judge) && DecisionsMatch(db) && ReadsOwnIntent(judge) && Enabled(db, a)
    ensures DecidedAreSpent(Apply(db, judge, a), judge)
  {
    var next := Apply(db, judge, a);
    forall p | p in next.decisions && p in next.payloads ensures Spent(next, judge(next.payloads[p].delivery)) {
      if a.Settle? && p == a.payloadId {
        DecidingSpends(db, p, judge(a.delivery));
      } else {
        assert p in db.decisions && next.payloads[p] == db.payloads[p];
        SpentStays(db, judge, a, judge(db.payloads[p].delivery));
      }
    }
  }

  lemma MintConserves(db: Db, judge: Delivery -> Verdict, a: Action)
    requires Conserved(db, judge) && a.Mint? && Enabled(db, a)
    ensures OneGiftEach(Apply(db, judge, a)) && StatsMatch(Apply(db, judge, a)) && DonationsFaithful(Apply(db, judge, a), judge)
  {
  }

  lemma SettleConserves(db: Db, judge: Delivery -> Verdict, payloadId: nat, delivery: Delivery)
    requires Conserved(db, judge) && Enabled(db, Settle(payloadId, delivery))
    ensures
      var next := Decide(db, payloadId, judge(delivery));
      OneGiftEach(next) && StatsMatch(next) && DecisionsMatch(next)
  {
    var verdict := judge(delivery);
    DecideKeepsDecisions(db, payloadId, verdict);
    if OutcomeOf(db, verdict) == Recorded {
      RecordKeepsOneGift(db, payloadId, verdict.intentId, verdict.fields);
      RecordKeepsStats(db, payloadId, verdict.intentId, verdict.fields);
    }
  }

  lemma StepConserves(db: Db, judge: Delivery -> Verdict, a: Action)
    requires Conserved(db, judge) && ReadsOwnIntent(judge) && Enabled(db, a)
    ensures Conserved(Apply(db, judge, a), judge)
  {
    StepKeepsSpent(db, judge, a);
    match a
    case Mint(_, _) => MintConserves(db, judge, a);
    case Store(_, _) =>
    case Settle(payloadId, delivery) =>
      SettleConserves(db, judge, payloadId, delivery);
      DecideKeepsFaithful(db, judge, payloadId, delivery);
  }

  /** Gifts are conserved on every run. */
  lemma {:induction false} RunConserves(judge: Delivery -> Verdict, acts: seq<Action>)
    requires ReadsOwnIntent(judge) && Allowed(judge, acts)
    ensures Conserved(Exec(judge, acts), judge)
  {
    if acts != [] {
      RunConserves(judge, acts[..|acts| - 1]);
      StepConserves(Exec(judge, acts[..|acts| - 1]), judge, acts[|acts| - 1]);
    }
  }

  /** So they are with the rows read as the platform reads them, whatever its parsers make of a text. */
  lemma ReadingConserves(parse: string -> Option<seq<Entry>>, readDate: string -> Option<int>, acts: seq<Action>)
    requires Allowed(Reading(parse, readDate), acts)
    ensures Conserved(Exec(Reading(parse, readDate), acts), Reading(parse, readDate))
  {
    ReadingIsOwn(parse, readDate);
    RunConserves(Reading(parse, readDate), acts);
  }

  ghost predicate Charged(donations: seq<Donation>, intentId: string, chargeId: string) {
    exists d :: d in donations && d.intentId == intentId && d.fields.chargeId == chargeId
  }

  ghost predicate ChargeKnown(donations: seq<Donation>, chargeId: string) {
    exists d :: d in donations && d.fields.chargeId == chargeId
  }

  /** In any reachable state, what each outcome says about the donations, whatever flags it was read from. */
  lemma OutcomesMean(db: Db, intentId: string, f: Fields)
    requires OneGiftEach(db)
    ensures
      var known := intentId in db.intents && SameNonprofit(db.intents[intentId], f);
      var given := HasGift(db.donations, intentId);
      var outcome := Found(db, intentId, f);
      && (outcome == NoIntent <==> intentId !in db.intents)
      && (outcome == NonprofitMismatch <==> intentId in db.intents && !known)
      && (outcome == Repeated <==> known && Charged(db.donations, intentId, f.chargeId))
      && (outcome == ClosedIntent <==> known && given && !Charged(db.donations, intentId, f.chargeId))
      && (outcome == ChargeOnOtherIntent <==> known && !given && ChargeKnown(db.donations, f.chargeId))
      && (outcome == Recorded <==> known && !given && !ChargeKnown(db.donations, f.chargeId))
  {
    var owner := ChargedTo(db.donations, f.chargeId);
    if owner.Some? {
      var d :| d in db.donations && d.fields.chargeId == f.chargeId && d.intentId == owner.value;
      assert ChargeKnown(db.donations, f.chargeId) && HasGift(db.donations, owner.value);
      forall e | e in db.donations && e.fields.chargeId == f.chargeId ensures e == d {
        var j :| 0 <= j < |db.donations| && db.donations[j] == d;
        var k :| 0 <= k < |db.donations| && db.donations[k] == e;
        assert j == k || j < k || k < j;
      }
    }
  }

  // ---------- totals ----------

  function StatTotal(stats: seq<Stat>, source: string, externalId: string, currency: string): nat {
    if stats == [] then 0 else
      var s := stats[|stats| - 1];
      StatTotal(stats[..|stats| - 1], source, externalId, currency)
      + if s.source == source && s.externalId == externalId && s.currency == currency then s.cents else 0
  }

  function GiftTotal(donations: seq<Donation>, intents: map<string, Intent>, source: string, externalId: string,
      currency: string): nat {
    if donations == [] then 0 else
      var d := donations[|donations| - 1];
      GiftTotal(donations[..|donations| - 1], intents, source, externalId, currency)
      + if d.intentId in intents && intents[d.intentId].source == source && intents[d.intentId].externalId == externalId && d.fields.currency == currency
        then d.fields.cents else 0
  }

  /** What the statistics say an animal was given, in each currency, is what its intents' donations add up to. */
  lemma {:induction false} TotalsAgree(db: Db, source: string, externalId: string, currency: string)
    requires StatsMatch(db)
    ensures StatTotal(db.stats, source, externalId, currency) == GiftTotal(db.donations, db.intents, source, externalId, currency)
    decreases |db.stats|
  {
    if db.donations != [] {
      var n := |db.donations| - 1;
      var before := db.(donations := db.donations[..n], stats := db.stats[..n]);
      TotalsAgree(before, source, externalId, currency);
    }
  }
}
