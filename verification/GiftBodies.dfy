/**
 The part of a webhook's body a raw row stores, and the verdict read from it (webhook.ts). A verdict read from the stored form is
 the one the whole body would have given.
 */
module GiftBodies {
  import opened Prelude
  import opened Sorting

  /** A parsed JSON value, as far as the webhook looks: a number or boolean is `Plain`. */
  datatype Value = Null | Plain | Text(text: string) | List(items: seq<Value>) | Record(fields: seq<Entry>)

  datatype Entry = Entry(key: string, value: Value)

  // ---------- shapes ----------

  predicate IsDigit(c: char) { '0' <= c <= '9' }
  predicate IsUpper(c: char) { 'A' <= c <= 'Z' }
  predicate IsLower(c: char) { 'a' <= c <= 'z' }
  predicate IsWord(c: char) { IsDigit(c) || IsUpper(c) || IsLower(c) || c == '_' }

  predicate Digits(s: string) { forall i :: 0 <= i < |s| ==> IsDigit(s[i]) }

  /** `(,\d{3})+` */
  predicate Groups(s: string) {
    |s| >= 4 && s[0] == ',' && Digits(s[1..4]) && (|s| == 4 || Groups(s[4..]))
  }

  predicate Fraction(s: string) { s == "" || (s[0] == '.' && 2 <= |s| <= 3 && Digits(s[1..])) }

  predicate Whole(s: string) {
    || (1 <= |s| <= 10 && Digits(s))
    || exists h :: 1 <= h <= 3 && h <= |s| && Digits(s[..h]) && Groups(s[h..])
  }

  predicate Money(s: string) { exists i :: 0 <= i <= |s| && Whole(s[..i]) && Fraction(s[i..]) }

  predicate Zone(s: string) {
    || s == "Z"
    || (|s| == 5 && s[0] in "+-" && Digits(s[1..]))
    || (|s| == 6 && s[0] in "+-" && Digits(s[1..3]) && s[3] == ':' && Digits(s[4..]))
  }

  predicate IsoInstant(s: string) {
    && |s| >= 13
    && Digits(s[..4]) && s[4] == '-' && Digits(s[5..7]) && s[7] == '-' && Digits(s[8..10]) && s[10] == 'T'
    && exists i :: 12 <= i <= |s| && (forall k :: 11 <= k < i ==> IsDigit(s[k]) || s[k] in ":.") && Zone(s[i..])
  }

  datatype Shape = Event | Charge | IntentId | Amount | Currency | Frequency | Instant | Method | Slug | Ein | Name

  predicate Fits(shape: Shape, s: string) {
    match shape
    case Event => 1 <= |s| <= 64 && forall i :: 0 <= i < |s| ==> IsLower(s[i]) || s[i] in "_."
    case Charge => 1 <= |s| <= 128 && forall i :: 0 <= i < |s| ==> IsWord(s[i]) || s[i] in ".:/+=-"
    case IntentId => |s| == 22 && forall i :: 0 <= i < |s| ==> IsWord(s[i]) || s[i] == '-'
    case Amount => Money(s)
    case Currency => |s| == 3 && forall i :: 0 <= i < |s| ==> IsUpper(s[i])
    case Frequency => 1 <= |s| <= 32 && forall i :: 0 <= i < |s| ==> IsUpper(s[i]) || s[i] == '_'
    case Instant => IsoInstant(s)
    case Method => 1 <= |s| <= 32 && forall i :: 0 <= i < |s| ==> IsUpper(s[i]) || IsLower(s[i]) || s[i] in "_-"
    case Slug => 1 <= |s| <= 128 && forall i :: 0 <= i < |s| ==> IsWord(s[i]) || s[i] == '-'
    case Ein =>
      || (|s| == 9 && Digits(s))
      || (|s| == 10 && Digits(s[..2]) && s[2] == '-' && Digits(s[3..]))
    case Name => 1 <= |s| <= 200 && forall i :: 0 <= i < |s| ==> s[i] !in "@%<>"
  }

  function KeptShape(key: string): Option<Shape> {
    if key == "event" then Some(Event)
    else if key == "chargeId" then Some(Charge)
    else if key == "partnerDonationId" then Some(IntentId)
    else if key == "amount" || key == "netAmount" then Some(Amount)
    else if key == "currency" then Some(Currency)
    else if key == "frequency" then Some(Frequency)
    else if key == "donationDate" then Some(Instant)
    else if key == "paymentMethod" then Some(Method)
    else None
  }

  function KeptNonprofitShape(key: string): Option<Shape> {
    if key == "slug" then Some(Slug) else if key == "ein" then Some(Ein) else if key == "name" then Some(Name) else None
  }

  function ShapeOf(nonprofit: bool, key: string): Option<Shape> {
    if nonprofit then KeptNonprofitShape(key) else KeptShape(key)
  }

  predicate KeyName(s: string) { 1 <= |s| <= 64 && forall i :: 0 <= i < |s| ==> IsWord(s[i]) || s[i] in ".-" }

  predicate IsKept(nonprofit: bool, e: Entry) {
    ShapeOf(nonprofit, e.key).Some? && e.value.Text? && Fits(ShapeOf(nonprofit, e.key).value, e.value.text)
  }

  // ---------- what a row keeps ----------

  function KeptBy(nonprofit: bool): Entry -> bool { (e: Entry) => IsKept(nonprofit, e) }

  function Named(key: string, prefix: string): string { prefix + if KeyName(key) then key else "[unnamed]" }

  /** The name one entry leaves behind, if it is left behind. */
  function DroppedName(nonprofit: bool, prefix: string, e: Entry): seq<string> {
    if IsKept(nonprofit, e) then [] else [Named(e.key, prefix)]
  }

  /** The names of what is left behind, in the order met. */
  function Dropped(nonprofit: bool, prefix: string, from: seq<Entry>): seq<string> {
    if from == [] then [] else
      Dropped(nonprofit, prefix, from[..|from| - 1]) + DroppedName(nonprofit, prefix, from[|from| - 1])
  }

  lemma DroppedSnoc(nonprofit: bool, prefix: string, from: seq<Entry>, e: Entry)
    ensures Dropped(nonprofit, prefix, from + [e]) == Dropped(nonprofit, prefix, from) + DroppedName(nonprofit, prefix, e)
  {
    assert (from + [e])[..|from|] == from;
  }

  lemma Regroup<T>(a: seq<T>, b: seq<T>, c: seq<T>)
    ensures a + (b + c) == (a + b) + c
  {
  }

  /** One entry more, for both lists. */
  lemma KeptFurther(nonprofit: bool, prefix: string, from: seq<Entry>, i: nat, droppedKeys: seq<string>)
    requires i < |from|
    ensures
      Filter(KeptBy(nonprofit), from[..i + 1]) ==
      if KeptBy(nonprofit)(from[i]) then Filter(KeptBy(nonprofit), from[..i]) + [from[i]] else Filter(KeptBy(nonprofit), from[..i])
    ensures
      droppedKeys + Dropped(nonprofit, prefix, from[..i + 1]) ==
      (droppedKeys + Dropped(nonprofit, prefix, from[..i])) + DroppedName(nonprofit, prefix, from[i])
  {
    assert from[..i + 1] == from[..i] + [from[i]];
    FilterSnoc(KeptBy(nonprofit), from[..i], from[i]);
    DroppedSnoc(nonprofit, prefix, from[..i], from[i]);
    Regroup(droppedKeys, Dropped(nonprofit, prefix, from[..i]), DroppedName(nonprofit, prefix, from[i]));
  }

  method KeepOne(e: Entry, nonprofit: bool, prefix: string, kept: seq<Entry>, droppedKeys: seq<string>)
    returns (nowKept: seq<Entry>, dropped: seq<string>)
    ensures nowKept == if KeptBy(nonprofit)(e) then kept + [e] else kept
    ensures dropped == droppedKeys + DroppedName(nonprofit, prefix, e)
  {
    nowKept, dropped := kept, droppedKeys;
    if IsKept(nonprofit, e) {
      nowKept := kept + [e];
    } else {
      dropped := droppedKeys + [Named(e.key, prefix)];
    }
  }

  method KeepShaped(from: seq<Entry>, nonprofit: bool, prefix: string, droppedKeys: seq<string>)
    returns (kept: seq<Entry>, dropped: seq<string>)
    ensures kept == Filter(KeptBy(nonprofit), from)
    ensures dropped == droppedKeys + Dropped(nonprofit, prefix, from)
  {
    kept, dropped := [], droppedKeys;
    for i := 0 to |from|
      invariant kept == Filter(KeptBy(nonprofit), from[..i])
      invariant dropped == droppedKeys + Dropped(nonprofit, prefix, from[..i])
    {
      KeptFurther(nonprofit, prefix, from, i, droppedKeys);
      kept, dropped := KeepOne(from[i], nonprofit, prefix, kept, dropped);
    }
    assert from[..|from|] == from;
  }

  predicate TextLe(a: string, b: string) {
    a == [] || (b != [] && (a[0] < b[0] || (a[0] == b[0] && TextLe(a[1..], b[1..]))))
  }

  function ByText(): (string, string) -> bool { (a: string, b: string) => TextLe(a, b) }

  function NotNonprofit(): Entry -> bool { (e: Entry) => e.key != "toNonprofit" }

  function Get(fields: seq<Entry>, key: string): Option<Value> {
    if fields == [] then None
    else if fields[|fields| - 1].key == key then Some(fields[|fields| - 1].value)
    else Get(fields[..|fields| - 1], key)
  }

  function Texts(names: seq<string>): (r: seq<Value>)
    ensures |r| == |names| && forall i :: 0 <= i < |r| ==> r[i] == Text(names[i])
  {
    if names == [] then [] else Texts(names[..|names| - 1]) + [Text(names[|names| - 1])]
  }

  /** The kept part of the nonprofit, when the body has one that is an object. */
  function KeptNonprofit(nonprofit: Option<Value>): seq<Entry> {
    if nonprofit.Some? && nonprofit.value.Record? then [Entry("toNonprofit", Record(Filter(KeptBy(true), nonprofit.value.fields)))] else []
  }

  function DroppedNonprofit(nonprofit: Option<Value>): seq<string> {
    if nonprofit.None? then []
    else if nonprofit.value.Record? then Dropped(true, "toNonprofit.", nonprofit.value.fields)
    else ["toNonprofit"]
  }

  function DroppedKeys(names: seq<string>): Entry { Entry("droppedKeys", List(Texts(Sort(ByText(), names)))) }

  /** The fields of the stored row; of an unreadable body only a marker (its size and hash are not modelled). */
  function StoredFields(parsed: Option<seq<Entry>>): seq<Entry> {
    if parsed.None? then [Entry("unreadable", Record([]))] else
      var rest := Filter(NotNonprofit(), parsed.value);
      var nonprofit := Get(parsed.value, "toNonprofit");
      Filter(KeptBy(false), rest) + KeptNonprofit(nonprofit) + [DroppedKeys(Dropped(false, "", rest) + DroppedNonprofit(nonprofit))]
  }

  method KeepNonprofit(nonprofit: Option<Value>, droppedKeys: seq<string>) returns (kept: seq<Entry>, dropped: seq<string>)
    ensures kept == KeptNonprofit(nonprofit)
    ensures dropped == droppedKeys + DroppedNonprofit(nonprofit)
  {
    kept, dropped := [], droppedKeys;
    if nonprofit.Some? && nonprofit.value.Record? {
      var shaped;
      shaped, dropped := KeepShaped(nonprofit.value.fields, true, "toNonprofit.", droppedKeys);
      kept := [Entry("toNonprofit", Record(shaped))];
    } else if nonprofit.Some? {
      dropped := droppedKeys + ["toNonprofit"];
    }
  }

  lemma NothingBefore<T>(s: seq<T>)
    ensures [] + s == s
  {
  }

  /** `storableBody`, before it is turned into text. */
  method StorableBody(parsed: Option<seq<Entry>>) returns (stored: seq<Entry>)
    ensures stored == StoredFields(parsed)
  {
    if parsed.None? { return [Entry("unreadable", Record([]))]; }
    var rest := Filter(NotNonprofit(), parsed.value);
    var kept, droppedKeys := KeepShaped(rest, false, "", []);
    NothingBefore(Dropped(false, "", rest));
    var nonprofit;
    nonprofit, droppedKeys := KeepNonprofit(Get(parsed.value, "toNonprofit"), droppedKeys);
    stored := kept + nonprofit + [DroppedKeys(droppedKeys)];
  }

  // ---------- what a decision reads ----------

  datatype Fields = Fields(
    chargeId: string, cents: nat, netCents: Option<nat>, currency: string, frequency: string, donatedAt: int,
    slug: string, ein: string, name: string)

  datatype Verdict = Unparsable | NoPartnerId | OtherEvent | BadFields | Gift(intentId: string, fields: Fields)

  const COMPLETED := "donation.completed"

  function DigitsValue(s: string): nat {
    if s == [] then 0 else
      10 * DigitsValue(s[..|s| - 1]) + if IsDigit(s[|s| - 1]) then (s[|s| - 1] as int - '0' as int) else 0
  }

  function IsFigure(): char -> bool { (c: char) => c != ',' }

  function PointAt(s: string): (i: nat)
    ensures i <= |s|
  {
    if s == [] || s[0] == '.' then 0 else 1 + PointAt(s[1..])
  }

  /** The amount in cents: commas dropped, at most two figures after the point. */
  function Cents(s: string): nat {
    var plain := Filter(IsFigure(), s);
    var point := PointAt(plain);
    var fraction := if point < |plain| then plain[point + 1..] else [];
    100 * DigitsValue(plain[..point]) + (if |fraction| == 1 then 10 * DigitsValue(fraction) else DigitsValue(fraction))
  }

  /** The text a field holds, when it fits the shape kept for that field. */
  function Shaped(nonprofit: bool, fields: seq<Entry>, key: string): Option<string> {
    var value := Get(fields, key);
    if value.Some? && IsKept(nonprofit, Entry(key, value.value)) then Some(value.value.text) else None
  }

  function NonprofitOf(fields: seq<Entry>): seq<Entry> {
    var nonprofit := Get(fields, "toNonprofit");
    if nonprofit.Some? && nonprofit.value.Record? then nonprofit.value.fields else []
  }

  /** `donationFields`, with the platform's date parser as a parameter. */
  function DonationFields(fields: seq<Entry>, readDate: string -> Option<int>): Option<Fields> {
    var chargeId, amount := Shaped(false, fields, "chargeId"), Shaped(false, fields, "amount");
    if chargeId.None? || amount.None? || Cents(amount.value) == 0 then None else
      var currency, frequency := Shaped(false, fields, "currency"), Shaped(false, fields, "frequency");
      if currency.None? || frequency.None? then None else
        var nonprofit := NonprofitOf(fields);
        var slug, ein, name := Shaped(true, nonprofit, "slug"), Shaped(true, nonprofit, "ein"), Shaped(true, nonprofit, "name");
        if slug.None? || ein.None? || name.None? then None else
          var date := Shaped(false, fields, "donationDate");
          if date.None? || readDate(date.value).None? then None else
            var net := Shaped(false, fields, "netAmount");
            Some(Fields(chargeId.value, Cents(amount.value), if net.Some? then Some(Cents(net.value)) else None,
                        currency.value, frequency.value, readDate(date.value).value, slug.value, ein.value, name.value))
  }

  function Judge(fields: seq<Entry>, partner: Option<string>, readDate: string -> Option<int>): Verdict {
    if partner.None? || partner.value == "" then NoPartnerId
    else if Get(fields, "event") != Some(Text(COMPLETED)) then OtherEvent
    else match DonationFields(fields, readDate)
      case None => BadFields
      case Some(gift) => Gift(partner.value, gift)
  }

  /** What `decideStored` reads from a row before it touches the database. */
  function StoredVerdict(stored: seq<Entry>, partner: Option<string>, readDate: string -> Option<int>): Verdict {
    if Get(stored, "unreadable").Some? then Unparsable else Judge(stored, partner, readDate)
  }

  /** What the whole body says. */
  function BodyVerdict(parsed: Option<seq<Entry>>, partner: Option<string>, readDate: string -> Option<int>): Verdict {
    if parsed.None? then Unparsable else Judge(parsed.value, partner, readDate)
  }

  /** The intent a delivery names, if it has the shape of one of our ids. */
  function PartnerOf(parsed: Option<seq<Entry>>): Option<string> {
    if parsed.None? then None else Shaped(false, parsed.value, "partnerDonationId")
  }

  // ---------- the two agree ----------

  ghost predicate OwnKeys(fields: seq<Entry>) {
    forall i, j :: 0 <= i < j < |fields| ==> fields[i].key != fields[j].key
  }

  /** As `JSON.parse` leaves it: no key twice in the body or in its nonprofit. */
  ghost predicate ParsedBody(fields: seq<Entry>) { OwnKeys(fields) && OwnKeys(NonprofitOf(fields)) }

  lemma {:induction false} GetMissing(fields: seq<Entry>, key: string)
    requires forall e :: e in fields ==> e.key != key
    ensures Get(fields, key) == None
  {
    if fields != [] { GetMissing(fields[..|fields| - 1], key); }
  }

  lemma {:induction false} GetFromEither(a: seq<Entry>, b: seq<Entry>, key: string)
    ensures Get(a + b, key) == if Get(b, key).Some? then Get(b, key) else Get(a, key)
  {
    if b == [] {
      assert a + b == a;
    } else {
      var init := b[..|b| - 1];
      assert (a + b)[..|a + b| - 1] == a + init;
      GetFromEither(a, init, key);
    }
  }

  lemma {:induction false} GetFiltered(p: Entry -> bool, fields: seq<Entry>, key: string)
    requires OwnKeys(fields)
    ensures
      var was := Get(fields, key);
      Get(Filter(p, fields), key) == if was.Some? && p(Entry(key, was.value)) then was else None
  {
    if fields != [] {
      var init, last := fields[..|fields| - 1], fields[|fields| - 1];
      assert fields == init + [last];
      FilterSnoc(p, init, last);
      GetFiltered(p, init, key);
      if p(last) { assert (Filter(p, init) + [last])[..|Filter(p, init)|] == Filter(p, init); }
      if last.key == key {
        GetMissing(init, key);
        assert last == Entry(key, last.value);
      }
    }
  }

  lemma {:induction false} FilteredOwnKeys(p: Entry -> bool, fields: seq<Entry>)
    requires OwnKeys(fields)
    ensures OwnKeys(Filter(p, fields))
  {
    if fields != [] {
      var init, last := fields[..|fields| - 1], fields[|fields| - 1];
      assert fields == init + [last];
      FilterSnoc(p, init, last);
      FilteredOwnKeys(p, init);
      forall e | e in Filter(p, init) ensures e.key != last.key {
        var i :| 0 <= i < |init| && init[i] == e;
        assert fields[i] == e;
      }
    }
  }

  lemma GetInThree(a: seq<Entry>, b: seq<Entry>, last: Entry, key: string)
    requires key != last.key
    ensures Get(a + b + [last], key) == if Get(b, key).Some? then Get(b, key) else Get(a, key)
  {
    GetMissing([last], key);
    GetFromEither(a, b, key);
    GetFromEither(a + b, [last], key);
  }

  /** A kept field reads the same from the row; every other field reads as missing. */
  lemma StoredHolds(body: seq<Entry>, key: string)
    requires OwnKeys(body) && key != "toNonprofit" && key != "droppedKeys"
    ensures
      var was := Get(body, key);
      Get(StoredFields(Some(body)), key) == if was.Some? && KeptBy(false)(Entry(key, was.value)) then was else None
  {
    var rest, nonprofit := Filter(NotNonprofit(), body), Get(body, "toNonprofit");
    FilteredOwnKeys(NotNonprofit(), body);
    GetFiltered(NotNonprofit(), body, key);
    GetFiltered(KeptBy(false), rest, key);
    GetMissing(KeptNonprofit(nonprofit), key);
    GetInThree(Filter(KeptBy(false), rest), KeptNonprofit(nonprofit), DroppedKeys(Dropped(false, "", rest) + DroppedNonprofit(nonprofit)), key);
  }

  lemma StoredNonprofit(body: seq<Entry>)
    ensures NonprofitOf(StoredFields(Some(body))) == Filter(KeptBy(true), NonprofitOf(body))
  {
    var rest, nonprofit := Filter(NotNonprofit(), body), Get(body, "toNonprofit");
    var kept := Filter(KeptBy(false), rest);
    assert forall e :: e in kept ==> e in rest && NotNonprofit()(e);
    GetMissing(kept, "toNonprofit");
    GetInThree(kept, KeptNonprofit(nonprofit), DroppedKeys(Dropped(false, "", rest) + DroppedNonprofit(nonprofit)), "toNonprofit");
    NonprofitKept(nonprofit);
  }

  lemma NonprofitKept(nonprofit: Option<Value>)
    ensures Get(KeptNonprofit(nonprofit), "toNonprofit") ==
      if nonprofit.Some? && nonprofit.value.Record? then Some(Record(Filter(KeptBy(true), nonprofit.value.fields))) else None
  {
  }

  lemma ShapedAlike(body: seq<Entry>, key: string)
    requires OwnKeys(body) && key != "toNonprofit" && key != "droppedKeys"
    ensures Shaped(false, StoredFields(Some(body)), key) == Shaped(false, body, key)
  {
    StoredHolds(body, key);
  }

  lemma ShapedNonprofitAlike(body: seq<Entry>, key: string)
    requires ParsedBody(body)
    ensures Shaped(true, NonprofitOf(StoredFields(Some(body))), key) == Shaped(true, NonprofitOf(body), key)
  {
    StoredNonprofit(body);
    GetFiltered(KeptBy(true), NonprofitOf(body), key);
  }

  lemma FieldsAlike(body: seq<Entry>, readDate: string -> Option<int>)
    requires ParsedBody(body)
    ensures DonationFields(StoredFields(Some(body)), readDate) == DonationFields(body, readDate)
  {
    ShapedAlike(body, "chargeId");
    ShapedAlike(body, "amount");
    ShapedAlike(body, "netAmount");
    ShapedAlike(body, "currency");
    ShapedAlike(body, "frequency");
    ShapedAlike(body, "donationDate");
    ShapedNonprofitAlike(body, "slug");
    ShapedNonprofitAlike(body, "ein");
    ShapedNonprofitAlike(body, "name");
  }

  lemma CompletedIsKept()
    ensures KeptBy(false)(Entry("event", Text(COMPLETED)))
  {
    assert Fits(Event, COMPLETED);
  }

  lemma UnreadableIsDropped(value: Value)
    ensures !KeptBy(false)(Entry("unreadable", value))
  {
    assert KeptShape("unreadable") == None;
  }

  /** The event test survives the stripping because the event it looks for fits its own shape. */
  lemma EventAlike(body: seq<Entry>)
    requires OwnKeys(body)
    ensures Get(StoredFields(Some(body)), "event") == Some(Text(COMPLETED)) <==> Get(body, "event") == Some(Text(COMPLETED))
  {
    StoredHolds(body, "event");
    CompletedIsKept();
  }

  lemma NeverUnreadable(body: seq<Entry>)
    requires OwnKeys(body)
    ensures Get(StoredFields(Some(body)), "unreadable") == None
  {
    StoredHolds(body, "unreadable");
    var was := Get(body, "unreadable");
    if was.Some? { UnreadableIsDropped(was.value); }
  }

  /** Deciding from the stored row is deciding from the whole body, for every body. */
  lemma StoredDecidesAlike(parsed: Option<seq<Entry>>, partner: Option<string>, readDate: string -> Option<int>)
    requires parsed.Some? ==> ParsedBody(parsed.value)
    ensures StoredVerdict(StoredFields(parsed), partner, readDate) == BodyVerdict(parsed, partner, readDate)
  {
    if parsed.Some? {
      NeverUnreadable(parsed.value);
      EventAlike(parsed.value);
      FieldsAlike(parsed.value, readDate);
    }
  }

  /** A key name, as `droppedKeys` may hold it. */
  predicate SafeName(s: string) {
    s == "toNonprofit" || s == "[unnamed]" || s == "toNonprofit.[unnamed]" || KeyName(s)
    || (|s| > 12 && s[..12] == "toNonprofit." && KeyName(s[12..]))
  }

  function PrefixOf(nonprofit: bool): string { if nonprofit then "toNonprofit." else "" }

  lemma NamedIsSafe(nonprofit: bool, key: string)
    ensures SafeName(Named(key, PrefixOf(nonprofit)))
  {
    if nonprofit {
      var named := Named(key, "toNonprofit.");
      assert named[..12] == "toNonprofit." && named[12..] == if KeyName(key) then key else "[unnamed]";
    } else {
      assert Named(key, "") == if KeyName(key) then key else "[unnamed]";
    }
  }

  lemma {:induction false} DroppedNamesAreSafe(nonprofit: bool, from: seq<Entry>)
    ensures forall s :: s in Dropped(nonprofit, PrefixOf(nonprofit), from) ==> SafeName(s)
  {
    if from != [] {
      DroppedNamesAreSafe(nonprofit, from[..|from| - 1]);
      NamedIsSafe(nonprofit, from[|from| - 1].key);
    }
  }

  lemma DroppedKeysAreSafe(names: seq<string>)
    requires forall s :: s in names ==> SafeName(s)
    ensures forall v :: v in DroppedKeys(names).value.items ==> v.Text? && SafeName(v.text)
  {
    var sorted := Sort(ByText(), names);
    SortKeepsMembers(ByText(), names);
    forall v | v in Texts(sorted) ensures v.Text? && SafeName(v.text) {
      var i :| 0 <= i < |sorted| && Texts(sorted)[i] == v;
      assert sorted[i] in sorted;
    }
  }

  lemma DroppedNonprofitIsSafe(nonprofit: Option<Value>)
    ensures forall s :: s in DroppedNonprofit(nonprofit) ==> SafeName(s)
  {
    if nonprofit.Some? && nonprofit.value.Record? { DroppedNamesAreSafe(true, nonprofit.value.fields); }
  }

  ghost predicate EntryShaped(e: Entry) {
    || KeptBy(false)(e)
    || (e.key == "toNonprofit" && e.value.Record? && forall n :: n in e.value.fields ==> KeptBy(true)(n))
    || (e.key == "droppedKeys" && e.value.List? && forall v :: v in e.value.items ==> v.Text? && SafeName(v.text))
  }

  lemma NonprofitIsShaped(nonprofit: Option<Value>)
    ensures forall e :: e in KeptNonprofit(nonprofit) ==> EntryShaped(e)
  {
  }

  lemma DroppedIsShaped(names: seq<string>)
    requires forall s :: s in names ==> SafeName(s)
    ensures EntryShaped(DroppedKeys(names))
  {
    DroppedKeysAreSafe(names);
  }

  lemma AllShaped(a: seq<Entry>, b: seq<Entry>, c: Entry)
    requires (forall e :: e in a ==> EntryShaped(e)) && (forall e :: e in b ==> EntryShaped(e)) && EntryShaped(c)
    ensures forall e :: e in a + b + [c] ==> EntryShaped(e)
  {
  }

  /** Whatever fields a body gains, every entry of a readable body's row is a shaped field, the shaped nonprofit, or a list of key names. */
  lemma RowsHoldOnlyShaped(body: seq<Entry>)
    ensures forall e :: e in StoredFields(Some(body)) ==> EntryShaped(e)
  {
    var rest, nonprofit := Filter(NotNonprofit(), body), Get(body, "toNonprofit");
    DroppedNamesAreSafe(false, rest);
    DroppedNonprofitIsSafe(nonprofit);
    var names := Dropped(false, PrefixOf(false), rest) + DroppedNonprofit(nonprofit);
    DroppedIsShaped(names);
    NonprofitIsShaped(nonprofit);
    AllShaped(Filter(KeptBy(false), rest), KeptNonprofit(nonprofit), DroppedKeys(names));
  }
}
