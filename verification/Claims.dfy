/**
 The merge (merge.ts): per field, one trusted claim out of everything ever observed, by trust tier
 (sources.ts), then by time, then by raw row (trust.ts).
 */
module Claims {
  import opened Prelude

  datatype Source = Shelterluv | Petango | RescueGroups | Manual | Scrape(slug: string)
  datatype Tier = ShelterApi | FirstPartyScrape | Aggregator | ByHand

  function TierOf(s: Source): Tier {
    match s
    case Scrape(_) => FirstPartyScrape
    case Shelterluv => ShelterApi
    case Petango => ShelterApi
    case RescueGroups => Aggregator
    case Manual => ByHand
  }

  /** Lower is more trusted: the index in `TIERS`. */
  function RankOf(t: Tier): nat {
    match t
    case ShelterApi => 0
    case FirstPartyScrape => 1
    case Aggregator => 2
    case ByHand => 3
  }

  datatype Value = Null | Text(text: string) | Flag(flag: bool) | Instant(at: int) | Keys(keys: seq<string>)

  /** What a source said of a field when it was fetched. `rawId` is filled in by whoever writes it. */
  datatype Claim = Claim(value: Value, source: Source, fetchedAt: int, rawId: nat)

  datatype Field =
    | Name | Species | Breed | Status | Sex | AgeGroup | BirthDate | IsBirthDateExact | ShelterExternalId
    | ListedAt | OrgName | OrgUrl | ListingUrl | City | State | PostalCode | PhotoKeys

  const MERGED_FIELDS: seq<Field> := [
    Name, Species, Breed, Status, Sex, AgeGroup, BirthDate, IsBirthDateExact, ShelterExternalId,
    ListedAt, OrgName, OrgUrl, ListingUrl, City, State, PostalCode, PhotoKeys]

  type AnimalClaims = map<Field, Claim>

  /** `resolveClaim(a, b)`: rank, then time, then raw row; only then the first argument. */
  function Resolve(a: Claim, b: Claim): Claim {
    var ra, rb := RankOf(TierOf(a.source)), RankOf(TierOf(b.source));
    if ra != rb then (if ra < rb then a else b)
    else if a.fetchedAt != b.fetchedAt then (if b.fetchedAt > a.fetchedAt then b else a)
    else if a.rawId != b.rawId then (if b.rawId > a.rawId then b else a)
    else a
  }

  /** A null claim never competes. */
  predicate Competes(claims: AnimalClaims, f: Field) {
    f in claims && claims[f].value != Null
  }

  function Stamped(c: Claim, rawId: nat): Claim { c.(rawId := rawId) }

  function Winner(current: AnimalClaims, incoming: AnimalClaims, rawId: nat, f: Field): Claim
    requires f in current || Competes(incoming, f)
  {
    if !Competes(incoming, f) then current[f]
    else if f in current then Resolve(Stamped(incoming[f], rawId), current[f])
    else Stamped(incoming[f], rawId)
  }

  predicate Changed(current: AnimalClaims, incoming: AnimalClaims, rawId: nat, f: Field) {
    Competes(incoming, f) && (f in current ==> current[f].value != Winner(current, incoming, rawId, f).value)
  }

  predicate Touched(current: AnimalClaims, incoming: AnimalClaims, rawId: nat, f: Field) {
    Competes(incoming, f) && (f in current ==> current[f] != Winner(current, incoming, rawId, f))
  }

  predicate Conflicts(current: AnimalClaims, incoming: AnimalClaims, f: Field) {
    && Competes(incoming, f) && f in current
    && TierOf(incoming[f].source) != TierOf(current[f].source)
    && current[f].value != incoming[f].value
  }

  datatype MergeOutcome = MergeOutcome(
    claims: AnimalClaims, changed: seq<Field>, touched: seq<Field>, conflicted: seq<Field>, occurredAt: Option<int>)

  function Merged(current: AnimalClaims, incoming: AnimalClaims, rawId: nat, fields: seq<Field>): AnimalClaims {
    map f | f in current.Keys + (set g | g in fields && Competes(incoming, g)) ::
      if f in fields && Competes(incoming, f) then Winner(current, incoming, rawId, f) else current[f]
  }

  /** Newest time among the competing claims of `fields`. */
  function Newest(incoming: AnimalClaims, fields: seq<Field>): Option<int> {
    if fields == [] then None
    else
      var rest := Newest(incoming, fields[..|fields| - 1]);
      var f := fields[|fields| - 1];
      if !Competes(incoming, f) then rest
      else if rest.None? || incoming[f].fetchedAt > rest.value then Some(incoming[f].fetchedAt)
      else rest
  }

  function ChangedBy(current: AnimalClaims, incoming: AnimalClaims, rawId: nat): Field -> bool {
    f => Changed(current, incoming, rawId, f)
  }

  function TouchedBy(current: AnimalClaims, incoming: AnimalClaims, rawId: nat): Field -> bool {
    f => Touched(current, incoming, rawId, f)
  }

  function ConflictsWith(current: AnimalClaims, incoming: AnimalClaims): Field -> bool {
    f => Conflicts(current, incoming, f)
  }

  function MergeOver(current: AnimalClaims, incoming: AnimalClaims, rawId: nat, fields: seq<Field>): MergeOutcome {
    MergeOutcome(
      Merged(current, incoming, rawId, fields),
      Filter(ChangedBy(current, incoming, rawId), fields),
      Filter(TouchedBy(current, incoming, rawId), fields),
      Filter(ConflictsWith(current, incoming), fields),
      Newest(incoming, fields))
  }

  function Merge(current: AnimalClaims, incoming: AnimalClaims, rawId: nat): MergeOutcome {
    MergeOver(current, incoming, rawId, MERGED_FIELDS)
  }

  /** `mergeClaims`: the loop over the fields. */
  method MergeClaims(current: AnimalClaims, incoming: AnimalClaims, rawId: nat) returns (out: MergeOutcome)
    ensures out == Merge(current, incoming, rawId)
  {
    out := MergeOutcome(current, [], [], [], None);
    var n := 0;
    while n < |MERGED_FIELDS|
      invariant n <= |MERGED_FIELDS|
      invariant out == MergeOver(current, incoming, rawId, MERGED_FIELDS[..n])
    {
      assert MERGED_FIELDS[..n + 1] == MERGED_FIELDS[..n] + [MERGED_FIELDS[n]];
      out := MergeField(current, incoming, rawId, MERGED_FIELDS[..n], MERGED_FIELDS[n], out);
      n := n + 1;
    }
    assert MERGED_FIELDS[..n] == MERGED_FIELDS;
  }

  /** The loop's body, after the fields `done`. */
  method MergeField(current: AnimalClaims, incoming: AnimalClaims, rawId: nat, ghost done: seq<Field>, field: Field,
      was: MergeOutcome)
    returns (out: MergeOutcome)
    requires was == MergeOver(current, incoming, rawId, done)
    ensures out == MergeOver(current, incoming, rawId, done + [field])
  {
    MergeSnoc(current, incoming, rawId, done, field);
    out := was;
    if field !in incoming || incoming[field].value == Null { return; }
    var candidate := Stamped(incoming[field], rawId);
    if out.occurredAt.None? || candidate.fetchedAt > out.occurredAt.value {
      out := out.(occurredAt := Some(candidate.fetchedAt));
    }
    var held := field in current;
    var winner := if held then Resolve(candidate, current[field]) else candidate;
    if !held || current[field].value != winner.value { out := out.(changed := out.changed + [field]); }
    if !held || current[field] != winner { out := out.(touched := out.touched + [field]); }
    if held && TierOf(candidate.source) != TierOf(current[field].source) && current[field].value != candidate.value {
      out := out.(conflicted := out.conflicted + [field]);
    }
    out := out.(claims := out.claims[field := winner]);
  }

  lemma MergedSnoc(current: AnimalClaims, incoming: AnimalClaims, rawId: nat, fields: seq<Field>, f: Field)
    ensures
      var was, now := Merged(current, incoming, rawId, fields), Merged(current, incoming, rawId, fields + [f]);
      now == if Competes(incoming, f) then was[f := Winner(current, incoming, rawId, f)] else was
  {
  }

  lemma MergeSnoc(current: AnimalClaims, incoming: AnimalClaims, rawId: nat, fields: seq<Field>, f: Field)
    ensures
      var was, now := MergeOver(current, incoming, rawId, fields), MergeOver(current, incoming, rawId, fields + [f]);
      if !Competes(incoming, f) then now == was
      else
        && now.claims == was.claims[f := Winner(current, incoming, rawId, f)]
        && now.changed == was.changed + (if Changed(current, incoming, rawId, f) then [f] else [])
        && now.touched == was.touched + (if Touched(current, incoming, rawId, f) then [f] else [])
        && now.conflicted == was.conflicted + (if Conflicts(current, incoming, f) then [f] else [])
        && now.occurredAt ==
            (if was.occurredAt.None? || incoming[f].fetchedAt > was.occurredAt.value then Some(incoming[f].fetchedAt) else was.occurredAt)
  {
    MergedSnoc(current, incoming, rawId, fields, f);
    FilterSnoc(ChangedBy(current, incoming, rawId), fields, f);
    FilterSnoc(TouchedBy(current, incoming, rawId), fields, f);
    FilterSnoc(ConflictsWith(current, incoming), fields, f);
    assert (fields + [f])[..|fields|] == fields;
  }
}
