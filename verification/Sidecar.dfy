/**
 What the RescueGroups adapter hashes (rescuegroups.ts): one animal and the resources its relationships refer to, the
 latter sorted because two fetches can list them in two orders.
 */
module Sidecar {
  import opened Prelude
  import opened Sorting
  import opened Json
  import opened Canonical
  import opened CanonicalProof
  import opened CanonicalOrder

  // ---------- reading the JSON ----------

  const TYPE: Text := [116, 121, 112, 101]
  const ID: Text := [105, 100]
  const DATA: Text := [100, 97, 116, 97]
  const RELATIONSHIPS: Text := [114, 101, 108, 97, 116, 105, 111, 110, 115, 104, 105, 112, 115]
  const ANIMAL: Text := [97, 110, 105, 109, 97, 108]
  const INCLUDED: Text := [105, 110, 99, 108, 117, 100, 101, 100]

  datatype Ref = Ref(kind: Text, id: Text)

  function Find(fields: seq<Field>, key: Text): Option<Json> {
    if fields == [] then None else if fields[0].key == key then Some(fields[0].value) else Find(fields[1..], key)
  }

  /** `v[key]` */
  function Member(v: Json, key: Text): Option<Json> { if v.JObj? then Find(v.fields, key) else None }

  /** A `{ type, id }` object. */
  function ReadRef(v: Json): Option<Ref> {
    var kind, id := Member(v, TYPE), Member(v, ID);
    if kind.Some? && kind.value.JStr? && id.Some? && id.value.JStr? then Some(Ref(kind.value.text, id.value.text)) else None
  }

  function FieldValues(fields: seq<Field>): seq<Json> { seq(|fields|, i requires 0 <= i < |fields| => fields[i].value) }

  /** `Object.values(v ?? {})`, of which only objects can carry `data`. */
  function Values(v: Option<Json>): seq<Json> {
    if v.None? then [] else match v.value
      case JObj(fields) => FieldValues(fields)
      case JArr(items) => items
      case _ => []
  }

  /** What one relationship links to: nothing, one resource or a list. */
  function Linked(rel: Json): seq<Json> {
    match Member(rel, DATA)
    case None => []
    case Some(JArr(items)) => items
    case Some(data) => [data]
  }

  function ReadRefs(linked: seq<Json>): seq<Ref> {
    if linked == [] then [] else
      var last := ReadRef(linked[|linked| - 1]);
      ReadRefs(linked[..|linked| - 1]) + if last.Some? then [last.value] else []
  }

  function RefsIn(relationships: seq<Json>): seq<Ref> {
    if relationships == [] then [] else
      RefsIn(relationships[..|relationships| - 1]) + ReadRefs(Linked(relationships[|relationships| - 1]))
  }

  function Refs(animal: Json): seq<Ref> { RefsIn(Values(Member(animal, RELATIONSHIPS))) }

  /** `refsOf`: pushes every relationship's refs. */
  method RefsOf(animal: Json) returns (refs: seq<Ref>)
    ensures refs == Refs(animal)
  {
    var relationships := Values(Member(animal, RELATIONSHIPS));
    refs := [];
    for n := 0 to |relationships|
      invariant refs == RefsIn(relationships[..n])
    {
      assert relationships[..n + 1][..n] == relationships[..n];
      refs := refs + ReadRefs(Linked(relationships[n]));
    }
    assert relationships[..|relationships|] == relationships;
  }

  // ---------- the sidecar ----------

  /** `${type}:${id}` */
  function RefName(r: Ref): Text { r.kind + [COLON] + r.id }

  function WantedNames(animal: Json): set<Text> { set r | r in Refs(animal) :: RefName(r) }

  function IsWanted(wanted: set<Text>): Json -> bool {
    (v: Json) => ReadRef(v).Some? && RefName(ReadRef(v).value) in wanted
  }

  predicate RefLe(collate: (Text, Text) -> bool, a: Ref, b: Ref) {
    if a.kind == b.kind then collate(a.id, b.id) else collate(a.kind, b.kind)
  }

  /** By type, then by id; a resource without a ref is never sorted, and stands anywhere. */
  function ByRef(collate: (Text, Text) -> bool): (Json, Json) -> bool {
    (a: Json, b: Json) => ReadRef(a).None? || ReadRef(b).None? || RefLe(collate, ReadRef(a).value, ReadRef(b).value)
  }

  function Wanted(animal: Json, included: seq<Json>): seq<Json> { Filter(IsWanted(WantedNames(animal)), included) }

  function SidecarFor(collate: (Text, Text) -> bool, animal: Json, included: seq<Json>): seq<Json> {
    Sort(ByRef(collate), Wanted(animal, included))
  }

  /** The payload of one observation: `{ animal, included }`. */
  function Payload(animal: Json, sidecar: seq<Json>): Json {
    JObj([Field(ANIMAL, animal), Field(INCLUDED, JArr(sidecar))])
  }

  /** What is hashed of one animal of one fetch. */
  function Hashed(collate: (Text, Text) -> bool, animal: Json, included: seq<Json>): Text {
    Canonicalize(Payload(animal, SidecarFor(collate, animal, included)), {}, [])
  }

  /** A collation ranks strings, and may tie two that differ. */
  ghost predicate Collates(collate: (Text, Text) -> bool) {
    && (forall a, b :: collate(a, b) || collate(b, a))
    && (forall a, b, c :: collate(a, b) && collate(b, c) ==> collate(a, c))
  }

  // ---------- key order is not read ----------

  lemma SameBackwards(a: Json, b: Json)
    requires Parsed(a) && Parsed(b) && SameJson(a, b)
    ensures SameJson(b, a)
  {
    CanonicalTextIsExact(a, b);
    CanonicalTextIsExact(b, a);
  }

  lemma SameAsItself(a: Json)
    requires Parsed(a)
    ensures SameJson(a, a)
  {
    CanonicalTextIsExact(a, a);
  }

  lemma {:induction false} FindsField(fields: seq<Field>, i: nat)
    requires OwnKeys(fields) && i < |fields|
    ensures Find(fields, fields[i].key) == Some(fields[i].value)
  {
    if i > 0 {
      var rest := fields[1..];
      assert rest[i - 1] == fields[i];
      FindsField(rest, i - 1);
    }
  }

  lemma {:induction false} FoundIsField(fields: seq<Field>, key: Text) returns (i: nat)
    requires Find(fields, key).Some?
    ensures i < |fields| && fields[i].key == key && fields[i].value == Find(fields, key).value
  {
    i := 0;
    if fields[0].key != key {
      i := FoundIsField(fields[1..], key);
      i := i + 1;
    }
  }

  /** A member found on one side is found on the other, and is the same value. */
  lemma MemberCarries(a: Json, b: Json, key: Text)
    requires Parsed(a) && Parsed(b) && SameJson(a, b) && Member(a, key).Some?
    ensures Member(b, key).Some? && SameJson(Member(a, key).value, Member(b, key).value)
    ensures Parsed(Member(a, key).value) && Parsed(Member(b, key).value)
  {
    var i := FoundIsField(a.fields, key);
    var j :| 0 <= j < |b.fields| && b.fields[j].key == a.fields[i].key && SameJson(a.fields[i].value, b.fields[j].value);
    FindsField(b.fields, j);
  }

  lemma MemberSame(a: Json, b: Json, key: Text)
    requires Parsed(a) && Parsed(b) && SameJson(a, b)
    ensures Member(a, key).Some? == Member(b, key).Some?
    ensures Member(a, key).Some? ==>
      && SameJson(Member(a, key).value, Member(b, key).value) && Parsed(Member(a, key).value) && Parsed(Member(b, key).value)
  {
    SameBackwards(a, b);
    if Member(a, key).Some? { MemberCarries(a, b, key); }
    if Member(b, key).Some? { MemberCarries(b, a, key); }
  }

  lemma ReadRefSame(a: Json, b: Json)
    requires Parsed(a) && Parsed(b) && SameJson(a, b)
    ensures ReadRef(a) == ReadRef(b)
  {
    MemberSame(a, b, TYPE);
    MemberSame(a, b, ID);
  }

  lemma {:induction false} ReadRefsMembers(linked: seq<Json>, r: Ref)
    ensures r in ReadRefs(linked) <==> exists v :: v in linked && ReadRef(v) == Some(r)
  {
    if linked != [] {
      assert linked == linked[..|linked| - 1] + [linked[|linked| - 1]];
      ReadRefsMembers(linked[..|linked| - 1], r);
    }
  }

  lemma {:induction false} RefsInMembers(relationships: seq<Json>, r: Ref)
    ensures r in RefsIn(relationships) <==> exists rel :: rel in relationships && r in ReadRefs(Linked(rel))
  {
    if relationships != [] {
      assert relationships == relationships[..|relationships| - 1] + [relationships[|relationships| - 1]];
      RefsInMembers(relationships[..|relationships| - 1], r);
    }
  }

  lemma LinkedCarries(a: Json, b: Json, r: Ref)
    requires Parsed(a) && Parsed(b) && SameJson(a, b) && r in ReadRefs(Linked(a))
    ensures r in ReadRefs(Linked(b))
  {
    MemberSame(a, b, DATA);
    ReadRefsMembers(Linked(a), r);
    ReadRefsMembers(Linked(b), r);
    var v :| v in Linked(a) && ReadRef(v) == Some(r);
    var i :| 0 <= i < |Linked(a)| && Linked(a)[i] == v;
    ReadRefSame(v, Linked(b)[i]);
    assert Linked(b)[i] in Linked(b);
  }

  lemma ItemCarries(a: Json, b: Json, i: nat)
    requires Parsed(a) && Parsed(b) && SameJson(a, b) && a.JArr? && i < |a.items|
    ensures b.JArr? && i < |b.items| && SameJson(a.items[i], b.items[i]) && Parsed(a.items[i]) && Parsed(b.items[i])
  {
  }

  lemma FieldCarries(a: Json, b: Json, i: nat) returns (j: nat)
    requires Parsed(a) && Parsed(b) && SameJson(a, b) && a.JObj? && i < |a.fields|
    ensures b.JObj? && j < |b.fields| && SameJson(a.fields[i].value, b.fields[j].value)
    ensures Parsed(a.fields[i].value) && Parsed(b.fields[j].value)
  {
    j :| 0 <= j < |b.fields| && b.fields[j].key == a.fields[i].key && SameJson(a.fields[i].value, b.fields[j].value);
  }

  lemma ItemsCarry(a: Json, b: Json, v: Json) returns (w: Json)
    requires Parsed(a) && Parsed(b) && SameJson(a, b) && a.JArr? && v in Values(Some(a))
    ensures w in Values(Some(b)) && SameJson(v, w) && Parsed(v) && Parsed(w)
  {
    var i :| 0 <= i < |a.items| && a.items[i] == v;
    ItemCarries(a, b, i);
    w := b.items[i];
  }

  lemma ValueOfField(a: Json, v: Json) returns (i: nat)
    requires a.JObj? && v in Values(Some(a))
    ensures i < |a.fields| && a.fields[i].value == v
  {
    i :| 0 <= i < |Values(Some(a))| && Values(Some(a))[i] == v;
  }

  lemma FieldIsValue(b: Json, j: nat)
    requires b.JObj? && j < |b.fields|
    ensures b.fields[j].value in Values(Some(b))
  {
    assert Values(Some(b))[j] == b.fields[j].value;
  }

  lemma FieldsCarry(a: Json, b: Json, v: Json) returns (w: Json)
    requires Parsed(a) && Parsed(b) && SameJson(a, b) && a.JObj? && v in Values(Some(a))
    ensures w in Values(Some(b)) && SameJson(v, w) && Parsed(v) && Parsed(w)
  {
    var i := ValueOfField(a, v);
    var j := FieldCarries(a, b, i);
    FieldIsValue(b, j);
    w := b.fields[j].value;
  }

  lemma ValuesCarry(a: Json, b: Json, v: Json) returns (w: Json)
    requires Parsed(a) && Parsed(b) && SameJson(a, b) && v in Values(Some(a))
    ensures w in Values(Some(b)) && SameJson(v, w) && Parsed(v) && Parsed(w)
  {
    if a.JArr? { w := ItemsCarry(a, b, v); } else { w := FieldsCarry(a, b, v); }
  }

  lemma RefsCarry(a: Json, b: Json, r: Ref)
    requires Parsed(a) && Parsed(b) && SameJson(a, b) && r in Refs(a)
    ensures r in Refs(b)
  {
    MemberSame(a, b, RELATIONSHIPS);
    var x, y := Member(a, RELATIONSHIPS), Member(b, RELATIONSHIPS);
    RefsInMembers(Values(x), r);
    RefsInMembers(Values(y), r);
    var rel :| rel in Values(x) && r in ReadRefs(Linked(rel));
    var other := ValuesCarry(x.value, y.value, rel);
    LinkedCarries(rel, other, r);
  }

  /** The refs an animal's JSON holds do not depend on the order of its keys. */
  lemma WantedSame(a: Json, b: Json)
    requires Parsed(a) && Parsed(b) && SameJson(a, b)
    ensures WantedNames(a) == WantedNames(b)
  {
    SameBackwards(a, b);
    forall r ensures r in Refs(a) <==> r in Refs(b) {
      if r in Refs(a) { RefsCarry(a, b, r); }
      if r in Refs(b) { RefsCarry(b, a, r); }
    }
  }
}
