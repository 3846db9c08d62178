/**
 The content hash's text (hash.ts): keys sorted, arrays as they are, volatile paths left out. Two payloads
 get one text exactly when, with those paths left out, they are the same JSON value.
 */
module Canonical {
  import opened Prelude
  import opened Sorting
  import opened Json

  const NULL_TEXT: Text := [110, 117, 108, 108]
  const TRUE_TEXT: Text := [116, 114, 117, 101]
  const FALSE_TEXT: Text := [102, 97, 108, 115, 101]

  /** `parts.join(",")` */
  function Join(parts: seq<Text>): Text {
    if parts == [] then [] else if |parts| == 1 then parts[0] else parts[0] + [COMMA] + Join(parts[1..])
  }

  function ItemPath(path: Text): Text { path + [OPEN_ITEMS, CLOSE_ITEMS] }

  function ChildPath(path: Text, key: Text): Text { if path == [] then key else path + [DOT] + key }

  ghost predicate Within(v: Json, fields: seq<Field>) {
    v.JObj? && forall i :: 0 <= i < |fields| ==> fields[i] in v.fields
  }

  lemma FieldSmaller(v: Json, f: Field)
    requires v.JObj? && f in v.fields
    ensures f.value < v
  {
    var i :| 0 <= i < |v.fields| && v.fields[i] == f;
    assert v.fields[i].value < v.fields[i];
  }

  lemma SortedWithin(v: Json, fields: seq<Field>)
    requires v.JObj? && fields == Sort(KeyOrder(), v.fields)
    ensures Within(v, fields)
  {
    SortKeepsMembers(KeyOrder(), v.fields);
  }

  /** `canonicalize(value, exclude, path)` */
  function Canonicalize(v: Json, exclude: set<Text>, path: Text): Text
    decreases v, 1, 0
  {
    match v
    case JNull => NULL_TEXT
    case JBool(flag) => if flag then TRUE_TEXT else FALSE_TEXT
    case JNum(literal) => literal
    case JStr(text) => Quoted(text)
    case JArr(items) => [OPEN_ITEMS] + Join(ItemTexts(v, |items|, exclude, ItemPath(path))) + [CLOSE_ITEMS]
    case JObj(fields) =>
      SortedWithin(v, Sort(KeyOrder(), fields));
      [OPEN_FIELDS] + Join(EntryTexts(v, Sort(KeyOrder(), fields), exclude, path)) + [CLOSE_FIELDS]
  }

  /** The texts of the first `n` items. */
  function ItemTexts(v: Json, n: nat, exclude: set<Text>, path: Text): (r: seq<Text>)
    requires v.JArr? && n <= |v.items|
    ensures |r| == n
    decreases v, 0, n
  {
    if n == 0 then [] else ItemTexts(v, n - 1, exclude, path) + [Canonicalize(v.items[n - 1], exclude, path)]
  }

  function EntryTexts(v: Json, fields: seq<Field>, exclude: set<Text>, path: Text): seq<Text>
    requires Within(v, fields)
    decreases v, 0, |fields|
  {
    if fields == [] then []
    else
      var before := EntryTexts(v, fields[..|fields| - 1], exclude, path);
      var f := fields[|fields| - 1];
      FieldSmaller(v, f);
      var child := ChildPath(path, f.key);
      if child in exclude then before else before + [Quoted(f.key) + [COLON] + Canonicalize(f.value, exclude, child)]
  }

  /** The code itself: a recursion whose array branch maps and whose object branch loops over sorted keys. */
  method CanonicalText(v: Json, exclude: set<Text>, path: Text) returns (text: Text)
    ensures text == Canonicalize(v, exclude, path)
    decreases v
  {
    match v
    case JNull => text := NULL_TEXT;
    case JBool(flag) => text := if flag then TRUE_TEXT else FALSE_TEXT;
    case JNum(literal) => text := literal;
    case JStr(s) => text := Quoted(s);
    case JArr(items) =>
      var texts := [];
      for n := 0 to |items|
        invariant texts == ItemTexts(v, n, exclude, ItemPath(path))
      {
        var item := CanonicalText(items[n], exclude, ItemPath(path));
        texts := texts + [item];
      }
      text := [OPEN_ITEMS] + Join(texts) + [CLOSE_ITEMS];
    case JObj(fields) =>
      var sorted := Sort(KeyOrder(), fields);
      SortedWithin(v, sorted);
      var entries := [];
      for n := 0 to |sorted|
        invariant entries == EntryTexts(v, sorted[..n], exclude, path)
      {
        assert sorted[..n + 1][..n] == sorted[..n];
        assert sorted[n] in fields;
        var child := ChildPath(path, sorted[n].key);
        if child !in exclude {
          var value := CanonicalText(sorted[n].value, exclude, child);
          entries := entries + [Quoted(sorted[n].key) + [COLON] + value];
        }
      }
      assert sorted[..|sorted|] == sorted;
      text := [OPEN_FIELDS] + Join(entries) + [CLOSE_FIELDS];
  }

  // ---------- what is left of a value ----------

  /** The value without its excluded paths, its keys sorted. */
  function Kept(v: Json, exclude: set<Text>, path: Text): Json
    decreases v, 1, 0
  {
    match v
    case JArr(items) => JArr(KeptItems(v, |items|, exclude, ItemPath(path)))
    case JObj(fields) =>
      SortedWithin(v, Sort(KeyOrder(), fields));
      JObj(KeptFields(v, Sort(KeyOrder(), fields), exclude, path))
    case _ => v
  }

  function KeptItems(v: Json, n: nat, exclude: set<Text>, path: Text): (r: seq<Json>)
    requires v.JArr? && n <= |v.items|
    ensures |r| == n
    decreases v, 0, n
  {
    if n == 0 then [] else KeptItems(v, n - 1, exclude, path) + [Kept(v.items[n - 1], exclude, path)]
  }

  function KeptFields(v: Json, fields: seq<Field>, exclude: set<Text>, path: Text): seq<Field>
    requires Within(v, fields)
    decreases v, 0, |fields|
  {
    if fields == [] then []
    else
      var before := KeptFields(v, fields[..|fields| - 1], exclude, path);
      var f := fields[|fields| - 1];
      FieldSmaller(v, f);
      var child := ChildPath(path, f.key);
      if child in exclude then before else before + [Field(f.key, Kept(f.value, exclude, child))]
  }

  /** The text of a value as it stands, nothing sorted and nothing left out. */
  function Print(v: Json): Text
    decreases v, 1, 0
  {
    match v
    case JNull => NULL_TEXT
    case JBool(flag) => if flag then TRUE_TEXT else FALSE_TEXT
    case JNum(literal) => literal
    case JStr(text) => Quoted(text)
    case JArr(items) => [OPEN_ITEMS] + Join(PrintItems(v, |items|)) + [CLOSE_ITEMS]
    case JObj(fields) => [OPEN_FIELDS] + Join(PrintFields(v, |fields|)) + [CLOSE_FIELDS]
  }

  function PrintItems(v: Json, n: nat): (r: seq<Text>)
    requires v.JArr? && n <= |v.items|
    ensures |r| == n
    decreases v, 0, n
  {
    if n == 0 then [] else PrintItems(v, n - 1) + [Print(v.items[n - 1])]
  }

  function PrintFields(v: Json, n: nat): (r: seq<Text>)
    requires v.JObj? && n <= |v.fields|
    ensures |r| == n
    decreases v, 0, n
  {
    if n == 0 then []
    else PrintFields(v, n - 1) + [Quoted(v.fields[n - 1].key) + [COLON] + Print(v.fields[n - 1].value)]
  }
}
