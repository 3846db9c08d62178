/** From texts to values: the canonical text forgets the order of object keys, and nothing else. */
module CanonicalOrder {
  import opened Prelude
  import opened Sorting
  import opened Json
  import opened Canonical
  import opened CanonicalProof

  function KeysOf(fields: seq<Field>): seq<Text> { seq(|fields|, i requires 0 <= i < |fields| => fields[i].key) }

  /** Everything kept is still parsed JSON. */
  lemma {:induction false} KeptIsParsed(v: Json, exclude: set<Text>, path: Text)
    requires Parsed(v)
    ensures Parsed(Kept(v, exclude, path))
    decreases v, 1, 0
  {
    match v
    case JArr(items) =>
      forall i | 0 <= i < |items| ensures Parsed(KeptItems(v, |items|, exclude, ItemPath(path))[i]) {
        ItemsAt(v, |items|, exclude, ItemPath(path), i);
        KeptIsParsed(items[i], exclude, ItemPath(path));
      }
    case JObj(fields) =>
      var sorted := Sort(KeyOrder(), fields);
      SortedWithin(v, sorted);
      SortedOwnKeys(fields);
      KeptFieldsParsed(v, sorted, exclude, path);
    case _ =>
  }

  lemma SortedOwnKeys(fields: seq<Field>)
    requires OwnKeys(fields)
    ensures OwnKeys(Sort(KeyOrder(), fields)) && Sorted(KeyOrder(), Sort(KeyOrder(), fields))
    ensures forall f :: f in Sort(KeyOrder(), fields) <==> f in fields
  {
    var sorted := Sort(KeyOrder(), fields);
    KeysRank(fields);
    SortSorts(KeyOrder(), fields);
    SortKeepsMembers(KeyOrder(), fields);
    assert Distinct(fields);
    forall i, j | 0 <= i < j < |sorted| ensures sorted[i].key != sorted[j].key {
      assert sorted[i] in fields && sorted[j] in fields && sorted[i] != sorted[j];
    }
  }

  /** What is kept of some fields is under their keys. */
  lemma {:induction false} KeptKeys(v: Json, fields: seq<Field>, exclude: set<Text>, path: Text)
    requires Within(v, fields)
    ensures forall f :: f in KeptFields(v, fields, exclude, path) ==> f.key in KeysOf(fields)
    decreases |fields|
  {
    if fields != [] {
      KeptKeys(v, fields[..|fields| - 1], exclude, path);
      assert KeysOf(fields) == KeysOf(fields[..|fields| - 1]) + [fields[|fields| - 1].key];
    }
  }

  lemma KeptOwnKeys(kept: seq<Field>, init: seq<Field>, f: Field, w: Json)
    requires OwnKeys(init + [f]) && OwnKeys(kept) && forall g :: g in kept ==> g.key in KeysOf(init)
    ensures OwnKeys(kept + [Field(f.key, w)])
  {
    forall i | 0 <= i < |kept| ensures kept[i].key != f.key {
      assert kept[i] in kept;
      var j :| 0 <= j < |init| && KeysOf(init)[j] == kept[i].key;
      assert (init + [f])[j] == init[j] && (init + [f])[|init|] == f;
    }
  }

  lemma {:induction false} KeptFieldsParsed(v: Json, fields: seq<Field>, exclude: set<Text>, path: Text)
    requires Parsed(v) && Within(v, fields) && OwnKeys(fields)
    ensures
      var kept := KeptFields(v, fields, exclude, path);
      OwnKeys(kept) && forall i :: 0 <= i < |kept| ==> Parsed(kept[i].value)
    decreases v, 0, |fields|
  {
    if fields != [] {
      var init, f := fields[..|fields| - 1], fields[|fields| - 1];
      assert fields == init + [f];
      FieldSmaller(v, f);
      KeptFieldsParsed(v, init, exclude, path);
      KeptKeys(v, init, exclude, path);
      var i :| 0 <= i < |v.fields| && v.fields[i] == f;
      KeptIsParsed(f.value, exclude, ChildPath(path, f.key));
      KeptOwnKeys(KeptFields(v, init, exclude, path), init, f, Kept(f.value, exclude, ChildPath(path, f.key)));
    }
  }

  /** Two payloads hash alike exactly when, excluded paths apart and keys in order, they are one value. */
  lemma SameTextMeansSameKept(a: Json, b: Json, exclude: set<Text>)
    requires Parsed(a) && Parsed(b)
    ensures Canonicalize(a, exclude, []) == Canonicalize(b, exclude, []) <==> Kept(a, exclude, []) == Kept(b, exclude, [])
  {
    KeptIsPrinted(a, exclude, []);
    KeptIsPrinted(b, exclude, []);
    if Canonicalize(a, exclude, []) == Canonicalize(b, exclude, []) {
      KeptIsParsed(a, exclude, []);
      KeptIsParsed(b, exclude, []);
      assert Print(Kept(a, exclude, [])) + [] == Print(Kept(b, exclude, [])) + [];
      PrintUnique(Kept(a, exclude, []), Kept(b, exclude, []), [], []);
    }
  }

  // ---------- with nothing excluded ----------

  lemma {:induction false} KeptFieldAt(v: Json, fields: seq<Field>, path: Text, i: nat)
    requires Within(v, fields) && i < |fields|
    ensures |KeptFields(v, fields, {}, path)| == |fields|
    ensures KeptFields(v, fields, {}, path)[i] == Field(fields[i].key, Kept(fields[i].value, {}, ChildPath(path, fields[i].key)))
    decreases |fields|
  {
    var init := fields[..|fields| - 1];
    if |fields| > 1 { KeptFieldAt(v, init, path, if i < |init| then i else 0); }
  }

  /** Objects with the same keys list them in the same order once sorted. */
  lemma SortedKeysAgree(a: seq<Field>, b: seq<Field>)
    requires OwnKeys(a) && OwnKeys(b) && |a| == |b|
    requires forall f :: f in a ==> exists g :: g in b && g.key == f.key
    ensures KeysOf(Sort(KeyOrder(), a)) == KeysOf(Sort(KeyOrder(), b))
  {
    var s, t := Sort(KeyOrder(), a), Sort(KeyOrder(), b);
    SortedOwnKeys(a);
    SortedOwnKeys(b);
    KeysIncluded(s, t);
    SameSizeSameKeys(KeysOf(s), KeysOf(t));
    SameElementsSameBag(KeysOf(s), KeysOf(t));
    TextsOrder(KeysOf(s));
    SortedUnique(TextOrder(), KeysOf(s), KeysOf(t));
  }

  lemma KeysIncluded(s: seq<Field>, t: seq<Field>)
    requires forall f :: f in s ==> exists g :: g in t && g.key == f.key
    ensures forall k :: k in KeysOf(s) ==> k in KeysOf(t)
  {
    forall k | k in KeysOf(s) ensures k in KeysOf(t) {
      var i :| 0 <= i < |s| && KeysOf(s)[i] == k;
      assert s[i] in s;
      var g :| g in t && g.key == k;
      var j :| 0 <= j < |t| && t[j] == g;
      assert KeysOf(t)[j] == k;
    }
  }

  lemma SameSizeSameKeys(a: seq<Text>, b: seq<Text>)
    requires Distinct(a) && Distinct(b) && |a| == |b| && forall k :: k in a ==> k in b
    ensures forall k :: k in b ==> k in a
  {
    var s, t := set k | k in a, set k | k in b;
    Counts(a, s);
    Counts(b, t);
    assert s <= t;
    assert t == s + (t - s);
    assert forall k :: k in b ==> k in t;
  }

  lemma {:induction false} Counts(a: seq<Text>, members: set<Text>)
    requires Distinct(a) && forall k :: k in members <==> k in a
    ensures |members| == |a|
  {
    if a != [] {
      var init, last := a[..|a| - 1], a[|a| - 1];
      assert a == init + [last] && last !in init;
      Counts(init, members - {last});
    }
  }

  lemma {:induction false} SameKeepsAlike(a: Json, b: Json, path: Text)
    requires Parsed(a) && Parsed(b) && SameJson(a, b)
    ensures Kept(a, {}, path) == Kept(b, {}, path)
    decreases a, 2
  {
    if a.JArr? {
      SameItemsKept(a, b, ItemPath(path));
    } else if a.JObj? {
      SameFieldsKept(a, b, path);
    }
  }

  lemma {:induction false} SameItemsKept(a: Json, b: Json, path: Text)
    requires a.JArr? && Parsed(a) && Parsed(b) && SameJson(a, b)
    ensures KeptItems(a, |a.items|, {}, path) == KeptItems(b, |b.items|, {}, path)
    decreases a, 1
  {
    var n := |a.items|;
    forall i | 0 <= i < n ensures KeptItems(a, n, {}, path)[i] == KeptItems(b, n, {}, path)[i] {
      ItemsAt(a, n, {}, path, i);
      ItemsAt(b, n, {}, path, i);
      SameKeepsAlike(a.items[i], b.items[i], path);
    }
  }

  lemma {:induction false} SameFieldsKept(a: Json, b: Json, path: Text)
    requires a.JObj? && Parsed(a) && Parsed(b) && SameJson(a, b)
    ensures Kept(a, {}, path) == Kept(b, {}, path)
    decreases a, 1
  {
    var s, t := Sort(KeyOrder(), a.fields), Sort(KeyOrder(), b.fields);
    SortedWithin(a, s);
    SortedWithin(b, t);
    SameKeysIncluded(a, b);
    SortedKeysAgree(a.fields, b.fields);
    assert |KeysOf(s)| == |s| && |KeysOf(t)| == |t|;
    SameFieldListsKept(a, b, s, t, path);
  }

  lemma {:induction false} SameFieldListsKept(a: Json, b: Json, s: seq<Field>, t: seq<Field>, path: Text)
    requires a.JObj? && Parsed(a) && Parsed(b) && SameJson(a, b) && |s| == |t|
    requires Within(a, s) && Within(b, t) && KeysOf(s) == KeysOf(t)
    ensures KeptFields(a, s, {}, path) == KeptFields(b, t, {}, path)
    decreases a, 0, 1
  {
    KeptFieldsSize(a, s, path);
    KeptFieldsSize(b, t, path);
    forall n | 0 <= n < |s| ensures KeptFields(a, s, {}, path)[n] == KeptFields(b, t, {}, path)[n] {
      SameFieldKept(a, b, s, t, path, n);
    }
  }

  lemma KeptFieldsSize(v: Json, fields: seq<Field>, path: Text)
    requires Within(v, fields)
    ensures |KeptFields(v, fields, {}, path)| == |fields|
  {
    if fields != [] { KeptFieldAt(v, fields, path, 0); }
  }

  lemma SameKeysIncluded(a: Json, b: Json)
    requires a.JObj? && SameJson(a, b)
    ensures forall f :: f in a.fields ==> exists g :: g in b.fields && g.key == f.key
  {
    forall f | f in a.fields ensures exists g :: g in b.fields && g.key == f.key {
      var i :| 0 <= i < |a.fields| && a.fields[i] == f;
      var j :| 0 <= j < |b.fields| && b.fields[j].key == a.fields[i].key && SameJson(a.fields[i].value, b.fields[j].value);
      assert b.fields[j] in b.fields;
    }
  }

  lemma {:induction false} SameFieldKept(a: Json, b: Json, s: seq<Field>, t: seq<Field>, path: Text, n: nat)
    requires a.JObj? && Parsed(a) && Parsed(b) && SameJson(a, b) && n < |s| && |s| == |t|
    requires Within(a, s) && Within(b, t) && KeysOf(s) == KeysOf(t)
    ensures |KeptFields(a, s, {}, path)| == |KeptFields(b, t, {}, path)| == |s|
    ensures KeptFields(a, s, {}, path)[n] == KeptFields(b, t, {}, path)[n]
    decreases a, 0, 0
  {
    KeptFieldAt(a, s, path, n);
    KeptFieldAt(b, t, path, n);
    SameKeyed(a, b, s, t, n);
    FieldSmaller(a, s[n]);
    ValueParsed(a, s[n]);
    ValueParsed(b, t[n]);
    SameKeepsAlike(s[n].value, t[n].value, ChildPath(path, s[n].key));
  }

  lemma ValueParsed(v: Json, f: Field)
    requires Parsed(v) && v.JObj? && f in v.fields
    ensures Parsed(f.value)
  {
    var i :| 0 <= i < |v.fields| && v.fields[i] == f;
  }

  lemma SameKeyed(a: Json, b: Json, s: seq<Field>, t: seq<Field>, n: nat)
    requires a.JObj? && Parsed(b) && SameJson(a, b) && n < |s| && |s| == |t|
    requires Within(a, s) && Within(b, t) && KeysOf(s) == KeysOf(t)
    ensures s[n].key == t[n].key && SameJson(s[n].value, t[n].value)
  {
    assert KeysOf(s)[n] == KeysOf(t)[n];
    var i :| 0 <= i < |a.fields| && a.fields[i] == s[n];
    var j :| 0 <= j < |b.fields| && b.fields[j].key == a.fields[i].key && SameJson(a.fields[i].value, b.fields[j].value);
    var m :| 0 <= m < |b.fields| && b.fields[m] == t[n];
    assert j == m;
  }

  lemma {:induction false} KeptAlikeIsSame(a: Json, b: Json, path: Text)
    requires Parsed(a) && Parsed(b) && Kept(a, {}, path) == Kept(b, {}, path)
    ensures SameJson(a, b)
    decreases a, 2
  {
    if a.JArr? {
      forall i | 0 <= i < |a.items| ensures SameJson(a.items[i], b.items[i]) {
        ItemsAt(a, |a.items|, {}, ItemPath(path), i);
        ItemsAt(b, |b.items|, {}, ItemPath(path), i);
        KeptAlikeIsSame(a.items[i], b.items[i], ItemPath(path));
      }
    } else if a.JObj? {
      KeptAlikeFields(a, b, path);
    }
  }

  lemma {:induction false} KeptAlikeFields(a: Json, b: Json, path: Text)
    requires a.JObj? && b.JObj? && Parsed(a) && Parsed(b) && Kept(a, {}, path) == Kept(b, {}, path)
    ensures SameJson(a, b)
    decreases a, 1, 1
  {
    var s, t := Sort(KeyOrder(), a.fields), Sort(KeyOrder(), b.fields);
    SortedWithin(a, s);
    SortedWithin(b, t);
    SortKeepsMembers(KeyOrder(), a.fields);
    KeptFieldsSize(a, s, path);
    KeptFieldsSize(b, t, path);
    forall i | 0 <= i < |a.fields|
      ensures exists j :: 0 <= j < |b.fields| && b.fields[j].key == a.fields[i].key && SameJson(a.fields[i].value, b.fields[j].value)
    {
      assert a.fields[i] in s;
      var n :| 0 <= n < |s| && s[n] == a.fields[i];
      var j := KeptAlikeField(a, b, s, t, path, i, n);
    }
  }

  lemma {:induction false} KeptAlikeField(a: Json, b: Json, s: seq<Field>, t: seq<Field>, path: Text, i: nat,
      n: nat) returns (j: nat)
    requires a.JObj? && b.JObj? && Parsed(a) && Parsed(b) && i < |a.fields| && n < |s| && |s| == |t| && s[n] == a.fields[i]
    requires Within(a, s) && Within(b, t) && KeptFields(a, s, {}, path) == KeptFields(b, t, {}, path)
    ensures j < |b.fields| && b.fields[j].key == a.fields[i].key && SameJson(a.fields[i].value, b.fields[j].value)
    decreases a, 1, 0
  {
    KeptFieldAt(a, s, path, n);
    KeptFieldAt(b, t, path, n);
    ValueParsed(b, t[n]);
    KeptAlikeIsSame(a.fields[i].value, t[n].value, ChildPath(path, s[n].key));
    j :| 0 <= j < |b.fields| && b.fields[j] == t[n];
  }

  /** `canonicalJson` is injective up to the order of object keys, and blind to that order. */
  lemma CanonicalTextIsExact(a: Json, b: Json)
    requires Parsed(a) && Parsed(b)
    ensures Canonicalize(a, {}, []) == Canonicalize(b, {}, []) <==> SameJson(a, b)
  {
    SameTextMeansSameKept(a, b, {});
    if SameJson(a, b) { SameKeepsAlike(a, b, []); }
    if Kept(a, {}, []) == Kept(b, {}, []) { KeptAlikeIsSame(a, b, []); }
  }
}
