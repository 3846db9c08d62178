/** The canonical text tells two payloads apart exactly when they are different JSON. */
module CanonicalProof {
  import opened Prelude
  import opened Sorting
  import opened Json
  import opened Canonical

  // ---------- the text is what is kept, printed ----------

  lemma {:induction false} ItemsAt(v: Json, n: nat, exclude: set<Text>, path: Text, i: nat)
    requires v.JArr? && i < n <= |v.items|
    ensures ItemTexts(v, n, exclude, path)[i] == Canonicalize(v.items[i], exclude, path)
    ensures KeptItems(v, n, exclude, path)[i] == Kept(v.items[i], exclude, path)
    ensures PrintItems(v, n)[i] == Print(v.items[i])
  {
    if i < n - 1 { ItemsAt(v, n - 1, exclude, path, i); }
  }

  /** Printing the first fields needs no others. */
  lemma {:induction false} FieldsAt(v: Json, n: nat, i: nat)
    requires v.JObj? && i < n <= |v.fields|
    ensures PrintFields(v, n)[i] == Quoted(v.fields[i].key) + [COLON] + Print(v.fields[i].value)
  {
    if i < n - 1 { FieldsAt(v, n - 1, i); }
  }

  lemma {:induction false} KeptIsPrinted(v: Json, exclude: set<Text>, path: Text)
    ensures Canonicalize(v, exclude, path) == Print(Kept(v, exclude, path))
    decreases v, 1, 0
  {
    match v
    case JArr(items) =>
      var w := Kept(v, exclude, path);
      var n := |items|;
      var inside := ItemPath(path);
      forall i | 0 <= i < n ensures ItemTexts(v, n, exclude, inside)[i] == PrintItems(w, n)[i] {
        ItemsAt(v, n, exclude, inside, i);
        ItemsAt(w, n, exclude, inside, i);
        KeptIsPrinted(items[i], exclude, inside);
      }
      assert ItemTexts(v, n, exclude, inside) == PrintItems(w, n);
    case JObj(fields) =>
      var sorted := Sort(KeyOrder(), fields);
      SortedWithin(v, sorted);
      KeptFieldsArePrinted(v, sorted, exclude, path, Kept(v, exclude, path));
    case _ =>
  }

  lemma {:induction false} KeptFieldsArePrinted(v: Json, fields: seq<Field>, exclude: set<Text>, path: Text, w: Json)
    requires Within(v, fields) && w.JObj? && KeptFields(v, fields, exclude, path) <= w.fields
    ensures EntryTexts(v, fields, exclude, path) == PrintFields(w, |KeptFields(v, fields, exclude, path)|)
    decreases v, 0, |fields|
  {
    if fields != [] {
      var f := fields[|fields| - 1];
      FieldSmaller(v, f);
      KeptFieldsArePrinted(v, fields[..|fields| - 1], exclude, path, w);
      KeptIsPrinted(f.value, exclude, ChildPath(path, f.key));
    }
  }

  // ---------- printed text reads back ----------

  /** What can follow a value inside a text: nothing, a comma or a closing bracket. */
  predicate Ends(x: Text) { x == [] || x[0] == COMMA || x[0] == CLOSE_ITEMS || x[0] == CLOSE_FIELDS }

  /** From part `i` to the closing bracket. */
  function Rest(parts: seq<Text>, i: nat, close: Text): Text
    requires i <= |parts|
    decreases |parts| - i
  {
    if i == |parts| then close else (if i > 0 then [COMMA] else []) + (parts[i] + Rest(parts, i + 1, close))
  }

  lemma {:induction false} JoinFrom(parts: seq<Text>, i: nat, close: Text)
    requires 0 < i <= |parts|
    ensures Rest(parts, i, close) == (if i == |parts| then [] else [COMMA]) + Join(parts[i..]) + close
    decreases |parts| - i
  {
    if i < |parts| {
      JoinFrom(parts, i + 1, close);
      assert parts[i..][1..] == parts[i + 1..];
    }
  }

  lemma JoinIsRest(parts: seq<Text>, close: Text)
    ensures Join(parts) + close == Rest(parts, 0, close)
  {
    if parts != [] { JoinFrom(parts, 1, close); }
  }

  predicate Heads(v: Json, u: Unit) {
    match v
    case JNull => u == 110
    case JBool(flag) => u == if flag then 116 else 102
    case JNum(_) => IsDigit(u) || u == MINUS
    case JStr(_) => u == QUOTE
    case JArr(_) => u == OPEN_ITEMS
    case JObj(_) => u == OPEN_FIELDS
  }

  lemma HeadOf(v: Json)
    requires Parsed(v)
    ensures Print(v) != [] && Heads(v, Print(v)[0])
  {
  }

  lemma LiteralUnique(s: Text, t: Text, x: Text, y: Text)
    requires IsLiteral(s) && IsLiteral(t) && s + x == t + y && Ends(x) && Ends(y)
    ensures s == t && x == y
  {
    LiteralEnds(s, t, x, y);
    LiteralEnds(t, s, y, x);
    SameSplit(s, t, x, y);
  }

  /** A literal runs on as far as number characters do. */
  lemma LiteralEnds(s: Text, t: Text, x: Text, y: Text)
    requires IsLiteral(t) && s + x == t + y && Ends(x)
    ensures |t| <= |s|
  {
    var w := s + x;
    assert forall i :: 0 <= i < |t| ==> w[i] == (t + y)[i] == t[i];
    if |s| < |w| {
      assert w[|s|] == x[0];
      assert !InNumber(w[|s|]);
    }
  }

  lemma SameSplit(s: Text, t: Text, x: Text, y: Text)
    requires |s| == |t| && s + x == t + y
    ensures s == t && x == y
  {
    assert s == (s + x)[..|s|] == (t + y)[..|t|] == t;
    assert x == (s + x)[|s|..] == (t + y)[|t|..] == y;
  }

  /** A printed value shows where it ends and what it was, key order included. */
  lemma {:induction false} PrintUnique(a: Json, b: Json, x: Text, y: Text)
    requires Parsed(a) && Parsed(b) && Print(a) + x == Print(b) + y && Ends(x) && Ends(y)
    ensures a == b && x == y
    decreases a, 1, 0
  {
    HeadOf(a);
    HeadOf(b);
    assert Print(a)[0] == (Print(a) + x)[0] == (Print(b) + y)[0] == Print(b)[0];
    match a
    case JNum(literal) => LiteralUnique(literal, b.literal, x, y);
    case JStr(text) => QuotedUnique(text, b.text, x, y);
    case JArr(items) =>
      var p, q := PrintItems(a, |items|), PrintItems(b, |b.items|);
      Opened(OPEN_ITEMS, p, x, CLOSE_ITEMS);
      Opened(OPEN_ITEMS, q, y, CLOSE_ITEMS);
      ItemsUnique(a, b, 0, x, y);
      assert a.items == b.items;
    case JObj(fields) =>
      var p, q := PrintFields(a, |fields|), PrintFields(b, |b.fields|);
      Opened(OPEN_FIELDS, p, x, CLOSE_FIELDS);
      Opened(OPEN_FIELDS, q, y, CLOSE_FIELDS);
      FieldsUnique(a, b, 0, x, y);
      assert a.fields == b.fields;
    case _ => SameSplit(Print(a), Print(b), x, y);
  }

  lemma Opened(open: Unit, parts: seq<Text>, x: Text, close: Unit)
    ensures ([open] + Join(parts) + [close] + x)[1..] == Rest(parts, 0, [close]) + x
  {
    JoinIsRest(parts, [close]);
    assert [open] + Join(parts) + [close] + x == [open] + (Join(parts) + [close] + x);
  }

  /** Past the comma, if there is one: the part itself and then the rest. */
  lemma RestAt(parts: seq<Text>, i: nat, close: Text, x: Text)
    requires i < |parts|
    ensures (Rest(parts, i, close) + x)[(if i > 0 then 1 else 0)..] == parts[i] + (Rest(parts, i + 1, close) + x)
    ensures i > 0 ==> (Rest(parts, i, close) + x)[0] == COMMA
  {
    assert Rest(parts, i, close) + x == (if i > 0 then [COMMA] else []) + (parts[i] + (Rest(parts, i + 1, close) + x));
  }

  lemma RestEnds(parts: seq<Text>, i: nat, close: Unit, x: Text)
    requires 0 < i <= |parts| && (close == CLOSE_ITEMS || close == CLOSE_FIELDS)
    ensures Ends(Rest(parts, i, [close]) + x)
  {
    if i < |parts| { RestAt(parts, i, [close], x); }
  }

  /** Both lists end here, or neither does. */
  lemma EndTogether(p: seq<Text>, q: seq<Text>, i: nat, close: Unit, x: Text, y: Text)
    requires i <= |p| && i <= |q| && Rest(p, i, [close]) + x == Rest(q, i, [close]) + y && close != COMMA
    requires i < |p| ==> p[i] != [] && p[i][0] != close
    requires i < |q| ==> q[i] != [] && q[i][0] != close
    ensures i == |p| <==> i == |q|
    ensures i == |p| ==> x == y
  {
    if i < |p| {
      RestAt(p, i, [close], x);
      assert i == 0 ==> (Rest(p, i, [close]) + x)[0] == p[i][0];
    } else {
      assert (Rest(p, i, [close]) + x)[0] == close && (Rest(p, i, [close]) + x)[1..] == x;
    }
    if i < |q| {
      RestAt(q, i, [close], y);
      assert i == 0 ==> (Rest(q, i, [close]) + y)[0] == q[i][0];
    } else {
      assert (Rest(q, i, [close]) + y)[0] == close && (Rest(q, i, [close]) + y)[1..] == y;
    }
  }

  /** With a part on each side: the parts and what follows them line up. */
  lemma NextParts(p: seq<Text>, q: seq<Text>, i: nat, close: Unit, x: Text, y: Text)
    requires i < |p| && i < |q| && Rest(p, i, [close]) + x == Rest(q, i, [close]) + y
    requires close == CLOSE_ITEMS || close == CLOSE_FIELDS
    ensures p[i] + (Rest(p, i + 1, [close]) + x) == q[i] + (Rest(q, i + 1, [close]) + y)
    ensures Ends(Rest(p, i + 1, [close]) + x) && Ends(Rest(q, i + 1, [close]) + y)
  {
    RestAt(p, i, [close], x);
    RestAt(q, i, [close], y);
    RestEnds(p, i + 1, close, x);
    RestEnds(q, i + 1, close, y);
  }

  lemma ItemHead(v: Json, i: nat)
    requires v.JArr? && i < |v.items| && Parsed(v)
    ensures PrintItems(v, |v.items|)[i] == Print(v.items[i]) && Print(v.items[i]) != [] && Print(v.items[i])[0] != CLOSE_ITEMS
  {
    ItemsAt(v, |v.items|, {}, [], i);
    HeadOf(v.items[i]);
  }

  lemma {:induction false} ItemsUnique(a: Json, b: Json, i: nat, x: Text, y: Text)
    requires a.JArr? && b.JArr? && Parsed(a) && Parsed(b) && i <= |a.items| && i <= |b.items|
    requires Rest(PrintItems(a, |a.items|), i, [CLOSE_ITEMS]) + x == Rest(PrintItems(b, |b.items|), i, [CLOSE_ITEMS]) + y
    ensures |a.items| == |b.items| && x == y && forall k :: i <= k < |a.items| ==> a.items[k] == b.items[k]
    decreases a, 0, |a.items| - i
  {
    var p, q := PrintItems(a, |a.items|), PrintItems(b, |b.items|);
    if i < |a.items| { ItemHead(a, i); }
    if i < |b.items| { ItemHead(b, i); }
    EndTogether(p, q, i, CLOSE_ITEMS, x, y);
    if i < |a.items| {
      NextParts(p, q, i, CLOSE_ITEMS, x, y);
      PrintUnique(a.items[i], b.items[i], Rest(p, i + 1, [CLOSE_ITEMS]) + x, Rest(q, i + 1, [CLOSE_ITEMS]) + y);
      ItemsUnique(a, b, i + 1, x, y);
    }
  }

  lemma {:induction false} FieldsUnique(a: Json, b: Json, i: nat, x: Text, y: Text)
    requires a.JObj? && b.JObj? && Parsed(a) && Parsed(b) && i <= |a.fields| && i <= |b.fields|
    requires Rest(PrintFields(a, |a.fields|), i, [CLOSE_FIELDS]) + x == Rest(PrintFields(b, |b.fields|), i, [CLOSE_FIELDS]) + y
    ensures |a.fields| == |b.fields| && x == y && forall k :: i <= k < |a.fields| ==> a.fields[k] == b.fields[k]
    decreases a, 0, |a.fields| - i
  {
    var p, q := PrintFields(a, |a.fields|), PrintFields(b, |b.fields|);
    if i < |a.fields| { FieldsAt(a, |a.fields|, i); }
    if i < |b.fields| { FieldsAt(b, |b.fields|, i); }
    EndTogether(p, q, i, CLOSE_FIELDS, x, y);
    if i < |a.fields| {
      NextParts(p, q, i, CLOSE_FIELDS, x, y);
      FieldUnique(a, b, i, Rest(p, i + 1, [CLOSE_FIELDS]) + x, Rest(q, i + 1, [CLOSE_FIELDS]) + y);
      FieldsUnique(a, b, i + 1, x, y);
    }
  }

  lemma {:induction false} FieldUnique(a: Json, b: Json, i: nat, x: Text, y: Text)
    requires a.JObj? && b.JObj? && Parsed(a) && Parsed(b) && i < |a.fields| && i < |b.fields| && Ends(x) && Ends(y)
    requires Quoted(a.fields[i].key) + [COLON] + Print(a.fields[i].value) + x == Quoted(b.fields[i].key) + [COLON] + Print(b.fields[i].value) + y
    ensures a.fields[i] == b.fields[i] && x == y
    decreases a, 0, 0
  {
    var f, g := a.fields[i], b.fields[i];
    KeyThenValue(Quoted(f.key), Print(f.value), x);
    KeyThenValue(Quoted(g.key), Print(g.value), y);
    QuotedUnique(f.key, g.key, [COLON] + (Print(f.value) + x), [COLON] + (Print(g.value) + y));
    SameSplit([COLON], [COLON], Print(f.value) + x, Print(g.value) + y);
    PrintUnique(f.value, g.value, x, y);
  }

  lemma KeyThenValue(key: Text, value: Text, x: Text)
    ensures key + [COLON] + value + x == key + ([COLON] + (value + x))
  {
  }
}
