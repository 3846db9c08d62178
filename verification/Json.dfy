/** JSON values as a parser leaves them, and the text `JSON.stringify` gives a string. */
module Json {
  import opened Prelude
  import opened Sorting

  /** A UTF-16 code unit, as JavaScript strings are made of. */
  type Unit = u: int | 0 <= u < 0x10000
  type Text = seq<Unit>

  /** A number is the literal it prints as; object fields keep the order they were parsed in. */
  datatype Json =
    | JNull
    | JBool(flag: bool)
    | JNum(literal: Text)
    | JStr(text: Text)
    | JArr(items: seq<Json>)
    | JObj(fields: seq<Field>)

  datatype Field = Field(key: Text, value: Json)

  const QUOTE: Unit := 34
  const PLUS: Unit := 43
  const COMMA: Unit := 44
  const MINUS: Unit := 45
  const DOT: Unit := 46
  const COLON: Unit := 58
  const OPEN_ITEMS: Unit := 91
  const BACKSLASH: Unit := 92
  const CLOSE_ITEMS: Unit := 93
  const OPEN_FIELDS: Unit := 123
  const CLOSE_FIELDS: Unit := 125

  predicate IsDigit(u: Unit) { 48 <= u <= 57 }

  predicate InNumber(u: Unit) { IsDigit(u) || u == PLUS || u == MINUS || u == DOT || u == 69 || u == 101 }

  predicate IsLiteral(t: Text) {
    t != [] && (IsDigit(t[0]) || t[0] == MINUS) && forall i :: 0 <= i < |t| ==> InNumber(t[i])
  }

  ghost predicate OwnKeys(fields: seq<Field>) {
    forall i, j :: 0 <= i < j < |fields| ==> fields[i].key != fields[j].key
  }

  /** What `JSON.parse` can return: number literals, and no key twice in one object. */
  ghost predicate Parsed(v: Json) {
    match v
    case JNum(literal) => IsLiteral(literal)
    case JArr(items) => forall i :: 0 <= i < |items| ==> Parsed(items[i])
    case JObj(fields) => OwnKeys(fields) && forall i :: 0 <= i < |fields| ==> Parsed(fields[i].value)
    case _ => true
  }

  /** The same JSON value: everything equal but the order of object keys. */
  ghost predicate SameJson(a: Json, b: Json) {
    match a
    case JArr(items) =>
      b.JArr? && |items| == |b.items| && forall i :: 0 <= i < |items| ==> SameJson(items[i], b.items[i])
    case JObj(fields) =>
      && b.JObj? && |fields| == |b.fields|
      && forall i :: 0 <= i < |fields| ==>
           exists j :: 0 <= j < |b.fields| && b.fields[j].key == fields[i].key && SameJson(fields[i].value, b.fields[j].value)
    case _ => a == b
  }

  // ---------- strings (section 7 of RFC 8259) ----------

  predicate HighSurrogate(u: Unit) { 0xD800 <= u < 0xDC00 }
  predicate LowSurrogate(u: Unit) { 0xDC00 <= u < 0xE000 }

  function HexDigit(n: int): Unit
    requires 0 <= n < 16
  {
    if n < 10 then 48 + n else 87 + n
  }

  function Hex(u: Unit): (t: Text)
    ensures |t| == 4
  {
    [HexDigit(u / 4096), HexDigit(u / 256 % 16), HexDigit(u / 16 % 16), HexDigit(u % 16)]
  }

  function EscapeUnit(u: Unit): Text {
    if u == QUOTE then [BACKSLASH, QUOTE]
    else if u == BACKSLASH then [BACKSLASH, BACKSLASH]
    else if u == 8 then [BACKSLASH, 98]
    else if u == 12 then [BACKSLASH, 102]
    else if u == 10 then [BACKSLASH, 110]
    else if u == 13 then [BACKSLASH, 114]
    else if u == 9 then [BACKSLASH, 116]
    else if u < 32 || HighSurrogate(u) || LowSurrogate(u) then [BACKSLASH, 117] + Hex(u)
    else [u]
  }

  /** A surrogate pair goes as it is; a lone surrogate is escaped. */
  function Escape(s: Text): Text {
    if s == [] then []
    else if |s| >= 2 && HighSurrogate(s[0]) && LowSurrogate(s[1]) then [s[0], s[1]] + Escape(s[2..])
    else EscapeUnit(s[0]) + Escape(s[1..])
  }

  function Quoted(s: Text): Text { [QUOTE] + Escape(s) + [QUOTE] }

  function UnhexDigit(u: Unit): int { if u < 58 then u - 48 else u - 87 }

  /** Reading back: the text of a string up to its closing quote, and what follows. */
  function Unescape(t: Text): Option<(seq<int>, Text)> {
    if t == [] then None
    else if t[0] == QUOTE then Some(([], t[1..]))
    else if t[0] != BACKSLASH then Behind(t[0], Unescape(t[1..]))
    else if |t| < 2 then None
    else if t[1] == 117 then
      if |t| < 6 then None
      else Behind(4096 * UnhexDigit(t[2]) + 256 * UnhexDigit(t[3]) + 16 * UnhexDigit(t[4]) + UnhexDigit(t[5]), Unescape(t[6..]))
    else
      Behind(ShortEscape(t[1]), Unescape(t[2..]))
  }

  function Behind(u: int, rest: Option<(seq<int>, Text)>): Option<(seq<int>, Text)> {
    if rest.None? then None else Some(([u] + rest.value.0, rest.value.1))
  }

  lemma PlainReadsBack(u: Unit, t: Text)
    requires u != QUOTE && u != BACKSLASH
    ensures Unescape([u] + t) == Behind(u, Unescape(t))
  {
    assert ([u] + t)[1..] == t;
  }

  function ShortEscape(c: Unit): Unit {
    if c == 98 then 8 else if c == 102 then 12 else if c == 110 then 10 else if c == 114 then 13 else if c == 116 then 9 else c
  }

  lemma ShortReadsBack(c: Unit, t: Text)
    requires c != 117
    ensures Unescape([BACKSLASH, c] + t) == Behind(ShortEscape(c), Unescape(t))
  {
    assert ([BACKSLASH, c] + t)[2..] == t;
  }

  lemma LongReadsBack(u: Unit, t: Text)
    ensures Unescape([BACKSLASH, 117] + Hex(u) + t) == Behind(u, Unescape(t))
  {
    var all := [BACKSLASH, 117] + Hex(u) + t;
    assert all[6..] == t;
    HexReadsBack(u);
  }

  lemma UnitReadsBack(u: Unit, t: Text)
    ensures Unescape(EscapeUnit(u) + t) == Behind(u, Unescape(t))
  {
    if u == QUOTE || u == BACKSLASH { ShortReadsBack(u, t); }
    else if u == 8 { ShortReadsBack(98, t); }
    else if u == 12 { ShortReadsBack(102, t); }
    else if u == 10 { ShortReadsBack(110, t); }
    else if u == 13 { ShortReadsBack(114, t); }
    else if u == 9 { ShortReadsBack(116, t); }
    else if u < 32 || HighSurrogate(u) || LowSurrogate(u) { LongReadsBack(u, t); }
    else { PlainReadsBack(u, t); }
  }

  lemma HexReadsBack(u: Unit)
    ensures 4096 * UnhexDigit(HexDigit(u / 4096)) + 256 * UnhexDigit(HexDigit(u / 256 % 16))
      + 16 * UnhexDigit(HexDigit(u / 16 % 16)) + UnhexDigit(HexDigit(u % 16)) == u
  {
    assert u / 16 == 16 * (u / 256) + u / 16 % 16;
    assert u / 256 == 16 * (u / 4096) + u / 256 % 16;
  }

  lemma {:induction false} PairReadsBack(u: Unit, v: Unit, t: Text)
    requires HighSurrogate(u) && LowSurrogate(v)
    ensures Unescape([u, v] + t) == Behind(u, Behind(v, Unescape(t)))
  {
    PlainReadsBack(v, t);
    PlainReadsBack(u, [v] + t);
    assert [u, v] + t == [u] + ([v] + t);
  }

  predicate StartsWithPair(s: Text) { |s| >= 2 && HighSurrogate(s[0]) && LowSurrogate(s[1]) }

  lemma {:induction false} EscapesPair(s: Text, close: Text)
    requires StartsWithPair(s)
    ensures Escape(s) + close == [s[0], s[1]] + (Escape(s[2..]) + close)
  {
    assert ([s[0], s[1]] + Escape(s[2..])) + close == [s[0], s[1]] + (Escape(s[2..]) + close);
  }

  lemma {:induction false} PairBehind(u: Unit, v: Unit, tail: Text, body: Text, rest: Text)
    requires HighSurrogate(u) && LowSurrogate(v) && Unescape(tail) == Some((body, rest))
    ensures Unescape([u, v] + tail) == Some(([u] + ([v] + body), rest))
  {
    PairReadsBack(u, v, tail);
  }

  lemma PairSplits(s: Text)
    requires |s| >= 2
    ensures s == [s[0]] + ([s[1]] + s[2..])
  {
  }

  lemma {:induction false} PairStep(s: Text, close: Text, rest: Text)
    requires StartsWithPair(s) && Unescape(Escape(s[2..]) + close) == Some((s[2..], rest))
    ensures Unescape(Escape(s) + close) == Some((s, rest))
  {
    EscapesPair(s, close);
    PairBehind(s[0], s[1], Escape(s[2..]) + close, s[2..], rest);
    PairSplits(s);
  }

  lemma {:induction false} UnitStep(s: Text, close: Text, rest: Text)
    requires s != [] && !StartsWithPair(s) && Unescape(Escape(s[1..]) + close) == Some((s[1..], rest))
    ensures Unescape(Escape(s) + close) == Some((s, rest))
  {
    var tail := Escape(s[1..]) + close;
    assert Escape(s) + close == EscapeUnit(s[0]) + tail;
    UnitReadsBack(s[0], tail);
    assert s == [s[0]] + s[1..];
  }

  lemma ClosingReadsBack(rest: Text)
    ensures Unescape([] + ([QUOTE] + rest)) == Some(([], rest))
  {
    assert ([] + ([QUOTE] + rest)) == [QUOTE] + rest && ([QUOTE] + rest)[1..] == rest;
  }

  lemma {:induction false} QuotedReadsBack(s: Text, rest: Text)
    ensures Unescape(Escape(s) + ([QUOTE] + rest)) == Some((s, rest))
    decreases |s|
  {
    if s == [] {
      ClosingReadsBack(rest);
    } else if StartsWithPair(s) {
      QuotedReadsBack(s[2..], rest);
      PairStep(s, [QUOTE] + rest, rest);
    } else {
      QuotedReadsBack(s[1..], rest);
      UnitStep(s, [QUOTE] + rest, rest);
    }
  }

  lemma QuotedTail(s: Text, x: Text)
    ensures (Quoted(s) + x)[1..] == Escape(s) + ([QUOTE] + x)
  {
  }

  /** A quoted string shows where it ends and what it was. */
  lemma QuotedUnique(s: Text, t: Text, x: Text, y: Text)
    requires Quoted(s) + x == Quoted(t) + y
    ensures s == t && x == y
  {
    QuotedTail(s, x);
    QuotedTail(t, y);
    QuotedReadsBack(s, x);
    QuotedReadsBack(t, y);
  }

  // ---------- the order of keys ----------

  /** `Array.prototype.sort` on strings: by code unit. */
  predicate UnitLe(a: Text, b: Text) {
    a == [] || (b != [] && (a[0] < b[0] || (a[0] == b[0] && UnitLe(a[1..], b[1..]))))
  }

  lemma {:induction false} UnitLeTotal(a: Text, b: Text)
    ensures UnitLe(a, b) || UnitLe(b, a)
    ensures UnitLe(a, b) && UnitLe(b, a) ==> a == b
  {
    if a != [] && b != [] && a[0] == b[0] {
      UnitLeTotal(a[1..], b[1..]);
      assert a == [a[0]] + a[1..] && b == [b[0]] + b[1..];
    }
  }

  lemma {:induction false} UnitLeTransitive(a: Text, b: Text, c: Text)
    requires UnitLe(a, b) && UnitLe(b, c)
    ensures UnitLe(a, c)
  {
    if a != [] && a[0] == b[0] && b[0] == c[0] { UnitLeTransitive(a[1..], b[1..], c[1..]); }
  }

  function KeyOrder(): (Field, Field) -> bool { (f: Field, g: Field) => UnitLe(f.key, g.key) }
  function TextOrder(): (Text, Text) -> bool { (a, b) => UnitLe(a, b) }

  lemma KeysRank(fields: seq<Field>)
    ensures Ranks(KeyOrder(), fields)
  {
    forall f: Field, g: Field ensures UnitLe(f.key, g.key) || UnitLe(g.key, f.key) { UnitLeTotal(f.key, g.key); }
    forall f: Field, g: Field, h: Field | UnitLe(f.key, g.key) && UnitLe(g.key, h.key) ensures UnitLe(f.key, h.key) {
      UnitLeTransitive(f.key, g.key, h.key);
    }
  }

  lemma TextsOrder(keys: seq<Text>)
    ensures Orders(TextOrder(), keys)
  {
    forall a: Text, b: Text ensures (UnitLe(a, b) || UnitLe(b, a)) && (UnitLe(a, b) && UnitLe(b, a) ==> a == b) { UnitLeTotal(a, b); }
    forall a: Text, b: Text, c: Text | UnitLe(a, b) && UnitLe(b, c) ensures UnitLe(a, c) { UnitLeTransitive(a, b, c); }
  }
}
