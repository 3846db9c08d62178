/**
 Browse's pages (browse.ts). A cursor names a row; "Sponsorable first" is two reads, the leading
 shelters' group and the rest, standing in for one sort; a page can be walked to from either side.
 */
module Browse {
  import opened Prelude
  import opened Sorting

  const BROWSE_PAGE_SIZE: nat := 24
  const NEXT_TEASER_SIZE: nat := 3

  /** A dated animal the filters let through; `leading` when its shelter is one of the list's leading shelters. */
  datatype Row = Row(id: int, listedAt: int, leading: bool, name: string)

  /** A cursor: a row's sort key, marked when the row is in the leading group. */
  datatype Cursor = Cursor(listedAt: int, id: int, sponsorable: bool)

  /** How a list is ordered: oldest first for the longest-waiting sort, and split in two when any shelter leads. */
  datatype Order = Order(longest: bool, grouped: bool)

  datatype Side = After | Before

  function KeyOf(o: Order, row: Row): Cursor { Cursor(row.listedAt, row.id, o.grouped && row.leading) }

  // ---------- one read ----------

  /** `(listed_at, id) > (t, i)` or `<`, whichever is further down the page on that side. */
  predicate Beyond(o: Order, side: Side, row: Row, from: Cursor) {
    var later := row.listedAt > from.listedAt || (row.listedAt == from.listedAt && row.id > from.id);
    var earlier := row.listedAt < from.listedAt || (row.listedAt == from.listedAt && row.id < from.id);
    if side.After? == o.longest then later else earlier
  }

  /** The read's own `order by`: never the group, only date and id. */
  predicate DateLe(o: Order, side: Side, a: Row, b: Row) {
    if o.longest == side.After? then a.listedAt < b.listedAt || (a.listedAt == b.listedAt && a.id <= b.id)
    else a.listedAt > b.listedAt || (a.listedAt == b.listedAt && a.id >= b.id)
  }

  function ByDate(o: Order, side: Side): (Row, Row) -> bool { (a: Row, b: Row) => DateLe(o, side, a, b) }

  /** Which rows a read takes: one group or the whole list, past the cursor if there is one. */
  function Chosen(o: Order, side: Side, group: Option<bool>, from: Option<Cursor>): Row -> bool {
    (row: Row) => (group.None? || row.leading == group.value) && (from.None? || Beyond(o, side, row, from.value))
  }

  function Read(o: Order, side: Side, table: seq<Row>, group: Option<bool>, from: Option<Cursor>, limit: nat): seq<Row> {
    Take(Sort(ByDate(o, side), Filter(Chosen(o, side, group, from), table)), limit)
  }

  /** Rows beyond `from`, nearest first: one read, or the near group and then the far group for the remainder. */
  function Walk(o: Order, side: Side, table: seq<Row>, from: Option<Cursor>, limit: nat): seq<Row> {
    if !o.grouped then Read(o, side, table, None, from, limit)
    else
      var near := side.After?;
      var start := if from.None? then near else from.value.sponsorable;
      var rows := Read(o, side, table, Some(start), from, limit);
      if start != near || |rows| == limit then rows
      else rows + Read(o, side, table, Some(!near), None, limit - |rows|)
  }

  // ---------- the one sort it stands in for ----------

  /** Display order: the leading group first, then by date and id. */
  predicate KeyLess(o: Order, a: Cursor, b: Cursor) {
    if a.sponsorable != b.sponsorable then a.sponsorable
    else if o.longest then a.listedAt < b.listedAt || (a.listedAt == b.listedAt && a.id < b.id)
    else a.listedAt > b.listedAt || (a.listedAt == b.listedAt && a.id > b.id)
  }

  predicate Past(o: Order, side: Side, row: Row, from: Option<Cursor>) {
    from.None? || (if side.After? then KeyLess(o, from.value, KeyOf(o, row)) else KeyLess(o, KeyOf(o, row), from.value))
  }

  /** Nearest first on that side. */
  predicate NearerOrSame(o: Order, side: Side, a: Row, b: Row) {
    a == b || (if side.After? then KeyLess(o, KeyOf(o, a), KeyOf(o, b)) else KeyLess(o, KeyOf(o, b), KeyOf(o, a)))
  }

  function Nearest(o: Order, side: Side): (Row, Row) -> bool { (a: Row, b: Row) => NearerOrSame(o, side, a, b) }

  function PastBy(o: Order, side: Side, from: Option<Cursor>): Row -> bool { (row: Row) => Past(o, side, row, from) }

  /** The slice of one composite sort. */
  function Slice(o: Order, side: Side, table: seq<Row>, from: Option<Cursor>, limit: nat): seq<Row> {
    Take(Sort(Nearest(o, side), Filter(PastBy(o, side, from), table)), limit)
  }

  ghost predicate OwnIds(table: seq<Row>) {
    forall i, j :: 0 <= i < j < |table| ==> table[i].id != table[j].id
  }

  lemma OwnIdsApart(table: seq<Row>, a: Row, b: Row)
    requires OwnIds(table) && a in table && b in table && a.id == b.id
    ensures a == b
  {
    var i :| 0 <= i < |table| && table[i] == a;
    var j :| 0 <= j < |table| && table[j] == b;
  }

  lemma NearestOrders(o: Order, side: Side, table: seq<Row>, rows: seq<Row>)
    requires OwnIds(table) && forall r :: r in rows ==> r in table
    ensures Orders(Nearest(o, side), rows)
  {
    forall a, b | a in rows && b in rows ensures NearerOrSame(o, side, a, b) || NearerOrSame(o, side, b, a) {
      if a.id == b.id { OwnIdsApart(table, a, b); }
    }
  }

  lemma DatesRank(o: Order, side: Side, rows: seq<Row>)
    ensures Ranks(ByDate(o, side), rows)
  {
  }

  /** Within one group the read's order is the display order. */
  lemma ReadIsSlice(o: Order, side: Side, table: seq<Row>, group: Option<bool>, from: Option<Cursor>)
    requires OwnIds(table) && (o.grouped ==> group.Some?)
    ensures
      var rows := Filter(Chosen(o, side, group, from), table);
      Sort(ByDate(o, side), rows) == Sort(Nearest(o, side), rows)
  {
    var rows := Filter(Chosen(o, side, group, from), table);
    var sorted := Sort(ByDate(o, side), rows);
    DatesRank(o, side, rows);
    SortSorts(ByDate(o, side), rows);
    SortKeepsMembers(ByDate(o, side), rows);
    NearestOrders(o, side, table, rows);
    forall i, j | 0 <= i < j < |sorted| ensures Nearest(o, side)(sorted[i], sorted[j]) {
      assert sorted[i] in rows && sorted[j] in rows && ByDate(o, side)(sorted[i], sorted[j]);
      if sorted[i].id == sorted[j].id { OwnIdsApart(table, sorted[i], sorted[j]); }
    }
    SortIs(Nearest(o, side), rows, sorted);
  }

  lemma SameFilter(p: Row -> bool, q: Row -> bool, table: seq<Row>)
    requires forall r :: r in table ==> p(r) == q(r)
    ensures Filter(p, table) == Filter(q, table)
  {
    if table != [] {
      assert table == table[..|table| - 1] + [table[|table| - 1]];
      SameFilter(p, q, table[..|table| - 1]);
    }
  }

  /** The rows past the cursor split into those of the near group and those of the far. */
  lemma {:induction false} SplitBag(p: Row -> bool, q: Row -> bool, r: Row -> bool, table: seq<Row>)
    requires forall x :: x in table ==> (p(x) <==> q(x) || r(x)) && !(q(x) && r(x))
    ensures multiset(Filter(q, table)) + multiset(Filter(r, table)) == multiset(Filter(p, table))
  {
    forall x ensures (multiset(Filter(q, table)) + multiset(Filter(r, table)))[x] == multiset(Filter(p, table))[x] {
      FilterCount(p, table, x);
      FilterCount(q, table, x);
      FilterCount(r, table, x);
      assert multiset(table)[x] > 0 ==> x in table;
    }
  }

  /** Near group in order, then far group in order, is the whole in order. */
  lemma JoinedInOrder<T(!new)>(le: (T, T) -> bool, a: seq<T>, b: seq<T>)
    requires Sorted(le, a) && Sorted(le, b) && forall x, y :: x in a && y in b ==> le(x, y)
    ensures Sorted(le, a + b)
  {
    forall i, j | 0 <= i < j < |a + b| ensures le((a + b)[i], (a + b)[j]) {
      if i < |a| <= j { assert a[i] in a && b[j - |a|] in b; }
    }
  }

  lemma GroupsInOrder(o: Order, side: Side, table: seq<Row>, all: seq<Row>, near: seq<Row>, far: seq<Row>)
    requires OwnIds(table) && o.grouped && (forall r :: r in all ==> r in table)
    requires multiset(near) + multiset(far) == multiset(all)
    requires forall r :: r in near ==> r.leading == side.After?
    requires forall r :: r in far ==> r.leading != side.After?
    ensures Sort(Nearest(o, side), all) == Sort(Nearest(o, side), near) + Sort(Nearest(o, side), far)
  {
    var le := Nearest(o, side);
    SameMembers(near + far, all);
    assert forall r :: r in near || r in far ==> r in near + far;
    NearestOrders(o, side, table, all);
    NearestOrders(o, side, table, near);
    NearestOrders(o, side, table, far);
    SortSorts(le, near);
    SortSorts(le, far);
    SortKeepsMembers(le, near);
    SortKeepsMembers(le, far);
    JoinedInOrder(le, Sort(le, near), Sort(le, far));
    SortIs(le, all, Sort(le, near) + Sort(le, far));
  }

  lemma TakeConcat<T>(a: seq<T>, b: seq<T>, n: nat)
    ensures Take(a + b, n) == if |a| >= n then Take(a, n) else a + Take(b, n - |a|)
  {
  }

  /** A walk is the slice of one composite sort, for either side and any cursor. */
  lemma WalkIsSlice(o: Order, side: Side, table: seq<Row>, from: Option<Cursor>, limit: nat)
    requires OwnIds(table) && (!o.grouped && from.Some? ==> !from.value.sponsorable)
    ensures Walk(o, side, table, from, limit) == Slice(o, side, table, from, limit)
  {
    if !o.grouped {
      ReadIsSlice(o, side, table, None, from);
      SameFilter(Chosen(o, side, None, from), PastBy(o, side, from), table);
    } else {
      GroupedWalkIsSlice(o, side, table, from, limit);
    }
  }

  /** Starting in the near group: past the cursor means past it in that group, or anywhere in the other. */
  lemma NearStartSplits(o: Order, side: Side, from: Option<Cursor>, row: Row)
    requires o.grouped && (from.Some? ==> from.value.sponsorable == side.After?)
    ensures Past(o, side, row, from) <==>
      Chosen(o, side, Some(side.After?), from)(row) || Chosen(o, side, Some(!side.After?), None)(row)
  {
  }

  /** Starting in the far group: only that group is left. */
  lemma FarStartStays(o: Order, side: Side, from: Option<Cursor>, row: Row)
    requires o.grouped && from.Some? && from.value.sponsorable != side.After?
    ensures Past(o, side, row, from) <==> Chosen(o, side, Some(!side.After?), from)(row)
  {
  }

  /** Two limited reads are one limited list. */
  lemma TwoReads(o: Order, side: Side, table: seq<Row>, from: Option<Cursor>, limit: nat)
    requires o.grouped && (from.Some? ==> from.value.sponsorable == side.After?)
    ensures
      var near := Sort(ByDate(o, side), Filter(Chosen(o, side, Some(side.After?), from), table));
      var far := Sort(ByDate(o, side), Filter(Chosen(o, side, Some(!side.After?), None), table));
      Walk(o, side, table, from, limit) == Take(near + far, limit)
  {
    var near := Sort(ByDate(o, side), Filter(Chosen(o, side, Some(side.After?), from), table));
    var far := Sort(ByDate(o, side), Filter(Chosen(o, side, Some(!side.After?), None), table));
    TakeConcat(near, far, limit);
  }

  lemma NearStartSort(o: Order, side: Side, table: seq<Row>, from: Option<Cursor>)
    requires OwnIds(table) && o.grouped && (from.Some? ==> from.value.sponsorable == side.After?)
    ensures
      var near, far := Filter(Chosen(o, side, Some(side.After?), from), table), Filter(Chosen(o, side, Some(!side.After?), None), table);
      Sort(Nearest(o, side), Filter(PastBy(o, side, from), table)) == Sort(Nearest(o, side), near) + Sort(Nearest(o, side), far)
  {
    var p, q, r := PastBy(o, side, from), Chosen(o, side, Some(side.After?), from), Chosen(o, side, Some(!side.After?), None);
    forall x | x in table ensures (p(x) <==> q(x) || r(x)) && !(q(x) && r(x)) { NearStartSplits(o, side, from, x); }
    SplitBag(p, q, r, table);
    GroupsInOrder(o, side, table, Filter(p, table), Filter(q, table), Filter(r, table));
  }

  lemma NearStartWalk(o: Order, side: Side, table: seq<Row>, from: Option<Cursor>, limit: nat)
    requires OwnIds(table) && o.grouped && (from.Some? ==> from.value.sponsorable == side.After?)
    ensures Walk(o, side, table, from, limit) == Slice(o, side, table, from, limit)
  {
    TwoReads(o, side, table, from, limit);
    ReadIsSlice(o, side, table, Some(side.After?), from);
    ReadIsSlice(o, side, table, Some(!side.After?), None);
    NearStartSort(o, side, table, from);
  }

  lemma FarStartWalk(o: Order, side: Side, table: seq<Row>, from: Option<Cursor>, limit: nat)
    requires OwnIds(table) && o.grouped && from.Some? && from.value.sponsorable != side.After?
    ensures Walk(o, side, table, from, limit) == Slice(o, side, table, from, limit)
  {
    ReadIsSlice(o, side, table, Some(!side.After?), from);
    forall x | x in table ensures Chosen(o, side, Some(!side.After?), from)(x) == PastBy(o, side, from)(x) { FarStartStays(o, side, from, x); }
    SameFilter(Chosen(o, side, Some(!side.After?), from), PastBy(o, side, from), table);
  }

  lemma GroupedWalkIsSlice(o: Order, side: Side, table: seq<Row>, from: Option<Cursor>, limit: nat)
    requires OwnIds(table) && o.grouped
    ensures Walk(o, side, table, from, limit) == Slice(o, side, table, from, limit)
  {
    if from.Some? && from.value.sponsorable != side.After? {
      FarStartWalk(o, side, table, from, limit);
    } else {
      NearStartWalk(o, side, table, from, limit);
    }
  }
}
