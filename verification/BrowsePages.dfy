/** Whole pages: what a position shows, going back and forth, and following Next while the table changes. */
module BrowsePages {
  import opened Prelude
  import opened Sorting
  import opened Browse

  datatype Position = Top | Below(after: Cursor) | Above(before: Cursor)

  datatype Page = Page(animals: seq<Row>, next: Option<Cursor>, prev: Option<Cursor>, nextNames: seq<string>)

  function Reverse<T>(s: seq<T>): (r: seq<T>)
    ensures |r| == |s| && forall i :: 0 <= i < |s| ==> r[i] == s[|s| - 1 - i]
  {
    if s == [] then [] else [s[|s| - 1]] + Reverse(s[..|s| - 1])
  }

  function Names(rows: seq<Row>): seq<string> { seq(|rows|, i requires 0 <= i < |rows| => rows[i].name) }

  /** A cursor can be marked for a group the listing no longer has: it then stands for the top. */
  function Asked(o: Order, position: Position): Position {
    match position
    case Top => Top
    case Below(c) => if c.sponsorable && !o.grouped then Top else position
    case Above(c) => if c.sponsorable && !o.grouped then Top else position
  }

  function NamesBeyond(o: Order, side: Side, table: seq<Row>, row: Row, count: nat): seq<string> {
    Names(Walk(o, side, table, Some(KeyOf(o, row)), count))
  }

  function Assemble(o: Order, page: seq<Row>, nextNames: seq<string>, hasPrev: bool): Page {
    Page(page,
         if nextNames != [] && page != [] then Some(KeyOf(o, page[|page| - 1])) else None,
         if hasPrev && page != [] then Some(KeyOf(o, page[0])) else None,
         nextNames)
  }

  /** Walked down: the rows past the page are its teaser, and `above` is what the probe found. */
  function DownPage(o: Order, rows: seq<Row>, above: bool): Page {
    var page := Take(rows, BROWSE_PAGE_SIZE);
    Assemble(o, page, Names(rows[|page|..]), above)
  }

  /** Walked up: flipped into display order; a row past the page means there is a previous one, and `below` is the probed teaser. */
  function UpPage(o: Order, rows: seq<Row>, below: seq<string>): Page {
    Assemble(o, Reverse(Take(rows, BROWSE_PAGE_SIZE)), below, |rows| > BROWSE_PAGE_SIZE)
  }

  /** Below a cursor, or from the top. The first row read is the page's first. */
  function LoadDown(o: Order, table: seq<Row>, from: Option<Cursor>): Page {
    var rows := Walk(o, After, table, from, BROWSE_PAGE_SIZE + NEXT_TEASER_SIZE);
    DownPage(o, rows, from.Some? && rows != [] && NamesBeyond(o, Before, table, rows[0], 1) != [])
  }

  /** Above a cursor. The first row read is the flipped page's last. */
  function LoadUp(o: Order, table: seq<Row>, from: Cursor): Page {
    var rows := Walk(o, Before, table, Some(from), BROWSE_PAGE_SIZE + NEXT_TEASER_SIZE);
    UpPage(o, rows, if rows == [] then [] else NamesBeyond(o, After, table, rows[0], NEXT_TEASER_SIZE))
  }

  /** `loadBrowsePage`: a few more rows than a page, and the side not walked probed. */
  function LoadPage(o: Order, table: seq<Row>, position: Position): Page {
    match Asked(o, position)
    case Top => LoadDown(o, table, None)
    case Below(c) => LoadDown(o, table, Some(c))
    case Above(c) => LoadUp(o, table, c)
  }

  // ---------- pages as windows of the one sorted list ----------

  /** The whole list in display order. */
  function Listing(o: Order, table: seq<Row>): seq<Row> { Sort(Nearest(o, After), table) }

  ghost predicate Climbs(o: Order, rows: seq<Row>) {
    forall i, j :: 0 <= i < j < |rows| ==> KeyLess(o, KeyOf(o, rows[i]), KeyOf(o, rows[j]))
  }

  lemma ListingClimbs(o: Order, table: seq<Row>)
    requires OwnIds(table)
    ensures Climbs(o, Listing(o, table))
    ensures forall r :: r in Listing(o, table) <==> r in table
  {
    var listing := Listing(o, table);
    NearestOrders(o, After, table, table);
    SortSorts(Nearest(o, After), table);
    SortKeepsMembers(Nearest(o, After), table);
    assert Distinct(table);
    forall i, j | 0 <= i < j < |listing| ensures KeyLess(o, KeyOf(o, listing[i]), KeyOf(o, listing[j])) {
      assert Nearest(o, After)(listing[i], listing[j]);
    }
  }

  /** How many rows at the front fail `p`. */
  function Skipped(p: Row -> bool, rows: seq<Row>): (n: nat)
    ensures n <= |rows|
    ensures forall i :: 0 <= i < n ==> !p(rows[i])
    ensures n < |rows| ==> p(rows[n])
  {
    if rows == [] || p(rows[0]) then 0 else
      var n := Skipped(p, rows[1..]);
      assert forall i :: 0 < i < n + 1 ==> rows[i] == rows[1..][i - 1];
      n + 1
  }

  lemma {:induction false} FilterAll<T>(p: T -> bool, rows: seq<T>)
    requires forall r :: r in rows ==> p(r)
    ensures Filter(p, rows) == rows
  {
    if rows != [] {
      assert rows == rows[..|rows| - 1] + [rows[|rows| - 1]];
      FilterAll(p, rows[..|rows| - 1]);
    }
  }

  lemma {:induction false} FilterNo<T>(p: T -> bool, rows: seq<T>)
    requires forall r :: r in rows ==> !p(r)
    ensures Filter(p, rows) == []
  {
    if rows != [] {
      assert rows == rows[..|rows| - 1] + [rows[|rows| - 1]];
      FilterNo(p, rows[..|rows| - 1]);
    }
  }

  lemma FilterSuffix<T>(p: T -> bool, s: seq<T>, i: nat)
    requires i <= |s|
    requires (forall k :: 0 <= k < i ==> !p(s[k])) && (forall k :: i <= k < |s| ==> p(s[k]))
    ensures Filter(p, s) == s[i..]
  {
    assert s == s[..i] + s[i..];
    FilterConcat(p, s[..i], s[i..]);
    FilterNo(p, s[..i]);
    FilterAll(p, s[i..]);
  }

  lemma FilterPrefix<T>(p: T -> bool, s: seq<T>, j: nat)
    requires j <= |s|
    requires (forall k :: 0 <= k < j ==> p(s[k])) && (forall k :: j <= k < |s| ==> !p(s[k]))
    ensures Filter(p, s) == s[..j]
  {
    assert s == s[..j] + s[j..];
    FilterConcat(p, s[..j], s[j..]);
    FilterAll(p, s[..j]);
    FilterNo(p, s[j..]);
  }

  lemma FilterBag(p: Row -> bool, a: seq<Row>, b: seq<Row>)
    requires multiset(a) == multiset(b)
    ensures multiset(Filter(p, a)) == multiset(Filter(p, b))
  {
    forall x ensures multiset(Filter(p, a))[x] == multiset(Filter(p, b))[x] {
      FilterCount(p, a, x);
      FilterCount(p, b, x);
    }
  }

  /** Filtering then sorting a table gives any sorted arrangement of the filtered listing. */
  lemma SortOfFilter(le: (Row, Row) -> bool, p: Row -> bool, table: seq<Row>, listing: seq<Row>, r: seq<Row>)
    requires multiset(listing) == multiset(table) && Orders(le, Filter(p, table))
    requires Sorted(le, r) && multiset(r) == multiset(Filter(p, listing))
    ensures Sort(le, Filter(p, table)) == r
  {
    FilterBag(p, table, listing);
    SortIs(le, Filter(p, table), r);
  }

  lemma ClimbingDown(o: Order, rows: seq<Row>, i: nat)
    requires Climbs(o, rows) && i <= |rows|
    ensures Sorted(Nearest(o, After), rows[i..])
  {
  }

  lemma ClimbingUp(o: Order, rows: seq<Row>, j: nat)
    requires Climbs(o, rows) && j <= |rows|
    ensures Sorted(Nearest(o, Before), Reverse(rows[..j]))
  {
  }

  predicate FitsOrder(o: Order, c: Cursor) { o.grouped || !c.sponsorable }

  /** The listing from `i` down is what lies below a cursor, when `i` is its first row below. */
  ghost predicate CutsBelow(o: Order, table: seq<Row>, from: Option<Cursor>, i: nat) {
    var listing := Listing(o, table);
    && i <= |listing|
    && (forall k :: 0 <= k < i ==> !Past(o, After, listing[k], from))
    && (forall k :: i <= k < |listing| ==> Past(o, After, listing[k], from))
  }

  ghost predicate CutsAbove(o: Order, table: seq<Row>, from: Cursor, j: nat) {
    var listing := Listing(o, table);
    && j <= |listing|
    && (forall k :: 0 <= k < j ==> Past(o, Before, listing[k], Some(from)))
    && (forall k :: j <= k < |listing| ==> !Past(o, Before, listing[k], Some(from)))
  }

  lemma BelowExists(o: Order, table: seq<Row>, from: Option<Cursor>) returns (i: nat)
    requires OwnIds(table)
    ensures CutsBelow(o, table, from, i)
  {
    ListingClimbs(o, table);
    i := Skipped(PastBy(o, After, from), Listing(o, table));
  }

  function NotPastBy(o: Order, side: Side, from: Option<Cursor>): Row -> bool { (row: Row) => !Past(o, side, row, from) }

  lemma AboveExists(o: Order, table: seq<Row>, from: Cursor) returns (j: nat)
    requires OwnIds(table)
    ensures CutsAbove(o, table, from, j)
  {
    ListingClimbs(o, table);
    j := Skipped(NotPastBy(o, Before, Some(from)), Listing(o, table));
  }

  /** Walking down from a cut shows the listing from there. */
  lemma WalkBelow(o: Order, table: seq<Row>, from: Option<Cursor>, i: nat, limit: nat)
    requires OwnIds(table) && CutsBelow(o, table, from, i) && (from.Some? ==> FitsOrder(o, from.value))
    ensures Walk(o, After, table, from, limit) == Take(Listing(o, table)[i..], limit)
  {
    var listing, p := Listing(o, table), PastBy(o, After, from);
    WalkIsSlice(o, After, table, from, limit);
    FilterSuffix(p, listing, i);
    NearestOrders(o, After, table, Filter(p, table));
    ListingClimbs(o, table);
    ClimbingDown(o, listing, i);
    SortOfFilter(Nearest(o, After), p, table, listing, listing[i..]);
  }

  lemma {:induction false} ReverseBag<T>(s: seq<T>)
    ensures multiset(Reverse(s)) == multiset(s)
  {
    if s != [] { assert s == s[..|s| - 1] + [s[|s| - 1]]; ReverseBag(s[..|s| - 1]); }
  }

  /** Walking up from a cut shows the listing above it, nearest first. */
  lemma WalkAbove(o: Order, table: seq<Row>, from: Cursor, j: nat, limit: nat)
    requires OwnIds(table) && CutsAbove(o, table, from, j) && FitsOrder(o, from)
    ensures Walk(o, Before, table, Some(from), limit) == Take(Reverse(Listing(o, table)[..j]), limit)
  {
    var listing, p := Listing(o, table), PastBy(o, Before, Some(from));
    WalkIsSlice(o, Before, table, Some(from), limit);
    FilterPrefix(p, listing, j);
    NearestOrders(o, Before, table, Filter(p, table));
    ListingClimbs(o, table);
    ClimbingUp(o, listing, j);
    ReverseBag(listing[..j]);
    SortOfFilter(Nearest(o, Before), p, table, listing, Reverse(listing[..j]));
  }

  /** A row's own key cuts the listing just above and just below it. */
  lemma OwnKeyCuts(o: Order, table: seq<Row>, i: nat)
    requires OwnIds(table) && i < |Listing(o, table)|
    ensures CutsAbove(o, table, KeyOf(o, Listing(o, table)[i]), i)
    ensures CutsBelow(o, table, Some(KeyOf(o, Listing(o, table)[i])), i + 1)
  {
    ListingClimbs(o, table);
  }

  function Min(a: int, b: int): int { if a < b then a else b }

  /** The page shown from row `i` of the listing down. */
  function Window(o: Order, listing: seq<Row>, i: nat, size: nat, fromTop: bool): Page
    requires i + size <= |listing|
  {
    var end := i + size;
    Assemble(o, listing[i..end], if size > 0 then Names(Teaser(listing, end)) else [], i > 0 && !fromTop)
  }

  function Teaser(listing: seq<Row>, end: nat): seq<Row>
    requires end <= |listing|
  {
    listing[end..Min(end + NEXT_TEASER_SIZE, |listing|)]
  }

  lemma DownWindow(o: Order, listing: seq<Row>, i: nat, above: bool)
    requires i <= |listing|
    ensures
      var rows := Take(listing[i..], BROWSE_PAGE_SIZE + NEXT_TEASER_SIZE);
      var size := Min(BROWSE_PAGE_SIZE, |listing| - i);
      && DownPage(o, rows, above) == Assemble(o, listing[i..i + size], if size > 0 then Names(Teaser(listing, i + size)) else [], above)
      && (if i < |listing| then rows != [] && rows[0] == listing[i] else rows == [])
  {
    var rows := Take(listing[i..], BROWSE_PAGE_SIZE + NEXT_TEASER_SIZE);
    var size := Min(BROWSE_PAGE_SIZE, |listing| - i);
    assert Take(rows, BROWSE_PAGE_SIZE) == listing[i..i + size];
    assert rows[size..] == Teaser(listing, i + size);
  }

  lemma UpWindow(o: Order, listing: seq<Row>, j: nat, below: seq<string>)
    requires j <= |listing|
    ensures
      var rows := Take(Reverse(listing[..j]), BROWSE_PAGE_SIZE + NEXT_TEASER_SIZE);
      var size := Min(BROWSE_PAGE_SIZE, j);
      && UpPage(o, rows, below) == Assemble(o, listing[j - size..j], below, j - size > 0)
      && (if j > 0 then rows != [] && rows[0] == listing[j - 1] else rows == [])
  {
    var rows := Take(Reverse(listing[..j]), BROWSE_PAGE_SIZE + NEXT_TEASER_SIZE);
    var size := Min(BROWSE_PAGE_SIZE, j);
    assert Reverse(Take(rows, BROWSE_PAGE_SIZE)) == listing[j - size..j];
  }

  /** The probe above a page finds a row exactly when the page is not at the top of the listing. */
  lemma ProbeAbove(o: Order, table: seq<Row>, i: nat)
    requires OwnIds(table) && i < |Listing(o, table)|
    ensures NamesBeyond(o, Before, table, Listing(o, table)[i], 1) != [] <==> i > 0
  {
    OwnKeyCuts(o, table, i);
    WalkAbove(o, table, KeyOf(o, Listing(o, table)[i]), i, 1);
  }

  lemma TakeTeaser(listing: seq<Row>, i: nat)
    requires i <= |listing|
    ensures Take(listing[i..], NEXT_TEASER_SIZE) == Teaser(listing, i)
  {
  }

  /** The probe below a page reads the teaser. */
  lemma ProbeBelow(o: Order, table: seq<Row>, i: nat)
    requires OwnIds(table) && i < |Listing(o, table)|
    ensures NamesBeyond(o, After, table, Listing(o, table)[i], NEXT_TEASER_SIZE) == Names(Teaser(Listing(o, table), i + 1))
  {
    OwnKeyCuts(o, table, i);
    WalkBelow(o, table, Some(KeyOf(o, Listing(o, table)[i])), i + 1, NEXT_TEASER_SIZE);
    TakeTeaser(Listing(o, table), i + 1);
  }

  lemma PageBelow(o: Order, table: seq<Row>, from: Option<Cursor>, i: nat)
    requires OwnIds(table) && CutsBelow(o, table, from, i) && (from.Some? ==> FitsOrder(o, from.value))
    ensures
      var listing := Listing(o, table);
      LoadDown(o, table, from) == Window(o, listing, i, Min(BROWSE_PAGE_SIZE, |listing| - i), from.None?)
  {
    var listing := Listing(o, table);
    WalkBelow(o, table, from, i, BROWSE_PAGE_SIZE + NEXT_TEASER_SIZE);
    var rows := Take(listing[i..], BROWSE_PAGE_SIZE + NEXT_TEASER_SIZE);
    var above := from.Some? && rows != [] && NamesBeyond(o, Before, table, rows[0], 1) != [];
    assert LoadDown(o, table, from) == DownPage(o, rows, above);
    DownIsWindow(o, table, from.None?, i, above);
  }

  /** The rows below a cut, made a page, are a window of the listing once the probe is known. */
  lemma DownAssembled(o: Order, listing: seq<Row>, fromTop: bool, i: nat, above: bool)
    requires i <= |listing| && (i < |listing| ==> above == (i > 0 && !fromTop))
    ensures
      DownPage(o, Take(listing[i..], BROWSE_PAGE_SIZE + NEXT_TEASER_SIZE), above) ==
      Window(o, listing, i, Min(BROWSE_PAGE_SIZE, |listing| - i), fromTop)
  {
    DownWindow(o, listing, i, above);
  }

  lemma DownIsWindow(o: Order, table: seq<Row>, fromTop: bool, i: nat, above: bool)
    requires OwnIds(table) && i <= |Listing(o, table)|
    requires
      var rows := Take(Listing(o, table)[i..], BROWSE_PAGE_SIZE + NEXT_TEASER_SIZE);
      above == (!fromTop && rows != [] && NamesBeyond(o, Before, table, rows[0], 1) != [])
    ensures
      var listing := Listing(o, table);
      DownPage(o, Take(listing[i..], BROWSE_PAGE_SIZE + NEXT_TEASER_SIZE), above) ==
      Window(o, listing, i, Min(BROWSE_PAGE_SIZE, |listing| - i), fromTop)
  {
    var listing := Listing(o, table);
    if i < |listing| {
      ProbeAbove(o, table, i);
      assert Take(listing[i..], BROWSE_PAGE_SIZE + NEXT_TEASER_SIZE)[0] == listing[i];
    }
    DownAssembled(o, listing, fromTop, i, above);
  }

  lemma UpIsWindow(o: Order, table: seq<Row>, j: nat)
    requires OwnIds(table) && j <= |Listing(o, table)|
    ensures
      var listing, size := Listing(o, table), Min(BROWSE_PAGE_SIZE, j);
      var rows := Take(Reverse(listing[..j]), BROWSE_PAGE_SIZE + NEXT_TEASER_SIZE);
      UpPage(o, rows, if rows == [] then [] else NamesBeyond(o, After, table, rows[0], NEXT_TEASER_SIZE))
      == Window(o, listing, j - size, size, false)
  {
    UpWindow(o, Listing(o, table), j, if j == 0 then [] else Names(Teaser(Listing(o, table), j)));
    if j > 0 { ProbeBelow(o, table, j - 1); }
  }

  lemma PageAbove(o: Order, table: seq<Row>, from: Cursor, j: nat)
    requires OwnIds(table) && CutsAbove(o, table, from, j) && FitsOrder(o, from)
    ensures
      var size := Min(BROWSE_PAGE_SIZE, j);
      LoadUp(o, table, from) == Window(o, Listing(o, table), j - size, size, false)
  {
    WalkAbove(o, table, from, j, BROWSE_PAGE_SIZE + NEXT_TEASER_SIZE);
    UpIsWindow(o, table, j);
  }

  /** A page with more below it is a window ending at `end`. */
  ghost predicate EndsAt(o: Order, table: seq<Row>, page: Page, end: nat) {
    var listing, size := Listing(o, table), Min(BROWSE_PAGE_SIZE, end);
    0 < end < |listing| && page == Window(o, listing, end - size, size, false)
  }

  lemma DownEnds(o: Order, table: seq<Row>, from: Option<Cursor>) returns (end: nat)
    requires OwnIds(table) && LoadDown(o, table, from).next.Some? && (from.Some? ==> FitsOrder(o, from.value))
    ensures EndsAt(o, table, LoadDown(o, table, from), end)
  {
    var i := BelowExists(o, table, from);
    PageBelow(o, table, from, i);
    end := i + BROWSE_PAGE_SIZE;
    if from.None? && i > 0 { assert Past(o, After, Listing(o, table)[0], None); }
  }

  lemma UpEnds(o: Order, table: seq<Row>, from: Cursor) returns (end: nat)
    requires OwnIds(table) && LoadUp(o, table, from).next.Some? && FitsOrder(o, from)
    ensures EndsAt(o, table, LoadUp(o, table, from), end)
  {
    end := AboveExists(o, table, from);
    PageAbove(o, table, from, end);
  }

  lemma PageEnds(o: Order, table: seq<Row>, position: Position) returns (end: nat)
    requires OwnIds(table) && LoadPage(o, table, position).next.Some?
    ensures EndsAt(o, table, LoadPage(o, table, position), end)
  {
    match Asked(o, position)
    case Above(c) => end := UpEnds(o, table, c);
    case Below(c) => end := DownEnds(o, table, Some(c));
    case Top => end := DownEnds(o, table, None);
  }

  /** Next names a page's last row, Previous the first row of the page after it. */
  lemma WindowTurns(o: Order, listing: seq<Row>, end: nat)
    requires 0 < end < |listing|
    ensures
      var size, after := Min(BROWSE_PAGE_SIZE, end), Min(BROWSE_PAGE_SIZE, |listing| - end);
      Window(o, listing, end - size, size, false).next == Some(KeyOf(o, listing[end - 1])) &&
      Window(o, listing, end, after, false).prev == Some(KeyOf(o, listing[end]))
  {
    assert |Names(Teaser(listing, end))| > 0;
  }

  lemma NextIsBelow(o: Order, table: seq<Row>, end: nat)
    requires OwnIds(table) && 0 < end < |Listing(o, table)|
    ensures
      var listing := Listing(o, table);
      LoadPage(o, table, Below(KeyOf(o, listing[end - 1]))) == Window(o, listing, end, Min(BROWSE_PAGE_SIZE, |listing| - end), false)
  {
    OwnKeyCuts(o, table, end - 1);
    PageBelow(o, table, Some(KeyOf(o, Listing(o, table)[end - 1])), end);
  }

  lemma PreviousIsAbove(o: Order, table: seq<Row>, end: nat)
    requires OwnIds(table) && end < |Listing(o, table)|
    ensures
      var listing, size := Listing(o, table), Min(BROWSE_PAGE_SIZE, end);
      LoadPage(o, table, Above(KeyOf(o, listing[end]))) == Window(o, listing, end - size, size, false)
  {
    OwnKeyCuts(o, table, end);
    PageAbove(o, table, KeyOf(o, Listing(o, table)[end]), end);
  }

  lemma TurnRight(o: Order, table: seq<Row>, left: Page, end: nat)
    requires OwnIds(table) && EndsAt(o, table, left, end)
    ensures left.next == Some(KeyOf(o, Listing(o, table)[end - 1]))
    ensures
      var listing := Listing(o, table);
      LoadPage(o, table, Below(left.next.value)) == Window(o, listing, end, Min(BROWSE_PAGE_SIZE, |listing| - end), false)
  {
    WindowTurns(o, Listing(o, table), end);
    NextIsBelow(o, table, end);
  }

  lemma TurnLeft(o: Order, table: seq<Row>, right: Page, left: Page, end: nat)
    requires OwnIds(table) && EndsAt(o, table, left, end)
    requires right == Window(o, Listing(o, table), end, Min(BROWSE_PAGE_SIZE, |Listing(o, table)| - end), false)
    ensures right.prev.Some? && LoadPage(o, table, Above(right.prev.value)) == left
  {
    WindowTurns(o, Listing(o, table), end);
    PreviousIsAbove(o, table, end);
  }

  lemma TurnBack(o: Order, table: seq<Row>, left: Page, end: nat)
    requires OwnIds(table) && EndsAt(o, table, left, end)
    ensures
      && left.next.Some?
      && var right := LoadPage(o, table, Below(left.next.value));
      right.prev.Some? && LoadPage(o, table, Above(right.prev.value)) == left
  {
    TurnRight(o, table, left, end);
    TurnLeft(o, table, LoadPage(o, table, Below(left.next.value)), left, end);
  }

  /** On a table that stands still, Next and then Previous gives back the page you left, cursors and teaser included. */
  lemma PreviousUndoesNext(o: Order, table: seq<Row>, position: Position)
    requires OwnIds(table) && LoadPage(o, table, position).next.Some?
    ensures
      var left := LoadPage(o, table, position);
      var right := LoadPage(o, table, Below(left.next.value));
      right.prev.Some? && LoadPage(o, table, Above(right.prev.value)) == left
  {
    var end := PageEnds(o, table, position);
    TurnBack(o, table, LoadPage(o, table, position), end);
  }

  // ---------- following Next while the table changes ----------

  /** The rows shown by following Next from below `from`, one load per table. */
  function Shown(o: Order, tables: seq<seq<Row>>, from: Option<Cursor>): seq<Row>
    decreases |tables|
  {
    if tables == [] then [] else
      var page := LoadDown(o, tables[0], from);
      page.animals + (if page.next.None? then [] else Shown(o, tables[1..], page.next))
  }

  /** The last of these loads is the one that has no Next. */
  predicate Finishes(o: Order, tables: seq<seq<Row>>, from: Option<Cursor>)
    decreases |tables|
  {
    && tables != []
    && var page := LoadDown(o, tables[0], from);
    if page.next.None? then |tables| == 1 else Finishes(o, tables[1..], page.next)
  }

  ghost predicate Holds(o: Order, rows: seq<Row>, key: Cursor) { exists r :: r in rows && KeyOf(o, r) == key }

  predicate PastKey(o: Order, key: Cursor, from: Option<Cursor>) { from.None? || KeyLess(o, from.value, key) }

  /** A page climbs, starts past its cursor, and leaves out nothing before the next one. */
  ghost predicate Covers(o: Order, table: seq<Row>, from: Option<Cursor>, page: Page) {
    && Climbs(o, page.animals)
    && (forall r :: r in page.animals ==> r in table && PastKey(o, KeyOf(o, r), from))
    && (page.next.Some? ==> page.animals != [] && page.next.value == KeyOf(o, page.animals[|page.animals| - 1]))
    && (forall r :: r in table && PastKey(o, KeyOf(o, r), from) ==>
          r in page.animals || (page.next.Some? && PastKey(o, KeyOf(o, r), page.next)))
  }

  lemma PageCovers(o: Order, table: seq<Row>, from: Option<Cursor>)
    requires OwnIds(table) && (from.Some? ==> FitsOrder(o, from.value))
    ensures Covers(o, table, from, LoadDown(o, table, from))
  {
    var listing := Listing(o, table);
    var i := BelowExists(o, table, from);
    PageBelow(o, table, from, i);
    ListingClimbs(o, table);
    CutsByKey(o, table, from, i);
    WindowCovers(o, listing, from, i);
    ListedCovers(o, table, listing, from, LoadDown(o, table, from));
  }

  lemma CutsByKey(o: Order, table: seq<Row>, from: Option<Cursor>, i: nat)
    requires CutsBelow(o, table, from, i)
    ensures CutAt(o, Listing(o, table), from, i)
  {
  }

  lemma ListedCovers(o: Order, table: seq<Row>, listing: seq<Row>, from: Option<Cursor>, page: Page)
    requires Covers(o, listing, from, page) && forall r :: r in listing <==> r in table
    ensures Covers(o, table, from, page)
  {
  }

  ghost predicate CutAt(o: Order, listing: seq<Row>, from: Option<Cursor>, i: nat) {
    && i <= |listing|
    && (forall k :: 0 <= k < i ==> !PastKey(o, KeyOf(o, listing[k]), from))
    && (forall k :: i <= k < |listing| ==> PastKey(o, KeyOf(o, listing[k]), from))
  }

  lemma PartClimbs(o: Order, listing: seq<Row>, i: nat, end: nat)
    requires Climbs(o, listing) && i <= end <= |listing|
    ensures Climbs(o, listing[i..end])
  {
  }

  /** A row past the cursor is in the window, or past its last row. */
  lemma InOrAfter(o: Order, listing: seq<Row>, from: Option<Cursor>, i: nat, end: nat, r: Row)
    requires Climbs(o, listing) && CutAt(o, listing, from, i) && i <= end <= |listing|
    requires r in listing && PastKey(o, KeyOf(o, r), from)
    ensures r in listing[i..end] || (end < |listing| && (i < end ==> KeyLess(o, KeyOf(o, listing[end - 1]), KeyOf(o, r))))
  {
    var k :| 0 <= k < |listing| && listing[k] == r;
    if k < end { assert k >= i && listing[i..end][k - i] == r; }
  }

  /** The rows of a window from the cut on are past the cursor. */
  lemma WindowPast(o: Order, listing: seq<Row>, from: Option<Cursor>, i: nat, end: nat, r: Row)
    requires CutAt(o, listing, from, i) && i <= end <= |listing| && r in listing[i..end]
    ensures r in listing && PastKey(o, KeyOf(o, r), from)
  {
    var k :| 0 <= k < end - i && listing[i..end][k] == r;
    assert listing[i + k] == r;
  }

  /** And what is past the cursor is among them, or past the last of them. */
  lemma WindowReaches(o: Order, listing: seq<Row>, from: Option<Cursor>, i: nat, size: nat, r: Row)
    requires Climbs(o, listing) && CutAt(o, listing, from, i) && size == Min(BROWSE_PAGE_SIZE, |listing| - i)
    requires r in listing && PastKey(o, KeyOf(o, r), from)
    ensures
      r in listing[i..i + size] ||
      (size > 0 && i + size < |listing| && PastKey(o, KeyOf(o, r), Some(KeyOf(o, listing[i + size - 1]))))
  {
    InOrAfter(o, listing, from, i, i + size, r);
  }

  lemma PartCovers(o: Order, listing: seq<Row>, from: Option<Cursor>, i: nat, page: Page)
    requires Climbs(o, listing) && CutAt(o, listing, from, i)
    requires
      var size := Min(BROWSE_PAGE_SIZE, |listing| - i);
      && page.animals == listing[i..i + size]
      && page.next == if size > 0 && i + size < |listing| then Some(KeyOf(o, listing[i + size - 1])) else None
    ensures Covers(o, listing, from, page)
  {
    var size := Min(BROWSE_PAGE_SIZE, |listing| - i);
    PartClimbs(o, listing, i, i + size);
    forall r | r in page.animals ensures r in listing && PastKey(o, KeyOf(o, r), from) {
      WindowPast(o, listing, from, i, i + size, r);
    }
    forall r | r in listing && PastKey(o, KeyOf(o, r), from)
      ensures r in page.animals || (page.next.Some? && PastKey(o, KeyOf(o, r), page.next))
    {
      WindowReaches(o, listing, from, i, size, r);
    }
  }

  lemma WindowCovers(o: Order, listing: seq<Row>, from: Option<Cursor>, i: nat)
    requires Climbs(o, listing) && CutAt(o, listing, from, i)
    ensures Covers(o, listing, from, Window(o, listing, i, Min(BROWSE_PAGE_SIZE, |listing| - i), from.None?))
  {
    var size := Min(BROWSE_PAGE_SIZE, |listing| - i);
    WindowNext(o, listing, i, size, from.None?);
    PartCovers(o, listing, from, i, Window(o, listing, i, size, from.None?));
  }

  lemma WindowNext(o: Order, listing: seq<Row>, i: nat, size: nat, fromTop: bool)
    requires i + size <= |listing|
    ensures
      var page := Window(o, listing, i, size, fromTop);
      page.animals == listing[i..i + size] &&
      page.next == if size > 0 && i + size < |listing| then Some(KeyOf(o, listing[i + size - 1])) else None
  {
    assert i + size < |listing| ==> |Names(Teaser(listing, i + size))| > 0;
  }

  lemma KeyChain(o: Order, a: Option<Cursor>, b: Cursor, c: Cursor)
    requires PastKey(o, b, a) && KeyLess(o, b, c)
    ensures PastKey(o, c, a)
  {
  }

  lemma ClimbsOn(o: Order, page: seq<Row>, rest: seq<Row>)
    requires Climbs(o, page) && Climbs(o, rest) && page != []
    requires forall r :: r in rest ==> KeyLess(o, KeyOf(o, page[|page| - 1]), KeyOf(o, r))
    ensures Climbs(o, page + rest)
  {
    var all := page + rest;
    forall i, j | 0 <= i < j < |all| ensures KeyLess(o, KeyOf(o, all[i]), KeyOf(o, all[j])) {
      if i < |page| <= j {
        assert all[j] in rest;
        assert i == |page| - 1 || KeyLess(o, KeyOf(o, page[i]), KeyOf(o, page[|page| - 1]));
      }
    }
  }

  lemma {:induction false} ShownClimbs(o: Order, tables: seq<seq<Row>>, from: Option<Cursor>)
    requires (forall t :: t in tables ==> OwnIds(t)) && (from.Some? ==> FitsOrder(o, from.value))
    ensures Climbs(o, Shown(o, tables, from))
    ensures forall r :: r in Shown(o, tables, from) ==> PastKey(o, KeyOf(o, r), from)
    decreases |tables|
  {
    if tables != [] {
      var page := LoadDown(o, tables[0], from);
      PageCovers(o, tables[0], from);
      if page.next.Some? {
        var rest := Shown(o, tables[1..], page.next);
        ShownClimbs(o, tables[1..], page.next);
        ClimbsOn(o, page.animals, rest);
        forall r | r in rest ensures PastKey(o, KeyOf(o, r), from) {
          KeyChain(o, from, page.next.value, KeyOf(o, r));
        }
      }
    }
  }

  lemma {:induction false} ShownHolds(o: Order, tables: seq<seq<Row>>, from: Option<Cursor>, key: Cursor)
    requires (forall t :: t in tables ==> OwnIds(t) && Holds(o, t, key)) && (from.Some? ==> FitsOrder(o, from.value))
    requires Finishes(o, tables, from) && PastKey(o, key, from)
    ensures Holds(o, Shown(o, tables, from), key)
    decreases |tables|
  {
    var page := LoadDown(o, tables[0], from);
    PageCovers(o, tables[0], from);
    assert tables[0] in tables;
    var row :| row in tables[0] && KeyOf(o, row) == key;
    if row in page.animals {
      assert row in Shown(o, tables, from);
    } else {
      ShownHolds(o, tables[1..], page.next, key);
      var later :| later in Shown(o, tables[1..], page.next) && KeyOf(o, later) == key;
      assert later in Shown(o, tables, from);
    }
  }

  ghost predicate Only(o: Order, rows: seq<Row>, key: Cursor, k: nat) {
    k < |rows| && forall j :: 0 <= j < |rows| ==> (KeyOf(o, rows[j]) == key <==> j == k)
  }

  ghost predicate Once(o: Order, rows: seq<Row>, key: Cursor) { exists k: nat :: Only(o, rows, key, k) }

  lemma ClimbsOnce(o: Order, rows: seq<Row>, key: Cursor)
    requires Climbs(o, rows) && Holds(o, rows, key)
    ensures Once(o, rows, key)
  {
    var row :| row in rows && KeyOf(o, row) == key;
    var k :| 0 <= k < |rows| && rows[k] == row;
    assert Only(o, rows, key, k);
  }

  /**
   Following Next from page one to the last page, the table changing between loads as it likes: what is shown climbs in
   display order, and a row present at every load, its sort key unchanged, is shown exactly once.
   */
  lemma FollowingNextShowsOnce(o: Order, tables: seq<seq<Row>>, key: Cursor)
    requires forall t :: t in tables ==> OwnIds(t)
    requires Finishes(o, tables, None)
    ensures Climbs(o, Shown(o, tables, None))
    ensures (forall t :: t in tables ==> Holds(o, t, key)) ==>
      Once(o, Shown(o, tables, None), key)
  {
    ShownClimbs(o, tables, None);
    if forall t :: t in tables ==> Holds(o, t, key) {
      ShownHolds(o, tables, None, key);
      ClimbsOnce(o, Shown(o, tables, None), key);
    }
  }
}
