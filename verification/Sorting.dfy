/** `Array.prototype.sort` and SQL's `order by`: a stable insertion sort, and why its answer is unique. */
module Sorting {
  import opened Prelude

  /** `le` puts the values of `s` in one line: total, transitive, and no two distinct values tie. */
  ghost predicate Orders<T(!new)>(le: (T, T) -> bool, s: seq<T>) {
    && Ranks(le, s)
    && (forall x, y :: x in s && y in s && le(x, y) && le(y, x) ==> x == y)
  }

  /** Total and transitive on the values of `s`, ties allowed. */
  ghost predicate Ranks<T(!new)>(le: (T, T) -> bool, s: seq<T>) {
    && (forall x, y :: x in s && y in s ==> le(x, y) || le(y, x))
    && (forall x, y, z :: x in s && y in s && z in s && le(x, y) && le(y, z) ==> le(x, z))
  }

  ghost predicate Sorted<T>(le: (T, T) -> bool, s: seq<T>) {
    forall i, j :: 0 <= i < j < |s| ==> le(s[i], s[j])
  }

  function Insert<T>(le: (T, T) -> bool, x: T, s: seq<T>): (r: seq<T>)
    ensures multiset(r) == multiset(s) + multiset{x}
    ensures |r| == |s| + 1
  {
    if s == [] || le(x, s[0]) then [x] + s
    else
      assert s == [s[0]] + s[1..];
      [s[0]] + Insert(le, x, s[1..])
  }

  function Sort<T>(le: (T, T) -> bool, s: seq<T>): (r: seq<T>)
    ensures multiset(r) == multiset(s)
    ensures |r| == |s|
  {
    if s == [] then []
    else
      assert s == [s[0]] + s[1..];
      Insert(le, s[0], Sort(le, s[1..]))
  }

  lemma SameMembers<T>(a: seq<T>, b: seq<T>)
    requires multiset(a) == multiset(b)
    ensures forall x :: x in a <==> x in b
  {
    forall x ensures x in a <==> x in b {
      assert x in a <==> x in multiset(a);
      assert x in b <==> x in multiset(b);
    }
  }

  lemma {:induction false} InsertSorts<T(!new)>(le: (T, T) -> bool, x: T, s: seq<T>)
    requires Sorted(le, s) && Ranks(le, s + [x])
    ensures Sorted(le, Insert(le, x, s))
  {
    if s == [] || le(x, s[0]) {
      var r := [x] + s;
      assert x in s + [x] && forall y :: y in s ==> y in s + [x];
      forall i, j | 0 <= i < j < |r| ensures le(r[i], r[j]) {
        if i == 0 && j > 1 {
          assert le(x, s[0]) && le(s[0], s[j - 1]);
        }
      }
    } else {
      var rest := Insert(le, x, s[1..]);
      assert forall y :: y in s[1..] + [x] ==> y in s + [x];
      InsertSorts(le, x, s[1..]);
      var r := [s[0]] + rest;
      forall j | 0 <= j < |rest| ensures le(s[0], rest[j]) {
        assert rest[j] in multiset(rest);
        assert rest[j] in s[1..] || rest[j] == x;
        assert s[0] in s + [x] && x in s + [x];
      }
    }
  }

  /** The sort's answer is in order, ties or not. */
  lemma {:induction false} SortSorts<T(!new)>(le: (T, T) -> bool, s: seq<T>)
    requires Ranks(le, s)
    ensures Sorted(le, Sort(le, s))
  {
    if s != [] {
      SortSorts(le, s[1..]);
      var rest := Sort(le, s[1..]);
      SameMembers(rest, s[1..]);
      assert forall y :: y in rest + [s[0]] ==> y in s;
      InsertSorts(le, s[0], rest);
    }
  }

  lemma LeastFirst<T(!new)>(le: (T, T) -> bool, s: seq<T>, x: T)
    requires Sorted(le, s) && Ranks(le, s) && x in s
    ensures le(s[0], x)
  {
    var i :| 0 <= i < |s| && s[i] == x;
    if i == 0 { assert s[0] in s; }
  }

  lemma TailOrders<T(!new)>(le: (T, T) -> bool, s: seq<T>)
    requires s != [] && Orders(le, s) && Sorted(le, s)
    ensures Orders(le, s[1..]) && Sorted(le, s[1..])
  {
    var t := s[1..];
    assert forall x :: x in t ==> x in s;
  }

  lemma TailBag<T>(s: seq<T>)
    requires s != []
    ensures multiset(s[1..]) == multiset(s) - multiset{s[0]}
  {
    assert s == [s[0]] + s[1..];
  }

  lemma SameHead<T(!new)>(le: (T, T) -> bool, a: seq<T>, b: seq<T>)
    requires multiset(a) == multiset(b) && Sorted(le, a) && Sorted(le, b) && Orders(le, a) && a != [] && b != []
    ensures a[0] == b[0] && Orders(le, b)
  {
    SameMembers(a, b);
    assert a[0] in b && b[0] in a;
    LeastFirst(le, a, b[0]);
    LeastFirst(le, b, a[0]);
  }

  lemma SameSize<T>(a: seq<T>, b: seq<T>)
    requires multiset(a) == multiset(b)
    ensures |a| == |b|
  {
    assert |multiset(a)| == |a| && |multiset(b)| == |b|;
  }

  lemma SameTails<T(!new)>(le: (T, T) -> bool, a: seq<T>, b: seq<T>)
    requires multiset(a) == multiset(b) && Sorted(le, a) && Sorted(le, b) && Orders(le, a) && a != [] && b != []
    ensures a[0] == b[0] && multiset(a[1..]) == multiset(b[1..])
    ensures Sorted(le, a[1..]) && Sorted(le, b[1..]) && Orders(le, a[1..])
  {
    SameHead(le, a, b);
    TailBag(a);
    TailBag(b);
    TailOrders(le, a);
    TailOrders(le, b);
  }

  lemma HeadAndTail<T>(a: seq<T>, b: seq<T>)
    requires a != [] && b != [] && a[0] == b[0] && a[1..] == b[1..]
    ensures a == b
  {
    assert a == [a[0]] + a[1..] && b == [b[0]] + b[1..];
  }

  /** Two sorted arrangements of the same elements are the same list, when no two distinct elements tie. */
  lemma {:induction false} SortedUnique<T(!new)>(le: (T, T) -> bool, a: seq<T>, b: seq<T>)
    requires multiset(a) == multiset(b) && Sorted(le, a) && Sorted(le, b) && Orders(le, a)
    ensures a == b
  {
    SameSize(a, b);
    if a != [] {
      SameTails(le, a, b);
      SortedUnique(le, a[1..], b[1..]);
      HeadAndTail(a, b);
    }
  }

  /** A sorted arrangement of `s` is what sorting `s` gives. */
  lemma SortIs<T(!new)>(le: (T, T) -> bool, s: seq<T>, r: seq<T>)
    requires multiset(r) == multiset(s) && Orders(le, s) && Sorted(le, r)
    ensures Sort(le, s) == r
  {
    SortSorts(le, s);
    SameMembers(Sort(le, s), s);
    SortedUnique(le, Sort(le, s), r);
  }

  lemma SortKeepsMembers<T>(le: (T, T) -> bool, s: seq<T>)
    ensures forall x :: x in Sort(le, s) <==> x in s
    ensures Distinct(s) ==> Distinct(Sort(le, s))
  {
    SameMembers(Sort(le, s), s);
    if Distinct(s) {
      forall x ensures multiset(Sort(le, s))[x] <= 1 { DistinctIsOnceEach(s, x); }
      OnceEachIsDistinct(Sort(le, s));
    }
  }

  // ---------- ties ----------

  ghost predicate Total<T(!new)>(le: (T, T) -> bool) { forall x, y :: le(x, y) || le(y, x) }

  /** Each element is not after its neighbour: all a sort can promise of an order that need not be transitive. */
  ghost predicate Chain<T>(le: (T, T) -> bool, s: seq<T>) {
    forall i :: 0 <= i < |s| - 1 ==> le(s[i], s[i + 1])
  }

  lemma TailChains<T>(le: (T, T) -> bool, s: seq<T>)
    requires s != [] && Chain(le, s)
    ensures Chain(le, s[1..])
  {
    forall i | 0 <= i < |s[1..]| - 1 ensures le(s[1..][i], s[1..][i + 1]) { assert le(s[i + 1], s[i + 1 + 1]); }
  }

  lemma {:induction false} InsertChains<T(!new)>(le: (T, T) -> bool, x: T, s: seq<T>)
    requires Total(le) && Chain(le, s)
    ensures Chain(le, Insert(le, x, s)) && (Insert(le, x, s)[0] == x || (s != [] && Insert(le, x, s)[0] == s[0]))
  {
    if s != [] && !le(x, s[0]) {
      var rest := Insert(le, x, s[1..]);
      TailChains(le, s);
      InsertChains(le, x, s[1..]);
      assert rest[0] == x || rest[0] == s[1];
    }
  }

  lemma {:induction false} SortChains<T(!new)>(le: (T, T) -> bool, s: seq<T>)
    requires Total(le)
    ensures Chain(le, Sort(le, s))
  {
    if s != [] {
      SortChains(le, s[1..]);
      InsertChains(le, s[0], Sort(le, s[1..]));
    }
  }

  /** A list with no neighbours out of order is sorted already. */
  lemma {:induction false} SortOfChain<T>(le: (T, T) -> bool, s: seq<T>)
    requires Chain(le, s)
    ensures Sort(le, s) == s
  {
    if s != [] {
      var rest := s[1..];
      TailChains(le, s);
      SortOfChain(le, rest);
      assert rest != [] ==> rest[0] == s[1] && le(s[0], s[1]);
      assert s == [s[0]] + rest;
    }
  }

  /** Inserted from the other end: as late as it may stand. */
  function InsertLate<T>(le: (T, T) -> bool, x: T, s: seq<T>): (r: seq<T>)
    ensures multiset(r) == multiset(s) + multiset{x}
  {
    if s == [] || le(s[|s| - 1], x) then s + [x]
    else
      assert s == s[..|s| - 1] + [s[|s| - 1]];
      InsertLate(le, x, s[..|s| - 1]) + [s[|s| - 1]]
  }

  lemma {:induction false} InsertLateChains<T(!new)>(le: (T, T) -> bool, x: T, s: seq<T>)
    requires Total(le) && Chain(le, s)
    ensures Chain(le, InsertLate(le, x, s))
    ensures
      var r := InsertLate(le, x, s);
      r != [] && (r[|r| - 1] == x || (s != [] && r[|r| - 1] == s[|s| - 1]))
  {
    if s != [] && !le(s[|s| - 1], x) {
      InsertLateChains(le, x, s[..|s| - 1]);
    }
  }

  ghost predicate Precedes<T(!new)>(s: seq<T>, x: T, y: T) { exists i, j :: 0 <= i < j < |s| && s[i] == x && s[j] == y }

  /** Inserted early, an element comes before whatever it ties with. */
  lemma {:induction false} InsertPrecedes<T(!new)>(le: (T, T) -> bool, x: T, s: seq<T>, y: T)
    requires y in s && le(x, y)
    ensures Precedes(Insert(le, x, s), x, y)
  {
    if le(x, s[0]) {
      var j :| 0 <= j < |s| && s[j] == y;
      assert ([x] + s)[0] == x && ([x] + s)[j + 1] == y;
    } else {
      var rest := Insert(le, x, s[1..]);
      assert s == [s[0]] + s[1..] && y in s[1..];
      InsertPrecedes(le, x, s[1..], y);
      var i, j :| 0 <= i < j < |rest| && rest[i] == x && rest[j] == y;
      assert ([s[0]] + rest)[i + 1] == x && ([s[0]] + rest)[j + 1] == y;
    }
  }

  /** Inserted late, after it. */
  lemma {:induction false} InsertLateFollows<T(!new)>(le: (T, T) -> bool, x: T, s: seq<T>, y: T)
    requires y in s && le(y, x)
    ensures Precedes(InsertLate(le, x, s), y, x)
  {
    if le(s[|s| - 1], x) {
      var i :| 0 <= i < |s| && s[i] == y;
      assert (s + [x])[i] == y && (s + [x])[|s|] == x;
    } else {
      var init := s[..|s| - 1];
      var most := InsertLate(le, x, init);
      assert s == init + [s[|s| - 1]] && y in init;
      InsertLateFollows(le, x, init, y);
      var i, j :| 0 <= i < j < |most| && most[i] == y && most[j] == x;
      assert (most + [s[|s| - 1]])[i] == y && (most + [s[|s| - 1]])[j] == x;
    }
  }

  lemma OneOrder<T(!new)>(s: seq<T>, x: T, y: T)
    requires Distinct(s) && x != y && Precedes(s, x, y)
    ensures !Precedes(s, y, x)
  {
  }

  lemma TakeOut<T>(s: seq<T>, x: T) returns (others: seq<T>)
    requires x in s
    ensures multiset(s) == multiset(others) + multiset{x} && forall y :: y in s && y != x ==> y in others
  {
    var i :| 0 <= i < |s| && s[i] == x;
    others := s[..i] + s[i + 1..];
    assert s == s[..i] + [x] + s[i + 1..];
  }

  /** Put into a sorted list before what it ties with, or after it: a sort leaves both as they are. */
  lemma TieInserts<T(!new)>(le: (T, T) -> bool, rest: seq<T>, x: T, y: T) returns (a: seq<T>, b: seq<T>)
    requires Total(le) && Chain(le, rest) && y in rest && le(x, y) && le(y, x)
    ensures multiset(a) == multiset(rest) + multiset{x} && multiset(b) == multiset(rest) + multiset{x}
    ensures Sort(le, a) == a && Sort(le, b) == b && Precedes(a, x, y) && Precedes(b, y, x)
  {
    a, b := Insert(le, x, rest), InsertLate(le, x, rest);
    InsertChains(le, x, rest);
    InsertLateChains(le, x, rest);
    SortOfChain(le, a);
    SortOfChain(le, b);
    InsertPrecedes(le, x, rest, y);
    InsertLateFollows(le, x, rest, y);
  }

  /** A list with a tie in it can be given to a sort in two orders that come out different. */
  lemma TieSortsTwoWays<T(!new)>(le: (T, T) -> bool, s: seq<T>, x: T, y: T) returns (a: seq<T>, b: seq<T>)
    requires Total(le) && Distinct(s) && x in s && y in s && x != y && le(x, y) && le(y, x)
    ensures multiset(a) == multiset(s) && multiset(b) == multiset(s) && a != b && Sort(le, a) == a && Sort(le, b) == b
  {
    var others := TakeOut(s, x);
    var rest := Sort(le, others);
    SameMembers(rest, others);
    SortChains(le, others);
    a, b := TieInserts(le, rest, x, y);
    BagKeepsDistinct(s, a);
    OneOrder(a, x, y);
  }

  lemma BagKeepsDistinct<T>(s: seq<T>, r: seq<T>)
    requires Distinct(s) && multiset(r) == multiset(s)
    ensures Distinct(r)
  {
    forall x ensures multiset(r)[x] <= 1 { DistinctIsOnceEach(s, x); }
    OnceEachIsDistinct(r);
  }
}
