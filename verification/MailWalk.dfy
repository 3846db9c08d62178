/**
 The sweep's walk over what is owed: a batch of ten a tick, by keepsake id, each tick starting after
 the last id of the one before and over from the start once a batch comes up short.
 */
module MailWalk {
  import opened Prelude
  import opened Sorting

  const TICK_BATCH: nat := 10

  function ById(): (int, int) -> bool { (a, b) => a <= b }

  predicate IsPast(after: Option<int>, k: int) { after.None? || after.value < k }

  function Above(after: Option<int>): int -> bool { k => IsPast(after, k) }

  /** `loadOwedPaintings`: the owed keepsakes past `after`, by id, at most a batch. */
  function LoadOwed(owed: seq<int>, after: Option<int>): seq<int> {
    Take(Sort(ById(), Filter(Above(after), owed)), TICK_BATCH)
  }

  /** Where the next tick starts; a short batch reached the end. */
  function LastKeepsakeId(batch: seq<int>): Option<int> {
    if |batch| == TICK_BATCH then Some(batch[|batch| - 1]) else None
  }

  /** What a tick finds owed, and whether it ends or is cut off by an error outside a gift's own attempt. */
  datatype Tick = Tick(owed: seq<int>, completes: bool)

  /** Where tick `n` starts, the first starting over: a tick cut off leaves the next to start where it did. */
  function After(ticks: seq<Tick>, n: nat): Option<int>
    requires n <= |ticks|
    decreases n, 0
  {
    if n == 0 then None
    else if ticks[n - 1].completes then LastKeepsakeId(Batch(ticks, n - 1))
    else After(ticks, n - 1)
  }

  function Batch(ticks: seq<Tick>, n: nat): seq<int>
    requires n < |ticks|
    decreases n, 1
  {
    LoadOwed(ticks[n].owed, After(ticks, n))
  }

  /** How many of the first `n` ticks completed. */
  function Completed(ticks: seq<Tick>, n: nat): nat
    requires n <= |ticks|
    decreases n
  {
    if n == 0 then 0 else Completed(ticks, n - 1) + if ticks[n - 1].completes then 1 else 0
  }

  /** From a fresh start to the first short batch, with any number of ticks cut off in between. */
  ghost predicate Cycle(ticks: seq<Tick>) {
    && ticks != []
    && (forall n :: 0 <= n < |ticks| - 1 && ticks[n].completes ==> |Batch(ticks, n)| == TICK_BATCH)
    && ticks[|ticks| - 1].completes && |Batch(ticks, |ticks| - 1)| < TICK_BATCH
    && (forall n :: 0 <= n < |ticks| ==> Distinct(ticks[n].owed))
  }

  ghost predicate Ascending(s: seq<int>) {
    forall i, j :: 0 <= i < j < |s| ==> s[i] < s[j]
  }

  /** The owed ids past `after`, in order, each once. */
  lemma PastAscend(owed: seq<int>, after: Option<int>)
    requires Distinct(owed)
    ensures
      var sorted := Sort(ById(), Filter(Above(after), owed));
      Ascending(sorted) && forall k :: k in sorted <==> k in owed && IsPast(after, k)
  {
    var past := Filter(Above(after), owed);
    var sorted := Sort(ById(), past);
    SortSorts(ById(), past);
    SameMembers(sorted, past);
    forall x ensures multiset(sorted)[x] <= 1 {
      FilterCount(Above(after), owed, x);
      DistinctIsOnceEach(owed, x);
    }
    OnceEachIsDistinct(sorted);
    forall i, j | 0 <= i < j < |sorted| ensures sorted[i] < sorted[j] {
      assert ById()(sorted[i], sorted[j]) && sorted[i] != sorted[j];
    }
  }

  /** What a limit leaves out of an ascending list comes after all it takes. */
  lemma FirstOfAscending(sorted: seq<int>, n: nat)
    requires Ascending(sorted)
    ensures Ascending(Take(sorted, n))
    ensures forall k :: k in sorted && k !in Take(sorted, n) ==> |Take(sorted, n)| == n && forall j :: j in Take(sorted, n) ==> j < k
  {
    var batch := Take(sorted, n);
    forall k | k in sorted && k !in batch ensures |batch| == n && forall j :: j in batch ==> j < k {
      var m :| 0 <= m < |sorted| && sorted[m] == k;
      assert forall i :: 0 <= i < |batch| ==> batch[i] in batch && batch[i] == sorted[i];
      forall j | j in batch ensures j < k {
        var i :| 0 <= i < |batch| && batch[i] == j;
        assert sorted[i] == j && i < m;
      }
    }
  }

  /** A batch is what the query promises: ascending, owed, past `after`, and full before any owed id is left out. */
  lemma BatchIs(owed: seq<int>, after: Option<int>)
    requires Distinct(owed)
    ensures
      var batch := LoadOwed(owed, after);
      && Ascending(batch) && |batch| <= TICK_BATCH
      && (forall k :: k in batch ==> k in owed && IsPast(after, k))
      && (forall k :: k in owed && IsPast(after, k) && k !in batch ==>
            |batch| == TICK_BATCH && forall j :: j in batch ==> j < k)
  {
    PastAscend(owed, after);
    FirstOfAscending(Sort(ById(), Filter(Above(after), owed)), TICK_BATCH);
  }

  lemma {:induction false} AscendingSet(s: seq<int>) returns (members: set<int>)
    requires Ascending(s)
    ensures |members| == |s| && forall k :: k in members <==> k in s
  {
    members := {};
    if s != [] {
      var init := s[..|s| - 1];
      members := AscendingSet(init);
      assert s == init + [s[|s| - 1]];
      assert forall k :: k in init ==> k < s[|s| - 1];
      members := members + {s[|s| - 1]};
    }
  }

  /** Where a tick after one that completed starts: past all it took. */
  lemma PastBatch(ticks: seq<Tick>, n: nat)
    requires Cycle(ticks) && n < |ticks| - 1 && ticks[n].completes
    ensures forall j :: j in Batch(ticks, n) ==> !IsPast(After(ticks, n + 1), j)
    ensures After(ticks, n + 1).Some? && After(ticks, n + 1).value in Batch(ticks, n)
  {
    var batch := Batch(ticks, n);
    BatchIs(ticks[n].owed, After(ticks, n));
    assert batch[|batch| - 1] in batch;
  }

  /** A full batch without `k` ends below it, and the next tick starts above all it took. */
  lemma LastOfBatch(ticks: seq<Tick>, n: nat, k: int)
    requires Cycle(ticks) && n < |ticks| - 1 && ticks[n].completes
    requires k in ticks[n].owed && IsPast(After(ticks, n), k) && k !in Batch(ticks, n)
    ensures IsPast(After(ticks, n + 1), k)
    ensures forall j :: j in Batch(ticks, n) || !IsPast(After(ticks, n), j) ==> j < k && !IsPast(After(ticks, n + 1), j)
  {
    BatchIs(ticks[n].owed, After(ticks, n));
    PastBatch(ticks, n);
  }

  /** Owed at every tick that completes, with all smaller ids ever owed at one in `smaller`. */
  ghost predicate OwedThroughout(ticks: seq<Tick>, k: int, smaller: set<int>) {
    && (forall m :: 0 <= m < |ticks| && ticks[m].completes ==> k in ticks[m].owed)
    && (forall m, j :: 0 <= m < |ticks| && ticks[m].completes && j in ticks[m].owed && j < k ==> j in smaller)
  }

  ghost predicate Takes(ticks: seq<Tick>, n: nat, k: int)
    requires n < |ticks|
  {
    ticks[n].completes && k in Batch(ticks, n)
  }

  ghost predicate NotTaken(ticks: seq<Tick>, n: nat, k: int)
    requires n <= |ticks|
  {
    forall m :: 0 <= m < n ==> !Takes(ticks, m, k)
  }

  /** What the first `n` ticks took on their way to `k`: ten smaller ids each that completed, never one twice. */
  ghost predicate TookSmaller(ticks: seq<Tick>, n: nat, k: int, smaller: set<int>, taken: set<int>)
    requires n <= |ticks|
  {
    && IsPast(After(ticks, n), k)
    && |taken| == TICK_BATCH * Completed(ticks, n) && taken <= smaller
    && (forall j :: j in taken ==> !IsPast(After(ticks, n), j))
  }

  lemma TakesTenMore(ticks: seq<Tick>, n: nat, k: int, smaller: set<int>, taken: set<int>) returns (more: set<int>)
    requires Cycle(ticks) && n < |ticks| - 1 && ticks[n].completes && OwedThroughout(ticks, k, smaller)
    requires k !in Batch(ticks, n) && TookSmaller(ticks, n, k, smaller, taken)
    ensures TookSmaller(ticks, n + 1, k, smaller, more)
  {
    var batch := Batch(ticks, n);
    BatchIs(ticks[n].owed, After(ticks, n));
    var ten := AscendingSet(batch);
    LastOfBatch(ticks, n, k);
    forall j | j in ten ensures j in smaller && j !in taken && !IsPast(After(ticks, n + 1), j) {
      assert j in batch && j in ticks[n].owed && j < k;
    }
    DisjointSizes(taken, ten);
    more := taken + ten;
  }

  lemma DisjointSizes(a: set<int>, b: set<int>)
    requires a !! b
    ensures |a + b| == |a| + |b|
  {
    assert a * b == {};
  }

  /** Until `k` is taken every tick that completes takes ten smaller ids. */
  lemma {:induction false} SmallerTaken(ticks: seq<Tick>, n: nat, k: int, smaller: set<int>) returns (taken: set<int>)
    requires Cycle(ticks) && n < |ticks| && OwedThroughout(ticks, k, smaller) && NotTaken(ticks, n, k)
    ensures TookSmaller(ticks, n, k, smaller, taken)
    decreases n
  {
    taken := {};
    if n > 0 {
      taken := SmallerTaken(ticks, n - 1, k, smaller);
      assert !Takes(ticks, n - 1, k);
      if ticks[n - 1].completes { taken := TakesTenMore(ticks, n - 1, k, smaller, taken); }
    }
  }

  /**
   Whatever else fails, appears or leaves between ticks, and however many ticks are cut off, a keepsake owed throughout a cycle is
   taken in it, after no more completed ticks than its share of the smaller ids allows.
   */
  lemma OwedIsTaken(ticks: seq<Tick>, k: int, smaller: set<int>) returns (n: nat)
    requires Cycle(ticks) && OwedThroughout(ticks, k, smaller)
    ensures n < |ticks| && Takes(ticks, n, k) && Completed(ticks, n) <= |smaller| / TICK_BATCH
  {
    OwedIsTakenSomewhere(ticks, k, smaller);
    n := FirstTaken(ticks, |ticks|, k);
    var taken := SmallerTaken(ticks, n, k, smaller);
    SubsetSize(taken, smaller);
  }

  lemma OwedIsTakenSomewhere(ticks: seq<Tick>, k: int, smaller: set<int>)
    requires Cycle(ticks) && OwedThroughout(ticks, k, smaller)
    ensures exists m :: 0 <= m < |ticks| && Takes(ticks, m, k)
  {
    var last := |ticks| - 1;
    if NotTaken(ticks, last, k) {
      var taken := SmallerTaken(ticks, last, k, smaller);
      BatchIs(ticks[last].owed, After(ticks, last));
      assert Takes(ticks, last, k);
    }
  }

  lemma {:induction false} FirstTaken(ticks: seq<Tick>, n: nat, k: int) returns (m: nat)
    requires n <= |ticks| && exists m :: 0 <= m < n && Takes(ticks, m, k)
    ensures m < n && Takes(ticks, m, k) && NotTaken(ticks, m, k)
    decreases n
  {
    if exists l :: 0 <= l < n - 1 && Takes(ticks, l, k) {
      m := FirstTaken(ticks, n - 1, k);
    } else {
      m := n - 1;
    }
  }

  lemma {:induction false} SubsetSize(a: set<int>, b: set<int>)
    requires a <= b
    ensures |a| <= |b|
  {
    assert b == a + (b - a);
  }

  lemma PastLater(ticks: seq<Tick>, n: nat, k: int)
    requires Cycle(ticks) && n < |ticks| - 1 && !IsPast(After(ticks, n), k)
    ensures !IsPast(After(ticks, n + 1), k)
  {
    if ticks[n].completes {
      BatchIs(ticks[n].owed, After(ticks, n));
      PastBatch(ticks, n);
    }
  }

  lemma {:induction false} PastOnceTaken(ticks: seq<Tick>, n: nat, m: nat, k: int)
    requires Cycle(ticks) && n < m < |ticks| && Takes(ticks, n, k)
    ensures !IsPast(After(ticks, m), k)
    decreases m
  {
    if n == m - 1 {
      PastBatch(ticks, n);
    } else {
      PastOnceTaken(ticks, n, m - 1, k);
      PastLater(ticks, m - 1, k);
    }
  }

  lemma NotTakenLater(ticks: seq<Tick>, k: int, n: nat, m: nat)
    requires Cycle(ticks) && n < m < |ticks| && Takes(ticks, n, k)
    ensures k !in Batch(ticks, m)
  {
    PastOnceTaken(ticks, n, m, k);
    BatchIs(ticks[m].owed, After(ticks, m));
  }

  /** And never twice in one cycle by ticks that complete; once one has taken it, no later tick, cut off or not, reads it again. */
  lemma TakenOnce(ticks: seq<Tick>, k: int, n: nat, m: nat)
    requires Cycle(ticks) && n < |ticks| && m < |ticks| && Takes(ticks, n, k) && k in Batch(ticks, m)
    ensures m <= n && (Takes(ticks, m, k) ==> m == n)
  {
    if n < m { NotTakenLater(ticks, k, n, m); }
    if m < n && ticks[m].completes { NotTakenLater(ticks, k, m, n); }
  }

  /** A tick cut off is read again from the same place. */
  lemma CutOffIsReadAgain(ticks: seq<Tick>, n: nat)
    requires n + 1 < |ticks| && !ticks[n].completes && ticks[n + 1].owed == ticks[n].owed
    ensures Batch(ticks, n + 1) == Batch(ticks, n)
  {
  }
}
