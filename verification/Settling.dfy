/** `settle` (browse-filters.tsx): clearing picks until the page they open is not empty. */
module Settling {
  import opened Prelude
  import opened Facets

  predicate Offered(menu: Menu, picks: Picks, grid: seq<Cell>)
    requires Picked(menu, picks)
  {
    Pick(menu, picks).value in Options(menu, WithPick(menu, picks, None), grid)
  }

  function Clear(menu: Menu, picks: Picks): Picks {
    if Picked(menu, picks) then WithPick(menu, picks, None) else picks
  }

  function Visit(menu: Menu, picks: Picks, grid: seq<Cell>): Picks {
    if Picked(menu, picks) && !Offered(menu, picks, grid) then Clear(menu, picks) else picks
  }

  /** The first `n` menus visited once each, in menu order. */
  function Visited(n: nat, picks: Picks, grid: seq<Cell>): Picks
    requires n <= 4
  {
    if n == 0 then picks else Visit(Menus()[n - 1], Visited(n - 1, picks, grid), grid)
  }

  function Count(picks: Picks): nat {
    (if Picked(Species, picks) then 1 else 0) + (if Picked(State, picks) then 1 else 0)
    + (if Picked(Age, picks) then 1 else 0) + (if Picked(Sex, picks) then 1 else 0)
  }

  ghost predicate Possible(picks: Picks, grid: seq<Cell>) { exists c :: c in grid && Matches(picks, c.kind) }

  predicate JunkState(picks: Picks) { Picked(State, picks) && !StateCode(picks.state.value) }

  /** A pick is offered beside the others exactly when some cell meets them all, and a state must look like one. */
  lemma OfferedWhenPossible(menu: Menu, picks: Picks, grid: seq<Cell>)
    requires Picked(menu, picks)
    ensures Offered(menu, picks, grid) <==> Possible(picks, grid) && !(menu.State? && JunkState(picks))
  {
    var value, others := Pick(menu, picks).value, WithPick(menu, picks, None);
    forall c: Cell | c in grid
      ensures Under(menu, others, c.kind) && Value(menu, c.kind) == Some(value) <==> Matches(picks, c.kind)
    {
    }
    if Offered(menu, picks, grid) {
      var c :| c in grid && Under(menu, others, c.kind) && Key(menu, c.kind) == Some(value);
      assert Matches(picks, c.kind);
    }
    if Possible(picks, grid) && !(menu.State? && JunkState(picks)) {
      var c :| c in grid && Matches(picks, c.kind);
      assert Key(menu, c.kind) == Some(value);
      assert Key(menu, c.kind).value in Offers(menu, others, grid);
    }
  }

  lemma ClearingKeepsPossible(menu: Menu, picks: Picks, grid: seq<Cell>)
    requires Possible(picks, grid)
    ensures Possible(Clear(menu, picks), grid)
  {
    var c :| c in grid && Matches(picks, c.kind);
    assert Matches(Clear(menu, picks), c.kind);
  }

  /** What is known after visiting `n` menus: a visited pick that stays is backed by a cell meeting every pick. */
  lemma {:induction false} VisitedPicks(n: nat, picks: Picks, grid: seq<Cell>)
    requires n <= 4
    ensures
      var next := Visited(n, picks, grid);
      && (forall i :: 0 <= i < n && Picked(Menus()[i], next) ==> Possible(next, grid))
      && (n >= 2 ==> !JunkState(next))
      && (forall i :: n <= i < 4 ==> Pick(Menus()[i], next) == Pick(Menus()[i], picks))
  {
    if n > 0 {
      var was, menu := Visited(n - 1, picks, grid), Menus()[n - 1];
      VisitedPicks(n - 1, picks, grid);
      if Picked(menu, was) { OfferedWhenPossible(menu, was, grid); }
      if Possible(was, grid) { ClearingKeepsPossible(menu, was, grid); }
    }
  }

  /** Nothing left to clear. */
  ghost predicate AtRest(picks: Picks, grid: seq<Cell>) {
    Count(picks) == 0 || (Possible(picks, grid) && !JunkState(picks))
  }

  lemma {:induction false} RestStays(n: nat, picks: Picks, grid: seq<Cell>)
    requires n <= 4 && AtRest(picks, grid)
    ensures Visited(n, picks, grid) == picks
  {
    if n > 0 {
      RestStays(n - 1, picks, grid);
      if Picked(Menus()[n - 1], picks) { OfferedWhenPossible(Menus()[n - 1], picks, grid); }
    }
  }

  /** One visit to each menu is enough: clearing a pick only widens, so it never empties another menu's choice. */
  lemma OneRoundRests(picks: Picks, grid: seq<Cell>)
    ensures AtRest(Visited(4, picks, grid), grid)
  {
    var next := Visited(4, picks, grid);
    VisitedPicks(4, picks, grid);
    if Count(next) != 0 {
      assert Picked(Menus()[0], next) || Picked(Menus()[1], next) || Picked(Menus()[2], next) || Picked(Menus()[3], next);
    }
  }

  lemma VisitCounts(menu: Menu, picks: Picks, grid: seq<Cell>)
    ensures
      var next := Visit(menu, picks, grid);
      if Picked(menu, picks) && !Offered(menu, picks, grid) then Count(next) == Count(picks) - 1 else next == picks
  {
  }

  /** The loop: rounds over the menus until a round clears nothing. */
  method Settle(grid: seq<Cell>, picks: Picks) returns (next: Picks)
    ensures next == Visited(4, picks, grid)
    ensures Count(next) == 0 || Possible(next, grid)
    ensures next == picks <==> AtRest(picks, grid)
  {
    next := picks;
    var changed := true;
    OneRoundRests(picks, grid);
    while changed
      invariant next == picks || next == Visited(4, picks, grid)
      invariant !changed ==> next == Visited(4, next, grid)
      decreases Count(next) + if changed then 1 else 0
    {
      changed := false;
      var from := next;
      if from == Visited(4, picks, grid) { RestStays(4, from, grid); }
      for i := 0 to 4
        invariant next == Visited(i, from, grid)
        invariant changed ==> Count(next) < Count(from)
        invariant !changed ==> next == from
      {
        var menu := Menus()[i];
        VisitCounts(menu, next, grid);
        if Picked(menu, next) {
          var options := Tally(menu, WithPick(menu, next, None), grid);
          if Pick(menu, next).value !in options {
            next := WithPick(menu, next, None);
            changed := true;
          }
        }
      }
    }
    if AtRest(picks, grid) { RestStays(4, picks, grid); }
  }

  /** The first `k` menus' picks cleared. */
  function ClearedFirst(k: nat, picks: Picks): Picks
    requires k <= 4
  {
    if k == 0 then picks else Clear(Menus()[k - 1], ClearedFirst(k - 1, picks))
  }

  /** After visiting `n` menus, what is gone is the first `k` menus' picks: as few of them as leave something to show. */
  ghost predicate FewestCleared(k: nat, n: nat, picks: Picks, grid: seq<Cell>) {
    && k <= n <= 4
    && Visited(n, picks, grid) == ClearedFirst(k, picks)
    && (Possible(ClearedFirst(k, picks), grid) || forall i :: k <= i < n ==> !Picked(Menus()[i], picks))
    && (forall j :: 0 <= j < k && Picked(Menus()[j], picks) && !(Menus()[j].State? && JunkState(picks)) ==>
          !Possible(ClearedFirst(j, picks), grid))
  }

  lemma {:induction false} ClearedRest(k: nat, picks: Picks)
    requires k <= 4
    ensures forall i :: 0 <= i < 4 ==>
      (Pick(Menus()[i], ClearedFirst(k, picks)) == if i < k && Picked(Menus()[i], picks) then None else Pick(Menus()[i], picks))
  {
    if k > 0 { ClearedRest(k - 1, picks); }
  }

  lemma {:induction false} NothingMoreCleared(k: nat, n: nat, picks: Picks)
    requires k <= n <= 4 && forall i :: k <= i < n ==> !Picked(Menus()[i], picks)
    ensures ClearedFirst(n, picks) == ClearedFirst(k, picks)
  {
    if k < n {
      NothingMoreCleared(k, n - 1, picks);
      ClearedRest(n - 1, picks);
    }
  }

  lemma {:induction false} ClearsFromTheFront(n: nat, picks: Picks, grid: seq<Cell>) returns (k: nat)
    requires n <= 4 && (JunkState(picks) ==> !Possible(picks, grid))
    ensures FewestCleared(k, n, picks, grid)
    ensures n >= 2 && JunkState(picks) ==> k >= 2
  {
    k := 0;
    if n > 0 {
      k := ClearsFromTheFront(n - 1, picks, grid);
      var was, menu := Visited(n - 1, picks, grid), Menus()[n - 1];
      VisitedPicks(n - 1, picks, grid);
      ClearedRest(k, picks);
      if Picked(menu, was) {
        OfferedWhenPossible(menu, was, grid);
        if Possible(was, grid) { ClearingKeepsPossible(menu, was, grid); }
        if !Offered(menu, was, grid) {
          if !Possible(was, grid) { NothingMoreCleared(k, n - 1, picks); }
          if n == 2 && k == 0 { assert ClearedFirst(1, picks) == Clear(Menus()[0], picks); }
          k := n;
        }
      }
    }
  }

  /**
   What `settle` gives up: the first `k` menus' picks in menu order (species, state, age, sex), with `k` as small as leaves
   something to show. Which pick was just made plays no part. A state that isn't a code goes whatever it would show: alone, when some
   cell meets every pick as they stand.
   */
  lemma SettleClearsFromTheFront(picks: Picks, grid: seq<Cell>) returns (k: nat)
    ensures JunkState(picks) && Possible(picks, grid) ==> Visited(4, picks, grid) == WithPick(State, picks, None)
    ensures !(JunkState(picks) && Possible(picks, grid)) ==>
      && (JunkState(picks) ==> k >= 2) && k <= 4 && Visited(4, picks, grid) == ClearedFirst(k, picks)
      && (Count(ClearedFirst(k, picks)) == 0 || Possible(ClearedFirst(k, picks), grid))
      && forall j :: 0 <= j < k && Picked(Menus()[j], picks) && !(Menus()[j].State? && JunkState(picks)) ==>
           !Possible(ClearedFirst(j, picks), grid)
  {
    if JunkState(picks) && Possible(picks, grid) {
      k := 0;
      JunkGoesAlone(picks, grid);
    } else {
      k := ClearsFromTheFront(4, picks, grid);
      OneRoundRests(picks, grid);
    }
  }

  lemma JunkGoesAlone(picks: Picks, grid: seq<Cell>)
    requires JunkState(picks) && Possible(picks, grid)
    ensures Visited(4, picks, grid) == WithPick(State, picks, None)
  {
    var next := WithPick(State, picks, None);
    if Picked(Species, picks) { OfferedWhenPossible(Species, picks, grid); }
    assert Visited(1, picks, grid) == Visit(Menus()[0], Visited(0, picks, grid), grid) == picks;
    OfferedWhenPossible(State, picks, grid);
    ClearingKeepsPossible(State, picks, grid);
    assert Visited(2, picks, grid) == next;
    if Picked(Age, next) { OfferedWhenPossible(Age, next, grid); }
    assert Visited(3, picks, grid) == next;
    if Picked(Sex, next) { OfferedWhenPossible(Sex, next, grid); }
  }

  /** So the pick just made can be the one that goes, though clearing the older one would have shown it. */
  lemma NewPickMayGo()
    ensures
      var grid := [Cell(Kind("Cat", Some("CA"), None, None), 1), Cell(Kind("Dog", Some("TX"), None, None), 1)];
      var picks := Picks(Some("Cat"), Some("TX"), None, None);
      Visited(4, picks, grid) == picks.(species := None) && Possible(picks.(state := None), grid)
  {
    var grid := [Cell(Kind("Cat", Some("CA"), None, None), 1), Cell(Kind("Dog", Some("TX"), None, None), 1)];
    var picks := Picks(Some("Cat"), Some("TX"), None, None);
    OfferedWhenPossible(Species, picks, grid);
    assert !Possible(picks, grid);
    var next := picks.(species := None);
    assert Visited(1, picks, grid) == Visit(Menus()[0], picks, grid) == next;
    assert Matches(next, grid[1].kind) && Matches(picks.(state := None), grid[0].kind);
    OfferedWhenPossible(State, next, grid);
    assert Visited(2, picks, grid) == next && Visited(3, picks, grid) == next;
  }
}
