/** The filter menus (facets.ts), recounted from one group-by grid (browse.ts). */
module Facets {
  import opened Prelude

  /** What an animal is filtered by. */
  datatype Kind = Kind(species: string, state: Option<string>, age: Option<string>, sex: Option<string>)

  datatype Animal = Animal(id: int, kind: Kind)

  datatype Cell = Cell(kind: Kind, count: nat)

  datatype Picks = Picks(species: Option<string>, state: Option<string>, age: Option<string>, sex: Option<string>)

  datatype Menu = Species | State | Age | Sex

  function Menus(): seq<Menu> { [Species, State, Age, Sex] }

  function Value(menu: Menu, kind: Kind): Option<string> {
    match menu
    case Species => Some(kind.species)
    case State => kind.state
    case Age => kind.age
    case Sex => kind.sex
  }

  function Pick(menu: Menu, picks: Picks): Option<string> {
    match menu
    case Species => picks.species
    case State => picks.state
    case Age => picks.age
    case Sex => picks.sex
  }

  function WithPick(menu: Menu, picks: Picks, pick: Option<string>): Picks {
    match menu
    case Species => picks.(species := pick)
    case State => picks.(state := pick)
    case Age => picks.(age := pick)
    case Sex => picks.(sex := pick)
  }

  /** A pick that filters anything: the empty string reads as no pick. */
  predicate Picked(menu: Menu, picks: Picks) { Pick(menu, picks).Some? && Pick(menu, picks).value != "" }

  predicate Meets(menu: Menu, picks: Picks, kind: Kind) { Picked(menu, picks) ==> Value(menu, kind) == Pick(menu, picks) }

  /** Browse's own filters: an unknown value never equals a pick. */
  predicate Matches(picks: Picks, kind: Kind) {
    Meets(Species, picks, kind) && Meets(State, picks, kind) && Meets(Age, picks, kind) && Meets(Sex, picks, kind)
  }

  /** Under the other menus' picks. */
  predicate Under(except: Menu, picks: Picks, kind: Kind) {
    && (except.Species? || Meets(Species, picks, kind))
    && (except.State? || Meets(State, picks, kind))
    && (except.Age? || Meets(Age, picks, kind))
    && (except.Sex? || Meets(Sex, picks, kind))
  }

  predicate StateCode(s: string) { |s| == 2 && 'A' <= s[0] <= 'Z' && 'A' <= s[1] <= 'Z' }

  /** The value a menu lists an animal under: junk states are never offered. */
  function Key(menu: Menu, kind: Kind): Option<string> {
    if menu.State? && kind.state.Some? && !StateCode(kind.state.value) then None else Value(menu, kind)
  }

  // ---------- the grid ----------

  function OfKind(kind: Kind): Animal -> bool { (a: Animal) => a.kind == kind }

  function OfKinds(p: Kind -> bool): Animal -> bool { (a: Animal) => p(a.kind) }

  /** `group by species, state, age, sex` with `count(*)`, in any order. */
  ghost predicate IsGrid(cells: seq<Cell>, visible: seq<Animal>) {
    && Counted(cells, visible)
    && (forall a :: a in visible ==> exists c :: c in cells && c.kind == a.kind)
  }

  ghost predicate Counted(cells: seq<Cell>, visible: seq<Animal>) {
    && (forall i, j :: 0 <= i < j < |cells| ==> cells[i].kind != cells[j].kind)
    && (forall c :: c in cells ==> c.count == |Filter(OfKind(c.kind), visible)| && c.count > 0)
  }

  /** The counts of the cells `p` lets through, added up. */
  function Weight(p: Kind -> bool, cells: seq<Cell>): nat {
    if cells == [] then 0 else
      var last := cells[|cells| - 1];
      Weight(p, cells[..|cells| - 1]) + (if p(last.kind) then last.count else 0)
  }

  function InCells(p: Kind -> bool, cells: seq<Cell>): Animal -> bool {
    (a: Animal) => p(a.kind) && exists c :: c in cells && c.kind == a.kind
  }

  lemma {:induction false} FilterSplits(p: Animal -> bool, q: Animal -> bool, r: Animal -> bool, s: seq<Animal>)
    requires forall a :: a in s ==> (p(a) <==> q(a) || r(a)) && !(q(a) && r(a))
    ensures |Filter(p, s)| == |Filter(q, s)| + |Filter(r, s)|
  {
    if s != [] {
      assert s == s[..|s| - 1] + [s[|s| - 1]];
      FilterSplits(p, q, r, s[..|s| - 1]);
    }
  }

  /** A filter keeps as many as a wider one exactly when nothing falls between them. */
  lemma {:induction false} FilterSameSize(p: Animal -> bool, q: Animal -> bool, s: seq<Animal>)
    requires forall a :: a in s && p(a) ==> q(a)
    ensures |Filter(p, s)| <= |Filter(q, s)|
    ensures |Filter(p, s)| == |Filter(q, s)| <==> forall a :: a in s && q(a) ==> p(a)
  {
    if s != [] {
      var init, last := s[..|s| - 1], s[|s| - 1];
      assert s == init + [last];
      FilterSameSize(p, q, init);
    }
  }

  lemma {:induction false} NoneOfNone(p: Kind -> bool, visible: seq<Animal>)
    ensures Filter(InCells(p, []), visible) == []
  {
    if visible != [] { NoneOfNone(p, visible[..|visible| - 1]); }
  }

  lemma {:induction false} CellsWeigh(p: Kind -> bool, cells: seq<Cell>, visible: seq<Animal>)
    requires Counted(cells, visible)
    ensures Weight(p, cells) == |Filter(InCells(p, cells), visible)|
  {
    if cells == [] {
      NoneOfNone(p, visible);
    } else {
      var init, last := cells[..|cells| - 1], cells[|cells| - 1];
      CellsWeigh(p, init, visible);
      if p(last.kind) {
        forall a: Animal | a in visible
          ensures (InCells(p, cells)(a) <==> InCells(p, init)(a) || OfKind(last.kind)(a)) && !(InCells(p, init)(a) && OfKind(last.kind)(a))
        {
          CellAppears(p, cells, a);
        }
        FilterSplits(InCells(p, cells), InCells(p, init), OfKind(last.kind), visible);
      } else {
        forall a: Animal | a in visible ensures InCells(p, cells)(a) <==> InCells(p, init)(a) { CellAppears(p, cells, a); }
        FilterSameSize(InCells(p, init), InCells(p, cells), visible);
      }
    }
  }

  lemma CellAppears(p: Kind -> bool, cells: seq<Cell>, a: Animal)
    requires cells != [] && forall i, j :: 0 <= i < j < |cells| ==> cells[i].kind != cells[j].kind
    ensures InCells(p, cells)(a) <==> InCells(p, cells[..|cells| - 1])(a) || (p(a.kind) && a.kind == cells[|cells| - 1].kind)
    ensures a.kind == cells[|cells| - 1].kind ==> !InCells(p, cells[..|cells| - 1])(a)
  {
    var init, last := cells[..|cells| - 1], cells[|cells| - 1];
    assert forall c :: c in cells <==> c in init || c == last;
  }

  /** A grid weighs what the table holds. */
  lemma GridWeighs(p: Kind -> bool, cells: seq<Cell>, visible: seq<Animal>)
    requires IsGrid(cells, visible)
    ensures Weight(p, cells) == |Filter(OfKinds(p), visible)|
  {
    CellsWeigh(p, cells, visible);
    FilterSameSize(InCells(p, cells), OfKinds(p), visible);
  }

  // ---------- the menus ----------

  function Listed(menu: Menu, picks: Picks, value: string): Kind -> bool {
    (kind: Kind) => Under(menu, picks, kind) && Key(menu, kind) == Some(value)
  }

  function Offers(menu: Menu, picks: Picks, cells: seq<Cell>): set<string> {
    set c | c in cells && Under(menu, picks, c.kind) && Key(menu, c.kind).Some? :: Key(menu, c.kind).value
  }

  /** A menu: the values found under the other picks, each with its count. */
  function Options(menu: Menu, picks: Picks, cells: seq<Cell>): map<string, nat> {
    map v | v in Offers(menu, picks, cells) :: Weight(Listed(menu, picks, v), cells)
  }

  /** `tally` over the cells under the other picks: one pass, a map of running counts. */
  method Tally(menu: Menu, picks: Picks, cells: seq<Cell>) returns (counts: map<string, nat>)
    ensures counts == Options(menu, picks, cells)
  {
    counts := map[];
    for i := 0 to |cells|
      invariant counts == Options(menu, picks, cells[..i])
    {
      var cell := cells[i];
      assert cells[..i + 1] == cells[..i] + [cell];
      OptionsGrow(menu, picks, cells[..i], cell);
      counts := TallyOne(counts, menu, picks, cell);
    }
    assert cells[..|cells|] == cells;
  }

  /** The loop's body: a cell the other picks leave out, or of no value, counts for nothing. */
  method TallyOne(was: map<string, nat>, menu: Menu, picks: Picks, cell: Cell) returns (counts: map<string, nat>)
    ensures counts == Bumped(was, menu, picks, cell)
  {
    counts := was;
    if Under(menu, picks, cell.kind) {
      var value := Key(menu, cell.kind);
      if value.Some? {
        counts := counts[value.value := (if value.value in counts then counts[value.value] else 0) + cell.count];
      }
    }
  }

  lemma {:induction false} NothingWeighs(p: Kind -> bool, cells: seq<Cell>)
    requires forall c :: c in cells ==> !p(c.kind)
    ensures Weight(p, cells) == 0
  {
    if cells != [] { NothingWeighs(p, cells[..|cells| - 1]); }
  }

  lemma WeightGrows(p: Kind -> bool, cells: seq<Cell>, cell: Cell)
    ensures Weight(p, cells + [cell]) == Weight(p, cells) + if p(cell.kind) then cell.count else 0
  {
    assert (cells + [cell])[..|cells|] == cells;
  }

  lemma OffersGrow(menu: Menu, picks: Picks, cells: seq<Cell>, cell: Cell)
    ensures Offers(menu, picks, cells + [cell]) == Offers(menu, picks, cells) +
      if Under(menu, picks, cell.kind) && Key(menu, cell.kind).Some? then {Key(menu, cell.kind).value} else {}
  {
    assert forall c :: c in cells + [cell] <==> c in cells || c == cell;
  }

  /** A menu with one more cell counted in. */
  function Bumped(was: map<string, nat>, menu: Menu, picks: Picks, cell: Cell): map<string, nat> {
    var value := Key(menu, cell.kind);
    if !Under(menu, picks, cell.kind) || value.None? then was
    else was[value.value := (if value.value in was then was[value.value] else 0) + cell.count]
  }

  lemma OptionsGrow(menu: Menu, picks: Picks, cells: seq<Cell>, cell: Cell)
    ensures Options(menu, picks, cells + [cell]) == Bumped(Options(menu, picks, cells), menu, picks, cell)
  {
    var now, want := Options(menu, picks, cells + [cell]), Bumped(Options(menu, picks, cells), menu, picks, cell);
    OffersGrow(menu, picks, cells, cell);
    assert now.Keys == want.Keys;
    forall v | v in now ensures now[v] == want[v] { CountGrows(menu, picks, cells, cell, v); }
  }

  function CountUnder(menu: Menu, picks: Picks, cells: seq<Cell>, v: string): nat { Weight(Listed(menu, picks, v), cells) }

  lemma CountGrows(menu: Menu, picks: Picks, cells: seq<Cell>, cell: Cell, v: string)
    ensures CountUnder(menu, picks, cells + [cell], v) ==
      (if v in Offers(menu, picks, cells) then CountUnder(menu, picks, cells, v) else 0)
      + if Listed(menu, picks, v)(cell.kind) then cell.count else 0
  {
    WeightGrows(Listed(menu, picks, v), cells, cell);
    if v !in Offers(menu, picks, cells) { NothingWeighs(Listed(menu, picks, v), cells); }
  }

  /** The page a set of picks opens. */
  function Browse(picks: Picks, visible: seq<Animal>): seq<Animal> { Filter(MatchedBy(picks), visible) }

  function MatchedBy(picks: Picks): Animal -> bool { (a: Animal) => Matches(picks, a.kind) }

  lemma PickNarrows(menu: Menu, picks: Picks, value: string, kind: Kind)
    ensures Matches(WithPick(menu, picks, Some(value)), kind) <==> Under(menu, picks, kind) && (value == "" || Value(menu, kind) == Some(value))
  {
  }

  lemma ListedAreBrowsed(menu: Menu, picks: Picks, value: string, kind: Kind)
    requires Listed(menu, picks, value)(kind)
    ensures Matches(WithPick(menu, picks, Some(value)), kind)
  {
    PickNarrows(menu, picks, value, kind);
  }

  /** A value is listed exactly when some visible animal has it under the other picks. */
  lemma ListedWhenHeld(menu: Menu, picks: Picks, cells: seq<Cell>, visible: seq<Animal>, value: string)
    requires IsGrid(cells, visible)
    ensures value in Options(menu, picks, cells) <==> exists a :: a in visible && Listed(menu, picks, value)(a.kind)
  {
    if value in Options(menu, picks, cells) {
      var c :| c in cells && Under(menu, picks, c.kind) && Key(menu, c.kind) == Some(value);
      var held := Filter(OfKind(c.kind), visible);
      assert held[0] in visible && OfKind(c.kind)(held[0]);
      assert Listed(menu, picks, value)(held[0].kind);
    }
  }

  /** A value of a listed option is a state code, in the state menu. */
  lemma StatesAreCodes(picks: Picks, cells: seq<Cell>, value: string)
    requires value in Options(State, picks, cells)
    ensures StateCode(value)
  {
    var c :| c in cells && Under(State, picks, c.kind) && Key(State, c.kind) == Some(value);
  }

  /**
   A menu's count is a promise: it is how many animals the page shows once that value is picked, for every value but the
   empty one. Picking the empty string filters nothing, so its count holds only when every animal under the other picks has it.
   */
  lemma CountsArePromises(menu: Menu, picks: Picks, cells: seq<Cell>, visible: seq<Animal>, value: string)
    requires IsGrid(cells, visible) && value in Options(menu, picks, cells)
    ensures
      Options(menu, picks, cells)[value] == |Browse(WithPick(menu, picks, Some(value)), visible)| <==>
      (value != "" || forall a :: a in visible && Under(menu, picks, a.kind) ==> Value(menu, a.kind) == Some(""))
    ensures 0 < Options(menu, picks, cells)[value] <= |Browse(WithPick(menu, picks, Some(value)), visible)|
  {
    var p, q := OfKinds(Listed(menu, picks, value)), MatchedBy(WithPick(menu, picks, Some(value)));
    GridWeighs(Listed(menu, picks, value), cells, visible);
    ListedWhenHeld(menu, picks, cells, visible, value);
    forall a: Animal | a in visible && p(a) ensures q(a) { ListedAreBrowsed(menu, picks, value, a.kind); }
    FilterSameSize(p, q, visible);
    forall a: Animal | a in visible
      ensures q(a) <==> Under(menu, picks, a.kind) && (value == "" || Value(menu, a.kind) == Some(value))
    {
      PickNarrows(menu, picks, value, a.kind);
    }
    if menu.State? { StatesAreCodes(picks, cells, value); }
  }
}
