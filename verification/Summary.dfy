/** The checklist of a session, its summary by area, and the pages of its outstanding houses. */
module Summary {
  import opened Prelude
  import opened Sums
  import opened Tables
  import opened FinanceOps
  import opened CollectionLaws

  datatype ChecklistHouse = ChecklistHouse(house: Id, area: Id, item: Option<Item>)

  /** The houses on a route, each with its item if there is one. */
  function ToChecklist(route: seq<(Id, Id)>, items: map<Id, Item>): (r: seq<ChecklistHouse>)
    ensures |r| == |route|
    ensures forall i :: 0 <= i < |r| ==>
              r[i] == ChecklistHouse(route[i].0, route[i].1, if route[i].0 in items then Some(items[route[i].0]) else None)
  {
    seq(|route|, i requires 0 <= i < |route| =>
      ChecklistHouse(route[i].0, route[i].1, if route[i].0 in items then Some(items[route[i].0]) else None))
  }

  // ----- What a summary counts -----------------------------------------------------------------

  function Filter<T>(s: seq<T>, p: T -> bool): seq<T> {
    if s == [] then [] else Filter(s[..|s| - 1], p) + (if p(s[|s| - 1]) then [s[|s| - 1]] else [])
  }

  predicate Completed(h: ChecklistHouse) {
    h.item.Some?
  }

  predicate PaidHouse(h: ChecklistHouse) {
    h.item.Some? && h.item.value.status == Paid
  }

  /** Paid or dispensed. */
  predicate SettledHouse(h: ChecklistHouse) {
    h.item.Some? && h.item.value.status in {Paid, Dispensation}
  }

  predicate OutstandingHouse(h: ChecklistHouse) {
    !SettledHouse(h)
  }

  function Amount(h: ChecklistHouse): int {
    if PaidHouse(h) then h.item.value.amount else 0
  }

  function Collected(houses: seq<ChecklistHouse>): int {
    if houses == [] then 0 else Collected(houses[..|houses| - 1]) + Amount(houses[|houses| - 1])
  }

  function InArea(houses: seq<ChecklistHouse>, area: Id): seq<ChecklistHouse> {
    if houses == [] then [] else
      var last := houses[|houses| - 1];
      InArea(houses[..|houses| - 1], area) + (if last.area == area then [last] else [])
  }

  function AreasOf(houses: seq<ChecklistHouse>): set<Id> {
    if houses == [] then {} else AreasOf(houses[..|houses| - 1]) + {houses[|houses| - 1].area}
  }

  datatype Progress = Progress(houses: nat, completed: nat, paid: nat, outstanding: nat, collected: int)

  /** The five figures of a list of houses, each by its own definition. */
  function Measured(houses: seq<ChecklistHouse>): Progress {
    Progress(|houses|, |Filter(houses, Completed)|, |Filter(houses, PaidHouse)|, |Filter(houses, OutstandingHouse)|,
             Collected(houses))
  }

  function Counted(p: Progress, h: ChecklistHouse): Progress {
    Progress(p.houses + 1,
             p.completed + (if Completed(h) then 1 else 0),
             p.paid + (if PaidHouse(h) then 1 else 0),
             p.outstanding + (if OutstandingHouse(h) then 1 else 0),
             p.collected + Amount(h))
  }

  lemma MeasuredAppend(houses: seq<ChecklistHouse>, h: ChecklistHouse)
    ensures Measured(houses + [h]) == Counted(Measured(houses), h)
  {
  }

  lemma AreaAppend(houses: seq<ChecklistHouse>, h: ChecklistHouse, area: Id)
    ensures Measured(InArea(houses + [h], area))
         == if h.area == area then Counted(Measured(InArea(houses, area)), h) else Measured(InArea(houses, area))
  {
    assert (houses + [h])[..|houses + [h]| - 1] == houses;
    MeasuredAppend(InArea(houses, area), h);
    assert InArea(houses, area) + [] == InArea(houses, area);
  }

  lemma {:induction false} NoHouseNoArea(houses: seq<ChecklistHouse>, area: Id)
    requires area !in AreasOf(houses)
    ensures InArea(houses, area) == []
  {
    if houses != [] {
      NoHouseNoArea(houses[..|houses| - 1], area);
    }
  }

  predicate Distinct<T(==)>(s: seq<T>) {
    forall i, j :: 0 <= i < j < |s| ==> s[i] != s[j]
  }

  function Zero(): Progress {
    Progress(0, 0, 0, 0, 0)
  }

  /** The records are those of the areas met so far. */
  ghost predicate PerAreaOf(houses: seq<ChecklistHouse>, perArea: map<Id, Progress>) {
    && perArea.Keys == AreasOf(houses)
    && forall a :: a in perArea ==> perArea[a] == Measured(InArea(houses, a))
  }

  lemma AreaEntry(houses: seq<ChecklistHouse>, h: ChecklistHouse, perArea: map<Id, Progress>, a: Id)
    requires PerAreaOf(houses, perArea) && (a in perArea || a == h.area)
    ensures Measured(InArea(houses + [h], a))
         == var before := if a in perArea then perArea[a] else Zero();
            if h.area == a then Counted(before, h) else before
  {
    if a !in perArea { NoHouseNoArea(houses, a); }
    AreaAppend(houses, h, a);
  }

  lemma AreasGrow(houses: seq<ChecklistHouse>, h: ChecklistHouse)
    ensures AreasOf(houses + [h]) == AreasOf(houses) + {h.area}
  {
    assert (houses + [h])[..|houses + [h]| - 1] == houses;
  }

  lemma PerAreaAppend(houses: seq<ChecklistHouse>, h: ChecklistHouse, perArea: map<Id, Progress>, progress: Progress)
    requires PerAreaOf(houses, perArea)
    requires progress == Counted(if h.area in perArea then perArea[h.area] else Zero(), h)
    ensures PerAreaOf(houses + [h], perArea[h.area := progress])
  {
    AreasGrow(houses, h);
    forall a | a in perArea[h.area := progress]
      ensures perArea[h.area := progress][a] == Measured(InArea(houses + [h], a))
    {
      AreaEntry(houses, h, perArea, a);
    }
  }

  /** Each area that has a record is listed, once. */
  ghost predicate EachListed(areas: seq<Id>, perArea: map<Id, Progress>) {
    Distinct(areas) && forall a :: a in areas <==> a in perArea
  }

  lemma ListsAppend(areas: seq<Id>, perArea: map<Id, Progress>, area: Id, progress: Progress)
    requires EachListed(areas, perArea)
    ensures EachListed(if area in perArea then areas else areas + [area], perArea[area := progress])
  {
  }

  /** What one turn of the summary loop keeps. */
  lemma HouseAdded(
    houses: seq<ChecklistHouse>, i: nat, counted: Progress, areas: seq<Id>, perArea: map<Id, Progress>, progress: Progress)
    requires i < |houses| && counted == Measured(houses[..i]) && PerAreaOf(houses[..i], perArea) && EachListed(areas, perArea)
    requires var h := houses[i];
             progress == Counted(if h.area in perArea then perArea[h.area] else Zero(), h)
    ensures var h := houses[i];
            && Counted(counted, h) == Measured(houses[..i + 1])
            && PerAreaOf(houses[..i + 1], perArea[h.area := progress])
            && EachListed(if h.area in perArea then areas else areas + [h.area], perArea[h.area := progress])
  {
    assert houses[..i + 1] == houses[..i] + [houses[i]];
    ListsAppend(areas, perArea, houses[i].area, progress);
    MeasuredAppend(houses[..i], houses[i]);
    PerAreaAppend(houses[..i], houses[i], perArea, progress);
  }

  /**
   The summary loop: one pass over the houses that keeps the totals and a progress record per area,
   areas in the order they are met.
   */
  method ToSummary(houses: seq<ChecklistHouse>) returns (total: Progress, areas: seq<Id>, perArea: map<Id, Progress>)
    ensures total == Measured(houses)
    ensures perArea.Keys == AreasOf(houses)
    ensures forall a :: a in perArea ==> perArea[a] == Measured(InArea(houses, a))
    ensures EachListed(areas, perArea)
  {
    var totalCollected, completedHouses, paidHouses, outstandingHouses := 0, 0, 0, 0;
    areas, perArea := [], map[];
    for i := 0 to |houses|
      invariant Progress(i, completedHouses, paidHouses, outstandingHouses, totalCollected) == Measured(houses[..i])
      invariant PerAreaOf(houses[..i], perArea)
      invariant EachListed(areas, perArea)
    {
      var house := houses[i];
      var progress := if house.area in perArea then perArea[house.area] else Zero();
      ghost var before, listed := perArea, areas;
      ghost var found := progress;
      ghost var counted := Progress(i, completedHouses, paidHouses, outstandingHouses, totalCollected);
      progress := progress.(houses := progress.houses + 1);
      if house.item.Some? {
        completedHouses := completedHouses + 1;
        progress := progress.(completed := progress.completed + 1);
      }
      if house.item.Some? && house.item.value.status == Paid {
        paidHouses := paidHouses + 1;
        totalCollected := totalCollected + house.item.value.amount;
        progress := progress.(paid := progress.paid + 1, collected := progress.collected + house.item.value.amount);
      }
      if house.item.None? || house.item.value.status !in {Paid, Dispensation} {
        outstandingHouses := outstandingHouses + 1;
        progress := progress.(outstanding := progress.outstanding + 1);
      }
      if house.area !in perArea {
        areas := areas + [house.area];
      }
      perArea := perArea[house.area := progress];

      assert progress == Counted(found, house);
      assert Progress(i + 1, completedHouses, paidHouses, outstandingHouses, totalCollected) == Counted(counted, house);
      HouseAdded(houses, i, counted, listed, before, progress);
    }
    assert houses[..|houses|] == houses;
    total := Progress(|houses|, completedHouses, paidHouses, outstandingHouses, totalCollected);
  }

  // ----- The areas partition the houses --------------------------------------------------------

  datatype Column = Houses | CompletedColumn | PaidColumn | OutstandingColumn | CollectedColumn

  function Cell(p: Progress, column: Column): int {
    match column
    case Houses => p.houses
    case CompletedColumn => p.completed
    case PaidColumn => p.paid
    case OutstandingColumn => p.outstanding
    case CollectedColumn => p.collected
  }

  function Figure(houses: seq<ChecklistHouse>, area: Id, column: Column): int {
    Cell(Measured(InArea(houses, area)), column)
  }

  ghost function AreaColumn(houses: seq<ChecklistHouse>, column: Column): map<Id, int> {
    map a | a in AreasOf(houses) :: Figure(houses, a, column)
  }

  /** In every column, the figures of the areas add up to the total. */
  lemma {:induction false} AreasPartition(houses: seq<ChecklistHouse>, column: Column)
    ensures MapSum(AreaColumn(houses, column)) == Cell(Measured(houses), column)
  {
    if houses == [] {
      assert AreaColumn(houses, column) == map[];
    } else {
      var front, h := houses[..|houses| - 1], houses[|houses| - 1];
      assert houses == front + [h];
      AreasPartition(front, column);
      ColumnAppend(front, h, column);
      MeasuredAppend(front, h);
      CountedCell(Measured(front), h, column);
    }
  }

  lemma CountedCell(p: Progress, h: ChecklistHouse, column: Column)
    ensures Cell(Counted(p, h), column) == Cell(p, column) + Cell(Counted(Zero(), h), column)
  {
  }

  lemma FigureAppend(houses: seq<ChecklistHouse>, h: ChecklistHouse, column: Column, area: Id)
    ensures Figure(houses + [h], area, column)
         == Figure(houses, area, column) + (if h.area == area then Cell(Counted(Zero(), h), column) else 0)
  {
    AreaAppend(houses, h, area);
    CountedCell(Measured(InArea(houses, area)), h, column);
  }

  lemma NoHouseNoFigure(houses: seq<ChecklistHouse>, area: Id, column: Column)
    requires area !in AreasOf(houses)
    ensures Figure(houses, area, column) == 0
  {
    NoHouseNoArea(houses, area);
  }

  lemma AreasAppend(houses: seq<ChecklistHouse>, h: ChecklistHouse)
    ensures AreasOf(houses + [h]) == AreasOf(houses) + {h.area}
  {
  }

  lemma ColumnAppend(houses: seq<ChecklistHouse>, h: ChecklistHouse, column: Column)
    ensures MapSum(AreaColumn(houses + [h], column)) == MapSum(AreaColumn(houses, column)) + Cell(Counted(Zero(), h), column)
  {
    var before, after := AreaColumn(houses, column), AreaColumn(houses + [h], column);
    AreasAppend(houses, h);
    forall a | a in before && a != h.area ensures after[a] == before[a] {
      FigureAppend(houses, h, column, a);
    }
    FigureAppend(houses, h, column, h.area);
    if h.area !in AreasOf(houses) { NoHouseNoFigure(houses, h.area, column); }
    SumGrows(before, after, h.area, Cell(Counted(Zero(), h), column));
  }

  lemma {:induction false} FilterSplits<T>(s: seq<T>, p: T -> bool, q: T -> bool)
    requires forall x :: q(x) <==> !p(x)
    ensures |Filter(s, p)| + |Filter(s, q)| == |s|
  {
    if s != [] {
      FilterSplits(s[..|s| - 1], p, q);
    }
  }

  /** Every house is either outstanding or settled, and the summary's count is the list's length. */
  lemma OutstandingOrSettled(houses: seq<ChecklistHouse>)
    ensures Measured(houses).outstanding + |Filter(houses, SettledHouse)| == |houses|
    ensures Measured(houses).outstanding == |OutstandingHouses(houses)|
  {
  }

  // ----- Summary and ledger --------------------------------------------------------------------

  function RouteHouses(route: seq<(Id, Id)>): set<Id> {
    if route == [] then {} else RouteHouses(route[..|route| - 1]) + {route[|route| - 1].0}
  }

  /** The query returns each house once. */
  predicate EachOnce(route: seq<(Id, Id)>) {
    route != [] ==> route[|route| - 1].0 !in RouteHouses(route[..|route| - 1]) && EachOnce(route[..|route| - 1])
  }

  function Restricted(m: map<Id, int>, keep: set<Id>): map<Id, int> {
    map k | k in m && k in keep :: m[k]
  }

  /** What the checklist collects is the paid sum of the items whose houses it lists. */
  lemma {:induction false} CollectedOnRoute(route: seq<(Id, Id)>, items: map<Id, Item>)
    requires EachOnce(route)
    ensures Collected(ToChecklist(route, items)) == MapSum(Restricted(PaidAmounts(items), RouteHouses(route)))
  {
    var paid := PaidAmounts(items);
    if route == [] {
      assert Restricted(paid, {}) == map[];
    } else {
      var front, last := route[..|route| - 1], route[|route| - 1].0;
      CollectedOnRoute(front, items);
      var houses := ToChecklist(route, items);
      assert houses[..|houses| - 1] == ToChecklist(front, items);
      RestrictedGrows(paid, RouteHouses(front), last);
    }
  }

  lemma RestrictedGrows(m: map<Id, int>, keep: set<Id>, k: Id)
    requires k !in keep
    ensures MapSum(Restricted(m, keep + {k})) == MapSum(Restricted(m, keep)) + (if k in m then m[k] else 0)
  {
    if k in m {
      SumWrite(Restricted(m, keep), k, m[k]);
      assert Restricted(m, keep + {k}) == Restricted(m, keep)[k := m[k]];
    } else {
      assert Restricted(m, keep + {k}) == Restricted(m, keep);
    }
  }

  lemma {:induction false} RestrictedSum(m: map<Id, int>, keep: set<Id>)
    requires forall k :: k in m ==> m[k] > 0
    ensures MapSum(Restricted(m, keep)) <= MapSum(m)
    ensures MapSum(Restricted(m, keep)) == MapSum(m) <==> m.Keys <= keep
    decreases m.Keys - keep
  {
    if m.Keys <= keep {
      assert Restricted(m, keep) == m;
    } else {
      var k :| k in m.Keys && k !in keep;
      RestrictedGrows(m, keep, k);
      RestrictedSum(m, keep + {k});
    }
  }

  /**
   The summary shows the money the ledger gets exactly when every paid item's house is still on the
   route: a house taken off the route hides its money from the summary, not from the session total.
   */
  lemma SummaryShowsTotal(route: seq<(Id, Id)>, items: map<Id, Item>)
    requires EachOnce(route) && ItemsValid(items)
    ensures Measured(ToChecklist(route, items)).collected <= PaidSum(items)
    ensures Measured(ToChecklist(route, items)).collected == PaidSum(items)
       <==> forall h :: h in items && items[h].status == Paid ==> h in RouteHouses(route)
  {
    CollectedOnRoute(route, items);
    RestrictedSum(PaidAmounts(items), RouteHouses(route));
  }

  /** The houses the checklist query returns: the tenant's assignable ones, of the area if there is one. */
  predicate OnRoute(houses: map<Id, House>, rt: Id, area: Option<Id>, h: Id) {
    h in houses && houses[h].rt == rt && houses[h].assignable && (area.Some? ==> houses[h].area == area.value)
  }

  ghost predicate Lists(houses: map<Id, House>, rt: Id, area: Option<Id>, route: seq<(Id, Id)>) {
    EachOnce(route) && forall h :: h in RouteHouses(route) <==> OnRoute(houses, rt, area, h)
  }

  /** For a session and the house table as it is now: exactly when each paid house is still on the route. */
  lemma SessionShowsTotal(houses: map<Id, House>, c: Collection, route: seq<(Id, Id)>)
    requires Lists(houses, c.rt, c.area, route) && ItemsValid(c.items)
    ensures Measured(ToChecklist(route, c.items)).collected == PaidSum(c.items)
       <==> forall h :: h in c.items && c.items[h].status == Paid ==>
              && h in houses && houses[h].rt == c.rt && houses[h].assignable && (c.area == None || c.area == Some(houses[h].area))
  {
    SummaryShowsTotal(route, c.items);
  }

  // ----- Pages of outstanding houses -----------------------------------------------------------

  function OutstandingHouses(houses: seq<ChecklistHouse>): seq<ChecklistHouse> {
    Filter(houses, OutstandingHouse)
  }

  function Min(a: int, b: int): int {
    if a < b then a else b
  }

  /** One page, as array slicing cuts it. */
  function Page<T>(s: seq<T>, page: nat, limit: nat): seq<T>
    requires page >= 1 && limit >= 1
  {
    var start := (page - 1) * limit;
    s[Min(start, |s|)..Min(start + limit, |s|)]
  }

  function TotalPages(total: nat, limit: nat): nat
    requires limit >= 1
  {
    (total + limit - 1) / limit
  }

  function FirstPages<T>(s: seq<T>, limit: nat, pages: nat): seq<T>
    requires limit >= 1
  {
    if pages == 0 then [] else FirstPages(s, limit, pages - 1) + Page(s, pages, limit)
  }

  lemma {:induction false} FirstPagesArePrefix<T>(s: seq<T>, limit: nat, pages: nat)
    requires limit >= 1
    ensures FirstPages(s, limit, pages) == s[..Min(pages * limit, |s|)]
  {
    if pages > 0 {
      FirstPagesArePrefix(s, limit, pages - 1);
      assert pages * limit == (pages - 1) * limit + limit;
    }
  }

  lemma TimesMonotone(x: nat, y: nat, n: nat)
    requires x <= y
    ensures x * n <= y * n
  {
  }

  lemma PagesSuffice(total: nat, limit: nat)
    requires limit >= 1
    ensures TotalPages(total, limit) * limit >= total
    ensures TotalPages(total, limit) >= 1 ==> (TotalPages(total, limit) - 1) * limit < total
    ensures total > 0 ==> TotalPages(total, limit) >= 1
  {
    var n, pages := total + limit - 1, TotalPages(total, limit);
    assert n == n / limit * limit + n % limit;
    assert (pages - 1) * limit == pages * limit - limit;
  }

  /** Reading the pages in turn gives the whole list in order, for every page size, with no empty page. */
  lemma PagesRestoreList<T>(s: seq<T>, limit: nat)
    requires limit >= 1
    ensures FirstPages(s, limit, TotalPages(|s|, limit)) == s
    ensures forall p :: 1 <= p <= TotalPages(|s|, limit) ==> Page(s, p, limit) != []
  {
    PagesSuffice(|s|, limit);
    FirstPagesArePrefix(s, limit, TotalPages(|s|, limit));
    forall p | 1 <= p <= TotalPages(|s|, limit) ensures Page(s, p, limit) != [] {
      PageHasItems(s, p, limit);
    }
  }

  lemma PageHasItems<T>(s: seq<T>, page: nat, limit: nat)
    requires limit >= 1 && 1 <= page <= TotalPages(|s|, limit)
    ensures Page(s, page, limit) != []
  {
    PagesSuffice(|s|, limit);
    TimesMonotone(page - 1, TotalPages(|s|, limit) - 1, limit);
  }
}
