/** The figures of a summary as counts over the houses themselves, in total and for one area. */
module SummaryFigures {
  import opened Prelude
  import opened Sums
  import opened Tables
  import opened Summary

  /** The houses of an area, or all if none is given. */
  function OfArea(houses: seq<ChecklistHouse>, area: Option<Id>): seq<ChecklistHouse> {
    if area.Some? then InArea(houses, area.value) else houses
  }

  /** The places of the houses of an area, or of all if none is given. */
  function At(houses: seq<ChecklistHouse>, area: Option<Id>): set<nat> {
    set i: nat | i < |houses| && (area == None || area == Some(houses[i].area))
  }

  function PlacesOf(houses: seq<ChecklistHouse>, area: Option<Id>, p: ChecklistHouse -> bool): set<nat> {
    set i | i in At(houses, area) && p(houses[i])
  }

  /** One more house at the end. */
  lemma OneMore(front: seq<ChecklistHouse>, h: ChecklistHouse, area: Option<Id>)
    ensures OfArea(front + [h], area) == if area == None || area == Some(h.area) then OfArea(front, area) + [h] else OfArea(front, area)
    ensures At(front + [h], area) == At(front, area) + if area == None || area == Some(h.area) then {|front|} else {}
  {
    assert (front + [h])[..|front|] == front;
    assert OfArea(front, area) + [] == OfArea(front, area);
  }

  lemma PlacesGrow(front: seq<ChecklistHouse>, h: ChecklistHouse, area: Option<Id>, p: ChecklistHouse -> bool)
    ensures PlacesOf(front + [h], area, p)
         == PlacesOf(front, area, p) + if (area == None || area == Some(h.area)) && p(h) then {|front|} else {}
  {
    OneMore(front, h, area);
    assert forall i :: i in At(front, area) ==> (front + [h])[i] == front[i];
  }

  lemma {:induction false} FilterCounts(houses: seq<ChecklistHouse>, area: Option<Id>, p: ChecklistHouse -> bool)
    ensures |Filter(OfArea(houses, area), p)| == |PlacesOf(houses, area, p)|
  {
    if houses == [] {
      assert PlacesOf(houses, area, p) == {};
    } else {
      var front, h := houses[..|houses| - 1], houses[|houses| - 1];
      assert houses == front + [h];
      FilterCounts(front, area, p);
      PlacesGrow(front, h, area, p);
      OneMore(front, h, area);
      FilterGrows(OfArea(front, area), h, p);
      assert |front| !in PlacesOf(front, area, p);
    }
  }

  lemma FilterGrows(houses: seq<ChecklistHouse>, h: ChecklistHouse, p: ChecklistHouse -> bool)
    ensures Filter(houses + [h], p) == Filter(houses, p) + if p(h) then [h] else []
  {
    assert (houses + [h])[..|houses + [h]| - 1] == houses;
  }

  lemma {:induction false} Everything(houses: seq<ChecklistHouse>)
    ensures Filter(houses, h => true) == houses
  {
    if houses != [] {
      Everything(houses[..|houses| - 1]);
    }
  }

  lemma LengthCounts(houses: seq<ChecklistHouse>, area: Option<Id>)
    ensures |OfArea(houses, area)| == |At(houses, area)|
  {
    FilterCounts(houses, area, h => true);
    Everything(OfArea(houses, area));
    assert PlacesOf(houses, area, h => true) == At(houses, area);
  }

  /** The amounts of the paid houses, by place; of one area only, if an area is given. */
  function PaidAt(houses: seq<ChecklistHouse>, area: Option<Id>): map<Id, int> {
    map i: nat | i < |houses| && (area == None || area == Some(houses[i].area))
                 && houses[i].item.Some? && houses[i].item.value.status == Paid :: houses[i].item.value.amount
  }

  lemma PaidGrows(houses: seq<ChecklistHouse>, area: Option<Id>)
    requires houses != []
    ensures var n := |houses| - 1;
            MapSum(PaidAt(houses, area))
            == MapSum(PaidAt(houses[..n], area)) + if area == None || area == Some(houses[n].area) then Amount(houses[n]) else 0
  {
    var n := |houses| - 1;
    var before, after := PaidAt(houses[..n], area), PaidAt(houses, area);
    if n in after {
      SumWrite(before, n, after[n]);
      assert after == before[n := after[n]];
    } else {
      assert after == before;
    }
  }

  lemma {:induction false} CollectedSums(houses: seq<ChecklistHouse>, area: Option<Id>)
    ensures Collected(OfArea(houses, area)) == MapSum(PaidAt(houses, area))
  {
    if houses == [] {
      assert PaidAt(houses, area) == map[];
    } else {
      var front, h := houses[..|houses| - 1], houses[|houses| - 1];
      assert houses == front + [h];
      CollectedSums(front, area);
      PaidGrows(houses, area);
      OneMore(front, h, area);
      assert (OfArea(front, area) + [h])[..|OfArea(front, area)|] == OfArea(front, area);
    }
  }

  /** Five figures: houses, those with an item, paid ones, those neither paid nor dispensed, and the amounts paid. */
  ghost predicate CountsPlaces(p: Progress, houses: seq<ChecklistHouse>, area: Option<Id>) {
    var at := At(houses, area);
    && p.houses == |at|
    && p.completed == |set i | i in at && houses[i].item != None|
    && p.paid == |set i | i in at && houses[i].item.Some? && houses[i].item.value.status == Paid|
    && p.outstanding == |set i | i in at && !(houses[i].item.Some? && (houses[i].item.value.status == Paid
                                                                      || houses[i].item.value.status == Dispensation))|
    && p.collected == MapSum(PaidAt(houses, area))
  }

  lemma CompletedCounts(houses: seq<ChecklistHouse>, area: Option<Id>)
    ensures |Filter(OfArea(houses, area), Completed)| == |set i | i in At(houses, area) && houses[i].item != None|
  {
    FilterCounts(houses, area, Completed);
    assert PlacesOf(houses, area, Completed) == set i | i in At(houses, area) && houses[i].item != None;
  }

  lemma PaidCounts(houses: seq<ChecklistHouse>, area: Option<Id>)
    ensures |Filter(OfArea(houses, area), PaidHouse)|
         == |set i | i in At(houses, area) && houses[i].item.Some? && houses[i].item.value.status == Paid|
  {
    FilterCounts(houses, area, PaidHouse);
    assert PlacesOf(houses, area, PaidHouse)
        == set i | i in At(houses, area) && houses[i].item.Some? && houses[i].item.value.status == Paid;
  }

  lemma OutstandingCounts(houses: seq<ChecklistHouse>, area: Option<Id>)
    ensures |Filter(OfArea(houses, area), OutstandingHouse)|
         == |set i | i in At(houses, area) && !(houses[i].item.Some? && (houses[i].item.value.status == Paid
                                                                      || houses[i].item.value.status == Dispensation))|
  {
    FilterCounts(houses, area, OutstandingHouse);
    assert PlacesOf(houses, area, OutstandingHouse)
        == set i | i in At(houses, area) && !(houses[i].item.Some? && (houses[i].item.value.status == Paid
                                                                       || houses[i].item.value.status == Dispensation));
  }

  /** A summary's figures count the houses listed, and those of an area the houses of that area. */
  lemma FiguresCount(houses: seq<ChecklistHouse>, area: Option<Id>)
    ensures CountsPlaces(Measured(OfArea(houses, area)), houses, area)
  {
    LengthCounts(houses, area);
    CompletedCounts(houses, area);
    PaidCounts(houses, area);
    OutstandingCounts(houses, area);
    CollectedSums(houses, area);
  }

  /** The list of outstanding houses keeps, in order, each house that is neither paid nor dispensed. */
  lemma OutstandingInOrder(houses: seq<ChecklistHouse>, h: ChecklistHouse)
    ensures OutstandingHouses([]) == []
    ensures OutstandingHouses(houses + [h])
         == OutstandingHouses(houses)
            + if h.item.Some? && (h.item.value.status == Paid || h.item.value.status == Dispensation) then [] else [h]
  {
    FilterGrows(houses, h, OutstandingHouse);
  }
}
