/** The mobile walk through a checklist: which house comes next, and how the walk ends. */
module Workflow {
  import opened Prelude

  /** A house of the checklist; filled when it has an item. */
  datatype House = House(id: Id, filled: bool)

  predicate DistinctIds(houses: seq<House>) {
    forall i, j :: 0 <= i < j < |houses| ==> houses[i].id != houses[j].id
  }

  function IndexOf(houses: seq<House>, id: Id): (r: int)
    ensures -1 <= r < |houses|
    ensures r >= 0 ==> houses[r].id == id
    ensures forall i :: 0 <= i < (if r < 0 then |houses| else r) ==> houses[i].id != id
  {
    if houses == [] then -1
    else if houses[0].id == id then 0
    else
      var r := IndexOf(houses[1..], id);
      if r < 0 then -1 else r + 1
  }

  /** The first house without an item. */
  function FindUnfilled(houses: seq<House>): (r: Option<House>)
    ensures r.None? <==> forall h :: h in houses ==> h.filled
    ensures r.Some? ==> r.value in houses && !r.value.filled
  {
    if houses == [] then None
    else if !houses[0].filled then Some(houses[0])
    else FindUnfilled(houses[1..])
  }

  function StartIndex(houses: seq<House>, current: Option<Id>): nat
    ensures StartIndex(houses, current) <= |houses|
  {
    if current.Some? then IndexOf(houses, current.value) + 1 else 0
  }

  function GetNextHouseId(houses: seq<House>, current: Option<Id>): Option<Id> {
    if |houses| == 0 then None else
      var start := StartIndex(houses, current);
      var ahead := FindUnfilled(houses[start..]);
      var next := if ahead.Some? then ahead else FindUnfilled(houses);
      if next.Some? then Some(next.value.id)
      else Some(houses[if start < |houses| - 1 then start else |houses| - 1].id)
  }

  function GetCompletedCount(houses: seq<House>): nat {
    if houses == [] then 0 else GetCompletedCount(houses[..|houses| - 1]) + (if houses[|houses| - 1].filled then 1 else 0)
  }

  function Unfilled(houses: seq<House>): set<Id> {
    set h | h in houses && !h.filled :: h.id
  }

  /** Whenever a house is unfilled, an unfilled one is next, wherever the walk stands. */
  lemma NextIsUnfilled(houses: seq<House>, current: Option<Id>)
    ensures Unfilled(houses) != {} ==>
              GetNextHouseId(houses, current).Some? && GetNextHouseId(houses, current).value in Unfilled(houses)
    ensures GetNextHouseId(houses, current).None? <==> houses == []
  {
  }

  /** The walk looks ahead first, and starts over only when everything ahead is filled. */
  lemma NextIsAhead(houses: seq<House>, current: Option<Id>, i: nat)
    requires StartIndex(houses, current) <= i < |houses| && !houses[i].filled
    requires forall j :: StartIndex(houses, current) <= j < i ==> houses[j].filled
    ensures GetNextHouseId(houses, current) == Some(houses[i].id)
  {
    FirstUnfilledAt(houses[StartIndex(houses, current)..], i - StartIndex(houses, current));
  }

  lemma {:induction false} FirstUnfilledAt(houses: seq<House>, i: nat)
    requires i < |houses| && !houses[i].filled && forall j :: 0 <= j < i ==> houses[j].filled
    ensures FindUnfilled(houses) == Some(houses[i])
  {
    if i > 0 {
      assert houses[0].filled;
      forall j | 0 <= j < i - 1 ensures houses[1..][j].filled { assert houses[j + 1].filled; }
      FirstUnfilledAt(houses[1..], i - 1);
    }
  }

  /** The walk stands at house p, the first with the current identifier; at -1 when it has not started, or the house is gone. */
  predicate StandsAt(houses: seq<House>, current: Option<Id>, p: int) {
    && -1 <= p < |houses|
    && (p >= 0 ==> current == Some(houses[p].id))
    && (forall i :: 0 <= i < (if p < 0 then |houses| else p) ==> current != Some(houses[i].id))
  }

  /**
   Where the walk goes next: to the first unfilled house behind its own, else to the first unfilled one of
   all; with everything filled, to the following house, or it stays at the last.
   */
  lemma NextExact(houses: seq<House>, current: Option<Id>, p: int, i: nat)
    requires StandsAt(houses, current, p) && i < |houses|
    ensures p < i && !houses[i].filled && (forall j :: p < j < i ==> houses[j].filled) ==>
              GetNextHouseId(houses, current) == Some(houses[i].id)
    ensures !houses[i].filled && (forall j :: 0 <= j < |houses| && (j > p || j < i) ==> houses[j].filled) ==>
              GetNextHouseId(houses, current) == Some(houses[i].id)
    ensures (forall j :: 0 <= j < |houses| ==> houses[j].filled) ==>
              GetNextHouseId(houses, current) == Some(houses[if p + 1 < |houses| then p + 1 else p].id)
  {
    assert StartIndex(houses, current) == p + 1;
    if p < i && !houses[i].filled && forall j :: p < j < i ==> houses[j].filled {
      NextIsAhead(houses, current, i);
    } else if !houses[i].filled && forall j :: 0 <= j < |houses| && (j > p || j < i) ==> houses[j].filled {
      FirstUnfilledAt(houses, i);
    }
  }

  // ----- Filling house after house -------------------------------------------------------------

  function Fill(houses: seq<House>, id: Id): (r: seq<House>)
    ensures |r| == |houses|
    ensures forall i :: 0 <= i < |r| ==> r[i] == if houses[i].id == id then House(id, true) else houses[i]
  {
    seq(|houses|, i requires 0 <= i < |houses| => if houses[i].id == id then House(id, true) else houses[i])
  }

  lemma FillRemoves(houses: seq<House>, id: Id)
    requires DistinctIds(houses)
    ensures DistinctIds(Fill(houses, id)) && Unfilled(Fill(houses, id)) == Unfilled(houses) - {id}
  {
  }

  /** The houses visited when the next house is filled again and again until none is left. */
  ghost function Visits(houses: seq<House>, current: Option<Id>): seq<Id>
    requires DistinctIds(houses)
    decreases |Unfilled(houses)|
  {
    if Unfilled(houses) == {} then [] else
      NextIsUnfilled(houses, current);
      var id := GetNextHouseId(houses, current).value;
      FillRemoves(houses, id);
      [id] + Visits(Fill(houses, id), Some(id))
  }

  function FillAll(houses: seq<House>, ids: seq<Id>): seq<House>
    decreases |ids|
  {
    if ids == [] then houses else FillAll(Fill(houses, ids[0]), ids[1..])
  }

  lemma VisitsUnfold(houses: seq<House>, current: Option<Id>) returns (id: Id)
    requires DistinctIds(houses) && Unfilled(houses) != {}
    ensures id in Unfilled(houses) && DistinctIds(Fill(houses, id)) && Unfilled(Fill(houses, id)) == Unfilled(houses) - {id}
    ensures Visits(houses, current) == [id] + Visits(Fill(houses, id), Some(id))
  {
    NextIsUnfilled(houses, current);
    id := GetNextHouseId(houses, current).value;
    FillRemoves(houses, id);
  }

  /** Each member once. */
  ghost predicate Lists(ids: seq<Id>, all: set<Id>) {
    && |ids| == |all| && (forall id :: id in ids <==> id in all)
    && (forall i, j :: 0 <= i < j < |ids| ==> ids[i] != ids[j])
  }

  lemma ListsOneMore(id: Id, rest: seq<Id>, all: set<Id>)
    requires id in all && Lists(rest, all - {id})
    ensures Lists([id] + rest, all)
  {
    assert all == (all - {id}) + {id};
    forall x ensures x in [id] + rest <==> x in all {
      assert x in [id] + rest <==> x == id || x in rest;
    }
  }

  /**
   From any house, the walk visits every unfilled house, none twice and no other, takes exactly as
   many steps as there are unfilled houses, and ends with the checklist complete.
   */
  lemma {:induction false} WalkCompletes(houses: seq<House>, current: Option<Id>)
    requires DistinctIds(houses)
    ensures var visits := Visits(houses, current);
            && |visits| == |Unfilled(houses)|
            && (forall id :: id in visits <==> id in Unfilled(houses))
            && (forall i, j :: 0 <= i < j < |visits| ==> visits[i] != visits[j])
            && Unfilled(FillAll(houses, visits)) == {}
    decreases |Unfilled(houses)|
  {
    if Unfilled(houses) != {} {
      var id := VisitsUnfold(houses, current);
      var rest := Visits(Fill(houses, id), Some(id));
      WalkCompletes(Fill(houses, id), Some(id));
      ListsOneMore(id, rest, Unfilled(houses));
      FilledRest(houses, id, rest);
    }
  }

  lemma FilledRest(houses: seq<House>, id: Id, rest: seq<Id>)
    ensures FillAll(houses, [id] + rest) == FillAll(Fill(houses, id), rest)
  {
    assert ([id] + rest)[1..] == rest;
  }

  lemma LastUnfilled(front: seq<House>, last: House)
    requires DistinctIds(front + [last])
    ensures DistinctIds(front)
    ensures Unfilled(front + [last]) == if last.filled then Unfilled(front) else Unfilled(front) + {last.id}
    ensures last.id !in Unfilled(front)
  {
    var houses := front + [last];
    forall i | 0 <= i < |front| ensures front[i].id != last.id {
      assert houses[i].id != houses[|front|].id;
    }
    forall i, j | 0 <= i < j < |front| ensures front[i].id != front[j].id {
      assert houses[i].id != houses[j].id;
    }
  }

  /** Completed and unfilled houses add up to the checklist. */
  lemma {:induction false} CompletedAndUnfilled(houses: seq<House>)
    requires DistinctIds(houses)
    ensures GetCompletedCount(houses) + |Unfilled(houses)| == |houses|
  {
    if houses != [] {
      var front, last := houses[..|houses| - 1], houses[|houses| - 1];
      assert houses == front + [last];
      LastUnfilled(front, last);
      CompletedAndUnfilled(front);
    }
  }

  /** So the walk ends with every house counted as completed, after exactly the missing number of steps. */
  lemma StepsAreMissingHouses(houses: seq<House>, current: Option<Id>)
    requires DistinctIds(houses)
    ensures |Visits(houses, current)| == |houses| - GetCompletedCount(houses)
    ensures var done := FillAll(houses, Visits(houses, current));
            |done| == |houses| && GetCompletedCount(done) == |houses|
  {
    WalkCompletes(houses, current);
    CompletedAndUnfilled(houses);
    FillAllKeeps(houses, Visits(houses, current));
    CompletedAndUnfilled(FillAll(houses, Visits(houses, current)));
  }

  lemma {:induction false} FillAllKeeps(houses: seq<House>, ids: seq<Id>)
    requires DistinctIds(houses)
    ensures DistinctIds(FillAll(houses, ids)) && |FillAll(houses, ids)| == |houses|
    decreases |ids|
  {
    if ids != [] {
      FillRemoves(houses, ids[0]);
      FillAllKeeps(Fill(houses, ids[0]), ids[1..]);
    }
  }
}
