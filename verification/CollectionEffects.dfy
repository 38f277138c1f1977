/**
 Collection calls in terms of the tables alone: exactly when each succeeds, and what it then stores. The
 conditions are written out column by column, independently of the steps that check them.
 */
module CollectionEffects {
  import opened Prelude
  import opened Sums
  import opened Tables
  import opened FinanceOps
  import opened CollectionOps
  import opened CollectionLaws
  import opened System
  import opened SystemLaws
  import opened FinanceLaws
  import opened ApprovalOps
  import opened CollectionTheorems

  // ----- Conditions ----------------------------------------------------------------------------

  predicate OfTenant(db: Db, rt: Id, c: Id) {
    c in db.collections && db.collections[c].rt == rt
  }

  predicate StillOpen(c: Collection) {
    c.status == CollectionStatus.Draft || c.status == InProgress || c.status == CollectionStatus.Rejected
  }

  /** The tenant's session, still open, in the hands of its officer or of somebody who validates. */
  predicate MayEdit(db: Db, actor: Actor, c: Id) {
    OfTenant(db, actor.rt, c) && (actor.mayValidate || actor.membership == db.collections[c].officer) && StillOpen(db.collections[c])
  }

  /** A whole amount of one to twelve digits. */
  predicate WholeTotal(total: int) {
    total % 100 == 0 && 1 <= total / 100 <= 999999999999
  }

  /** PER_HOUSE takes no total, BULK_TOTAL a whole one or none, HYBRID is not accepted. */
  predicate InputFits(mode: CollectionMode, total: Option<int>) {
    match mode
    case PerHouse => total == None
    case BulkTotal => total == None || WholeTotal(total.value)
    case Hybrid => false
  }

  predicate OfficerFits(db: Db, rt: Id, m: Id) {
    m in db.master.members && db.master.members[m].rt == rt && db.master.members[m].active
  }

  predicate RouteFits(db: Db, rt: Id, area: Option<Id>) {
    area == None || (area.value in db.master.areas && db.master.areas[area.value].rt == rt && db.master.areas[area.value].active)
  }

  /** A session that is drafted, in progress or submitted, on this date and route. */
  predicate Occupies(c: Collection, rt: Id, date: Id, area: Option<Id>) {
    && c.rt == rt && c.date == date && c.area == area
    && (c.status == CollectionStatus.Draft || c.status == InProgress || c.status == Submitted)
  }

  predicate RouteAlone(db: Db, rt: Id, date: Id, area: Option<Id>, but: Option<Id>) {
    forall d :: d in db.collections && Some(d) != but ==> !Occupies(db.collections[d], rt, date, area)
  }

  lemma AloneIsNoDuplicate(db: Db, rt: Id, date: Id, area: Option<Id>, but: Option<Id>)
    ensures Duplicates(db.collections, rt, date, area, but) == {} <==> RouteAlone(db, rt, date, area, but)
  {
    if d :| d in db.collections && Some(d) != but && Occupies(db.collections[d], rt, date, area) {
      assert d in Duplicates(db.collections, rt, date, area, but);
    }
  }

  /** A call that stored one row, and nothing else. */
  ghost predicate Stores(db: Db, step: Outcome, c: Id, row: Collection) {
    step == Outcome(db.(collections := db.collections[c := row]), Done(c))
  }

  ghost predicate RefusedStep(db: Db, step: Outcome) {
    step.reply.Refused? && step.db == db
  }

  // ----- Sessions ------------------------------------------------------------------------------

  /** A session is created exactly on a free route, for an officer and area in use, with a fitting mode and total. */
  lemma CreateExact(db: Db, actor: Actor, c: Id, cmd: CreateCommand)
    ensures var step := CreateStep(db, actor, c, cmd);
            var mode := if cmd.mode.Some? then cmd.mode.value else PerHouse;
            if && InputFits(mode, cmd.total) && OfficerFits(db, actor.rt, cmd.officer) && RouteFits(db, actor.rt, cmd.area)
               && RouteAlone(db, actor.rt, cmd.date, cmd.area, None) && c !in db.collections
            then Stores(db, step, c, Collection(actor.rt, cmd.officer, cmd.date, cmd.area, mode, CollectionStatus.Draft,
                                                if cmd.total.Some? then cmd.total.value else 0, None, false, map[]))
            else RefusedStep(db, step)
  {
    AloneIsNoDuplicate(db, actor.rt, cmd.date, cmd.area, None);
  }

  /** What an update asks of the session and of the tables it names. */
  predicate UpdateFits(db: Db, rt: Id, c: Id, cmd: UpdateCommand)
    requires c in db.collections
  {
    var row := db.collections[c];
    var mode := if cmd.mode.Some? then cmd.mode.value else row.mode;
    var date := if cmd.date.Some? then cmd.date.value else row.date;
    var area := if cmd.area.Some? then cmd.area.value else row.area;
    && StillOpen(row) && InputFits(mode, cmd.total)
    && (mode != row.mode ==> row.items == map[])
    && (cmd.officer.Some? ==> OfficerFits(db, rt, cmd.officer.value))
    && RouteFits(db, rt, area)
    && (cmd.officer.Some? || cmd.date.Some? || cmd.area.Some? ==> RouteAlone(db, rt, date, area, Some(c)))
    && (cmd.area == Some(None) ==> RouteAlone(db, rt, date, row.area, Some(c)))
  }

  function UpdatedRow(row: Collection, cmd: UpdateCommand): Collection {
    Collection(row.rt,
      if cmd.officer.Some? then cmd.officer.value else row.officer,
      if cmd.date.Some? then cmd.date.value else row.date,
      if cmd.area.Some? then cmd.area.value else row.area,
      if cmd.mode.Some? then cmd.mode.value else row.mode,
      row.status,
      if cmd.total.Some? then cmd.total.value else if cmd.mode == Some(PerHouse) then 0 else row.total,
      row.submitRequest, row.wasRejected, row.items)
  }

  lemma UpdateExact(db: Db, actor: Actor, c: Id, cmd: UpdateCommand)
    ensures var step := UpdateStep(db, actor, c, cmd);
            if OfTenant(db, actor.rt, c) && UpdateFits(db, actor.rt, c, cmd) then Stores(db, step, c, UpdatedRow(db.collections[c], cmd))
            else RefusedStep(db, step)
  {
    if OfTenant(db, actor.rt, c) {
      var row := db.collections[c];
      AloneIsNoDuplicate(db, actor.rt, cmd.date.GetOr(row.date), cmd.area.GetOr(row.area), Some(c));
      AloneIsNoDuplicate(db, actor.rt, cmd.date.GetOr(row.date), ServiceArea(row, cmd), Some(c));
    }
  }

  lemma StatusCallsExact(db: Db, actor: Actor, c: Id)
    ensures var step := StartStep(db, actor, c);
            if MayEdit(db, actor, c) && db.collections[c].status != InProgress
            then Stores(db, step, c, db.collections[c].(status := InProgress)) else RefusedStep(db, step)
    ensures var step := GenerateStep(db, actor, c);
            if MayEdit(db, actor, c) && db.collections[c].mode != BulkTotal
            then Stores(db, step, c, db.collections[c].(status := InProgress)) else RefusedStep(db, step)
    ensures var step := CancelCollectionStep(db, actor, c);
            if OfTenant(db, actor.rt, c) && db.collections[c].status != CollectionStatus.Validated
            then Stores(db, step, c, db.collections[c].(status := CollectionStatus.Cancelled)) else RefusedStep(db, step)
    ensures var step := RejectStep(db, actor, c);
            if OfTenant(db, actor.rt, c) && db.collections[c].status == Submitted
            then Stores(db, step, c, db.collections[c].(status := CollectionStatus.Rejected, wasRejected := true)) else RefusedStep(db, step)
  {
  }

  /** Why the officer's own calls are turned away before anything else is looked at. */
  predicate TurnedAway(db: Db, actor: Actor, c: Id, reply: Reply) {
    && (reply == Refused(NotFound) <==> !OfTenant(db, actor.rt, c))
    && (reply == Refused(NotOwner) <==>
          OfTenant(db, actor.rt, c) && !actor.mayValidate && actor.membership != db.collections[c].officer)
    && (OfTenant(db, actor.rt, c) && (actor.mayValidate || actor.membership == db.collections[c].officer) && !StillOpen(db.collections[c]) ==>
          reply == Refused(WrongStatus))
  }

  lemma OwnCallsTurnedAway(db: Db, actor: Actor, c: Id, batch: seq<ItemInput>, total: int, request: Option<string>)
    ensures TurnedAway(db, actor, c, StartStep(db, actor, c).reply) && TurnedAway(db, actor, c, GenerateStep(db, actor, c).reply)
    ensures TurnedAway(db, actor, c, UpsertStep(db, actor, c, batch).reply)
    ensures TurnedAway(db, actor, c, SetBulkStep(db, actor, c, total).reply)
    ensures TurnedAway(db, actor, c, SubmitStep(db, actor, c, request).reply)
  {
    OwnEditReasons(db, actor, c);
  }

  lemma OwnEditReasons(db: Db, actor: Actor, c: Id)
    ensures OwnEditRefusal(db, actor, c) == None <==> MayEdit(db, actor, c)
    ensures OwnEditRefusal(db, actor, c) == Some(NotFound) <==> !OfTenant(db, actor.rt, c)
    ensures OwnEditRefusal(db, actor, c) == Some(NotOwner)
       <==> OfTenant(db, actor.rt, c) && !actor.mayValidate && actor.membership != db.collections[c].officer
    ensures OwnEditRefusal(db, actor, c) in {None, Some(NotFound), Some(NotOwner), Some(WrongStatus)}
  {
  }

  // ----- Items ---------------------------------------------------------------------------------

  /** The last entry of the batch for this house. */
  predicate LastFor(batch: seq<ItemInput>, i: nat, h: Id) {
    i < |batch| && batch[i].house == h && forall j :: i < j < |batch| ==> batch[j].house != h
  }

  predicate Named(batch: seq<ItemInput>, h: Id) {
    exists i :: 0 <= i < |batch| && batch[i].house == h
  }

  /** The items are those there were, overwritten house by house by the batch, the last entry of a house winning. */
  ghost predicate Overwritten(before: map<Id, Item>, batch: seq<ItemInput>, after: map<Id, Item>) {
    && (forall h :: h in after <==> h in before || Named(batch, h))
    && (forall h :: h in before && !Named(batch, h) ==> after[h] == before[h])
    && (forall i: nat, h: Id :: LastFor(batch, i, h) ==> h in after && after[h] == Item(batch[i].status, batch[i].amount))
  }

  lemma {:induction false} UpsertedOverwrites(items: map<Id, Item>, batch: seq<ItemInput>)
    ensures Overwritten(items, batch, Upserted(items, batch))
  {
    if batch != [] {
      var front, last := batch[..|batch| - 1], batch[|batch| - 1];
      UpsertedOverwrites(items, front);
      OneMoreEntry(items, front, last, Upserted(items, front));
      assert batch == front + [last];
    }
  }

  lemma OneMoreEntry(items: map<Id, Item>, front: seq<ItemInput>, last: ItemInput, before: map<Id, Item>)
    requires Overwritten(items, front, before)
    ensures Overwritten(items, front + [last], before[last.house := Item(last.status, last.amount)])
  {
    var batch, after := front + [last], before[last.house := Item(last.status, last.amount)];
    forall h ensures Named(batch, h) <==> Named(front, h) || h == last.house {
      NamedGrows(front, last, h);
    }
    forall i: nat, h | LastFor(batch, i, h) ensures h in after && after[h] == Item(batch[i].status, batch[i].amount) {
      LastOfMore(front, last, i, h);
    }
  }

  lemma LastOfMore(front: seq<ItemInput>, last: ItemInput, i: nat, h: Id)
    requires LastFor(front + [last], i, h)
    ensures if i < |front| then LastFor(front, i, h) && last.house != h && (front + [last])[i] == front[i]
            else i == |front| && last.house == h && (front + [last])[i] == last
  {
    var batch := front + [last];
    assert forall j :: 0 <= j < |front| ==> batch[j] == front[j];
    assert batch[|front|] == last;
  }

  lemma NamedGrows(front: seq<ItemInput>, last: ItemInput, h: Id)
    ensures Named(front + [last], h) <==> Named(front, h) || h == last.house
  {
    var batch := front + [last];
    if i :| 0 <= i < |front| && front[i].house == h {
      assert batch[i].house == h;
    }
    assert batch[|front|] == last;
  }

  /** Among different houses every entry is the last of its house. */
  lemma DistinctAreLast(batch: seq<ItemInput>)
    requires forall i, j :: 0 <= i < j < |batch| ==> batch[i].house != batch[j].house
    ensures forall i :: 0 <= i < |batch| ==> LastFor(batch, i, batch[i].house)
  {
  }

  /** Each entry is the item of its house; every other house is as before; there are no more. */
  ghost predicate EntryByEntry(before: map<Id, Item>, batch: seq<ItemInput>, after: map<Id, Item>) {
    && (forall h :: h in after <==> h in before || Named(batch, h))
    && (forall i :: 0 <= i < |batch| ==> after[batch[i].house] == Item(batch[i].status, batch[i].amount))
    && (forall h :: h in before && !Named(batch, h) ==> after[h] == before[h])
  }

  lemma DistinctByEntry(before: map<Id, Item>, batch: seq<ItemInput>, after: map<Id, Item>)
    requires forall i, j :: 0 <= i < j < |batch| ==> batch[i].house != batch[j].house
    requires Overwritten(before, batch, after)
    ensures EntryByEntry(before, batch, after)
  {
    DistinctAreLast(batch);
  }

  /** Amounts fit statuses: paid is positive, anything else is zero. */
  predicate EntryFits(item: ItemInput) {
    if item.status == Paid then item.amount > 0 else item.amount == 0
  }

  /** The house is the tenant's, can be assigned and is on the route; a resident named with it lives there and is active. */
  predicate HouseFits(db: Db, rt: Id, area: Option<Id>, item: ItemInput) {
    && item.house in db.master.houses
    && db.master.houses[item.house].rt == rt && db.master.houses[item.house].assignable
    && (area == None || area == Some(db.master.houses[item.house].area))
    && (item.resident == None
        || (&& item.resident.value in db.master.residents
            && var resident := db.master.residents[item.resident.value];
               resident.rt == rt && resident.house == item.house && resident.active))
  }

  predicate BatchFits(db: Db, rt: Id, area: Option<Id>, batch: seq<ItemInput>) {
    && (forall i, j :: 0 <= i < j < |batch| ==> batch[i].house != batch[j].house)
    && (forall i :: 0 <= i < |batch| ==> EntryFits(batch[i]))
    && (forall i :: 0 <= i < |batch| ==> HouseFits(db, rt, area, batch[i]))
  }

  lemma FitBatch(db: Db, actor: Actor, c: Id, batch: seq<ItemInput>)
    ensures UpsertRefusal(db, actor, c, batch) == None
       <==> MayEdit(db, actor, c) && db.collections[c].mode != BulkTotal && BatchFits(db, actor.rt, db.collections[c].area, batch)
  {
    OwnEditReasons(db, actor, c);
    forall i | 0 <= i < |batch| ensures ValidItemAmount(batch[i]) <==> EntryFits(batch[i]) {}
    if OfTenant(db, actor.rt, c) {
      forall i | 0 <= i < |batch|
        ensures ItemAssignable(db, actor.rt, db.collections[c].area, batch[i]) <==> HouseFits(db, actor.rt, db.collections[c].area, batch[i]) {}
    }
  }

  /**
   Items are upserted exactly when the session may be edited, keeps items, and every entry fits, each
   for a house of its own. Then each entry is the item of its house, all other houses keep theirs, and
   the total is the paid sum of what is stored.
   */
  lemma UpsertExact(db: Db, actor: Actor, c: Id, batch: seq<ItemInput>)
    ensures var step := UpsertStep(db, actor, c, batch);
            if MayEdit(db, actor, c) && db.collections[c].mode != BulkTotal && BatchFits(db, actor.rt, db.collections[c].area, batch) then
              && c in step.db.collections
              && var row := step.db.collections[c];
                 && Stores(db, step, c, db.collections[c].(items := row.items, total := PaidSum(row.items), status := InProgress))
                 && EntryByEntry(db.collections[c].items, batch, row.items)
            else RefusedStep(db, step)
  {
    FitBatch(db, actor, c, batch);
    if MayEdit(db, actor, c) && db.collections[c].mode != BulkTotal && BatchFits(db, actor.rt, db.collections[c].area, batch) {
      var items := Upserted(db.collections[c].items, batch);
      UpsertedOverwrites(db.collections[c].items, batch);
      DistinctByEntry(db.collections[c].items, batch, items);
    }
  }

  /** The paid sum counts what is paid, and nothing else, of each item. */
  lemma PaidSumCounts(items: map<Id, Item>, h: Id, item: Item)
    requires h !in items
    ensures PaidSum(map[]) == 0
    ensures PaidSum(items[h := item]) == PaidSum(items) + if item.status == Paid then item.amount else 0
  {
    var before, after := PaidAmounts(items), PaidAmounts(items[h := item]);
    assert PaidAmounts(map[]) == map[];
    if item.status == Paid {
      SumWrite(before, h, item.amount);
      assert after == before[h := item.amount];
    } else {
      assert after == before;
    }
  }

  // ----- Totals and submission -------------------------------------------------------------------

  lemma SetBulkExact(db: Db, actor: Actor, c: Id, total: int)
    ensures var step := SetBulkStep(db, actor, c, total);
            if MayEdit(db, actor, c) && db.collections[c].mode == BulkTotal && WholeTotal(total)
            then Stores(db, step, c, db.collections[c].(total := total, status := InProgress))
            else RefusedStep(db, step)
  {
    OwnEditReasons(db, actor, c);
  }

  /** PER_HOUSE needs items, BULK_TOTAL a whole total, HYBRID would need both. */
  predicate Ready(mode: CollectionMode, total: int, items: map<Id, Item>) {
    (mode != BulkTotal ==> items != map[]) && (mode != PerHouse ==> WholeTotal(total))
  }

  lemma ReadyExact(c: Collection, total: int)
    ensures SubmissionReady(c.mode, total, |c.items|) <==> Ready(c.mode, total, c.items)
  {
    assert |c.items| == 0 <==> c.items == map[];
  }

  /** The total a submission calculates: what was entered as a whole, or the paid sum. */
  ghost function Calculated(c: Collection): int {
    if c.mode == BulkTotal then c.total else PaidSum(c.items)
  }

  ghost predicate RequestFree(db: Db, rt: Id, c: Id, request: Option<string>) {
    request == None || forall d :: d in db.collections && d != c && db.collections[d].rt == rt ==> db.collections[d].submitRequest != request
  }

  /** A session is submitted exactly if it may be edited, is ready before and after its total is calculated, and the request is new. */
  lemma SubmitExact(db: Db, actor: Actor, c: Id, request: Option<string>)
    ensures var step := SubmitStep(db, actor, c, request);
            if && MayEdit(db, actor, c)
               && Ready(db.collections[c].mode, db.collections[c].total, db.collections[c].items)
               && Ready(db.collections[c].mode, Calculated(db.collections[c]), db.collections[c].items)
               && RequestFree(db, actor.rt, c, request)
            then
              var row := db.collections[c];
              Stores(db, step, c, row.(status := Submitted, total := Calculated(row),
                                       submitRequest := if request == None then row.submitRequest else request))
            else RefusedStep(db, step)
  {
    OwnEditReasons(db, actor, c);
    if OfTenant(db, actor.rt, c) {
      ReadyExact(db.collections[c], db.collections[c].total);
      ReadyExact(db.collections[c], SubmittedTotal(db.collections[c]));
    }
  }

  lemma ValidateExact(db: Db, actor: Actor, c: Id)
    ensures var step := ValidateStep(db, actor, c);
            if && OfTenant(db, actor.rt, c) && db.collections[c].status == Submitted
               && Ready(db.collections[c].mode, db.collections[c].total, db.collections[c].items)
            then Stores(db, step, c, db.collections[c].(status := CollectionStatus.Validated))
            else RefusedStep(db, step)
  {
    if OfTenant(db, actor.rt, c) {
      ReadyExact(db.collections[c], db.collections[c].total);
    }
  }

  // ----- Reasons -------------------------------------------------------------------------------

  /** Why a mode and total are turned down: the mode is not accepted, or it does not take this total. */
  lemma InputReasons(mode: CollectionMode, total: Option<int>)
    ensures ModeInputRefusal(mode, total)
         == if InputFits(mode, total) then None else Some(if mode == Hybrid then WrongMode else BadAmount)
  {
  }

  /** The first thing that is wrong with a new session is the answer. */
  lemma CreateReasons(db: Db, actor: Actor, c: Id, cmd: CreateCommand)
    ensures var mode := if cmd.mode.Some? then cmd.mode.value else PerHouse;
            CreateStep(db, actor, c, cmd).reply
            == if !InputFits(mode, cmd.total) then Refused(if mode == Hybrid then WrongMode else BadAmount)
               else if !OfficerFits(db, actor.rt, cmd.officer) then Refused(InactiveMember)
               else if !RouteFits(db, actor.rt, cmd.area) then Refused(InactiveArea)
               else if !RouteAlone(db, actor.rt, cmd.date, cmd.area, None) then Refused(DuplicateRoute)
               else if c in db.collections then Refused(UniqueViolation)
               else Done(c)
  {
    AloneIsNoDuplicate(db, actor.rt, cmd.date, cmd.area, None);
  }

  /** An update that names no route falls back to the present one before it looks for duplicates, and looks again at the route it stores. */
  lemma UpdateReasons(db: Db, actor: Actor, c: Id, cmd: UpdateCommand)
    requires OfTenant(db, actor.rt, c)
    ensures var row := db.collections[c];
            var mode := if cmd.mode.Some? then cmd.mode.value else row.mode;
            var date := if cmd.date.Some? then cmd.date.value else row.date;
            var area := if cmd.area.Some? then cmd.area.value else row.area;
            var checked := if area == None then row.area else area;
            UpdateStep(db, actor, c, cmd).reply
            == if !StillOpen(row) then Refused(WrongStatus)
               else if !InputFits(mode, cmd.total) then Refused(if mode == Hybrid then WrongMode else BadAmount)
               else if mode != row.mode && row.items != map[] then Refused(ItemsExist)
               else if cmd.officer.Some? && !OfficerFits(db, actor.rt, cmd.officer.value) then Refused(InactiveMember)
               else if cmd.area.Some? && !RouteFits(db, actor.rt, area) then Refused(InactiveArea)
               else if (cmd.date.Some? || cmd.area.Some?) && !RouteAlone(db, actor.rt, date, checked, Some(c)) then Refused(DuplicateRoute)
               else if !RouteFits(db, actor.rt, area) then Refused(InactiveArea)
               else if (cmd.officer.Some? || cmd.date.Some? || cmd.area.Some?) && !RouteAlone(db, actor.rt, date, area, Some(c))
               then Refused(DuplicateRoute)
               else Done(c)
  {
    var row := db.collections[c];
    InputReasons(cmd.mode.GetOr(row.mode), cmd.total);
    AloneIsNoDuplicate(db, actor.rt, cmd.date.GetOr(row.date), cmd.area.GetOr(row.area), Some(c));
    AloneIsNoDuplicate(db, actor.rt, cmd.date.GetOr(row.date), ServiceArea(row, cmd), Some(c));
  }

  lemma UpsertReasons(db: Db, actor: Actor, c: Id, batch: seq<ItemInput>)
    requires MayEdit(db, actor, c)
    ensures UpsertStep(db, actor, c, batch).reply
         == if db.collections[c].mode == BulkTotal then Refused(WrongMode)
            else if exists i, j :: 0 <= i < j < |batch| && batch[i].house == batch[j].house then Refused(BadBatch)
            else if exists i :: 0 <= i < |batch| && !EntryFits(batch[i]) then Refused(BadAmount)
            else if exists i :: 0 <= i < |batch| && !HouseFits(db, actor.rt, db.collections[c].area, batch[i]) then Refused(NotAssignable)
            else Done(c)
  {
    forall i | 0 <= i < |batch| ensures ValidItemAmount(batch[i]) <==> EntryFits(batch[i]) {}
    forall i | 0 <= i < |batch|
      ensures ItemAssignable(db, actor.rt, db.collections[c].area, batch[i]) <==> HouseFits(db, actor.rt, db.collections[c].area, batch[i]) {}
  }

  lemma OtherReasons(db: Db, actor: Actor, c: Id, total: int, request: Option<string>)
    requires MayEdit(db, actor, c)
    ensures var row := db.collections[c];
            && GenerateStep(db, actor, c).reply == (if row.mode == BulkTotal then Refused(WrongMode) else Done(c))
            && StartStep(db, actor, c).reply == (if row.status == InProgress then Refused(WrongStatus) else Done(c))
            && SetBulkStep(db, actor, c, total).reply
               == (if row.mode != BulkTotal then Refused(WrongMode) else if !WholeTotal(total) then Refused(BadAmount) else Done(c))
            && SubmitStep(db, actor, c, request).reply
               == (if !Ready(row.mode, row.total, row.items) || !Ready(row.mode, Calculated(row), row.items) then Refused(NotReady)
                   else if !RequestFree(db, actor.rt, c, request) then Refused(UniqueViolation)
                   else Done(c))
  {
    ReadyExact(db.collections[c], db.collections[c].total);
    ReadyExact(db.collections[c], SubmittedTotal(db.collections[c]));
  }

  /** The treasurer's calls and the cancellation. */
  lemma DecisionReasons(db: Db, actor: Actor, c: Id)
    ensures ValidateStep(db, actor, c).reply
         == if !OfTenant(db, actor.rt, c) then Refused(NotFound)
            else if db.collections[c].status != Submitted then Refused(WrongStatus)
            else if !Ready(db.collections[c].mode, db.collections[c].total, db.collections[c].items) then Refused(NotReady)
            else Done(c)
    ensures RejectStep(db, actor, c).reply
         == if !OfTenant(db, actor.rt, c) then Refused(NotFound)
            else if db.collections[c].status != Submitted then Refused(WrongStatus)
            else Done(c)
    ensures CancelCollectionStep(db, actor, c).reply
         == if !OfTenant(db, actor.rt, c) then Refused(NotFound)
            else if db.collections[c].status == CollectionStatus.Validated then Refused(WrongStatus)
            else Done(c)
  {
    if OfTenant(db, actor.rt, c) {
      ReadyExact(db.collections[c], db.collections[c].total);
    }
  }

  /** Each call is its own step. */
  lemma CallsExact(db: Db, actor: Actor, c: Id, batch: seq<ItemInput>, total: int, request: Option<string>)
    ensures CollectionStep(db, StartCollection(actor, c)) == StartStep(db, actor, c)
    ensures CollectionStep(db, GenerateChecklist(actor, c)) == GenerateStep(db, actor, c)
    ensures CollectionStep(db, UpsertItems(actor, c, batch)) == UpsertStep(db, actor, c, batch)
    ensures CollectionStep(db, SetBulkTotal(actor, c, total)) == SetBulkStep(db, actor, c, total)
    ensures CollectionStep(db, SubmitCollection(actor, c, request)) == SubmitStep(db, actor, c, request)
    ensures CollectionStep(db, ValidateCollection(actor, c)) == ValidateStep(db, actor, c)
    ensures CollectionStep(db, RejectCollection(actor, c)) == RejectStep(db, actor, c)
    ensures CollectionStep(db, CancelCollection(actor, c)) == CancelCollectionStep(db, actor, c)
  {
  }

  // ----- Where an item comes from ----------------------------------------------------------------

  /** The call upserts items of session c with an entry that says exactly this of house h. */
  predicate Enters(op: Op, c: Id, h: Id, item: Item) {
    && op.Collect? && op.collect.UpsertItems? && op.collect.collection == c
    && exists i :: 0 <= i < |op.collect.batch| && op.collect.batch[i].house == h
                   && Item(op.collect.batch[i].status, op.collect.batch[i].amount) == item
  }

  lemma NewItem(db: Db, op: Op, c: Id, h: Id)
    requires Sound(db) && c in Step(db, op).db.collections && h in Step(db, op).db.collections[c].items
    ensures || Enters(op, c, h, Step(db, op).db.collections[c].items[h])
            || (c in db.collections && h in db.collections[c].items && db.collections[c].items[h] == Step(db, op).db.collections[c].items[h])
  {
    match op
    case Finance(f) =>
      var w := FinanceStepWrites(db, f);
      AppliedFrame(db, w);
    case Approve(p) => ApprovalLeavesCollections(db, p);
    case Collect(call) => NewItemOfCall(db, call, c, h);
    case SetMaster(_) =>
  }

  lemma NewItemOfCall(db: Db, call: CollectionOp, c: Id, h: Id)
    requires c in CollectionStep(db, call).db.collections && h in CollectionStep(db, call).db.collections[c].items
    ensures || Enters(Collect(call), c, h, CollectionStep(db, call).db.collections[c].items[h])
            || (c in db.collections && h in db.collections[c].items
                && db.collections[c].items[h] == CollectionStep(db, call).db.collections[c].items[h])
  {
    match call
    case UpsertItems(actor, d, batch) => NewItemOfUpsert(db, actor, d, batch, c, h);
    case CreateCollection(actor, d, cmd) => CreateExact(db, actor, d, cmd);
    case UpdateCollection(actor, d, cmd) => UpdateExact(db, actor, d, cmd);
    case SetBulkTotal(actor, d, total) => SetBulkExact(db, actor, d, total);
    case SubmitCollection(actor, d, request) => SubmitExact(db, actor, d, request);
    case ValidateCollection(actor, d) => ValidateExact(db, actor, d);
    case StartCollection(actor, d) => StatusCallsExact(db, actor, d);
    case CancelCollection(actor, d) => StatusCallsExact(db, actor, d);
    case GenerateChecklist(actor, d) => StatusCallsExact(db, actor, d);
    case RejectCollection(actor, d) => StatusCallsExact(db, actor, d);
  }

  lemma NewItemOfUpsert(db: Db, actor: Actor, d: Id, batch: seq<ItemInput>, c: Id, h: Id)
    requires c in UpsertStep(db, actor, d, batch).db.collections && h in UpsertStep(db, actor, d, batch).db.collections[c].items
    ensures || Enters(Collect(UpsertItems(actor, d, batch)), c, h, UpsertStep(db, actor, d, batch).db.collections[c].items[h])
            || (c in db.collections && h in db.collections[c].items
                && db.collections[c].items[h] == UpsertStep(db, actor, d, batch).db.collections[c].items[h])
  {
    UpsertExact(db, actor, d, batch);
    if c == d && Named(batch, h) {
      var i :| 0 <= i < |batch| && batch[i].house == h;
    }
  }

  /** Behind every item of a run there is a call that entered it, house, status and amount. */
  lemma {:induction false} ItemWasEntered(start: Db, ops: seq<Op>, c: Id, h: Id) returns (k: nat)
    requires Sound(start) && c !in start.collections
    requires c in Run(start, ops).collections && h in Run(start, ops).collections[c].items
    ensures k < |ops| && Enters(ops[k], c, h, Run(start, ops).collections[c].items[h])
    decreases |ops|
  {
    var n := |ops| - 1;
    var front, last := ops[..n], ops[n];
    var before := LastCall(start, ops);
    NewItem(before, last, c, h);
    if Enters(last, c, h, Run(start, ops).collections[c].items[h]) {
      k := n;
    } else {
      k := ItemWasEntered(start, front, c, h);
      assert front[k] == ops[k];
    }
  }
}
