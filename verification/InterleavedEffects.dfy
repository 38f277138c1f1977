/**
 Collection calls that interleave, in terms of the tables alone: what a first read admits, what a
 commit stores, and that a call which nobody disturbs is the atomic call.
 */
module InterleavedEffects {
  import opened Prelude
  import opened Sums
  import opened Tables
  import opened FinanceOps
  import opened CollectionOps
  import opened System
  import opened Interleaving
  import opened CollectionEffects

  // ----- First reads ---------------------------------------------------------------------------

  /** A call on an existing session goes on exactly if the session and the input allow it. */
  predicate Admits(db: Db, call: CollectionOp)
    requires !call.CreateCollection?
  {
    && OfTenant(db, call.actor.rt, call.collection)
    && var row := db.collections[call.collection];
       match call
       case UpsertItems(actor, _, batch) => StillOpen(row) && row.mode != BulkTotal && BatchFits(db, actor.rt, row.area, batch)
       case SetBulkTotal(_, _, total) => StillOpen(row) && row.mode == BulkTotal && WholeTotal(total)
       case SubmitCollection(_, _, _) => StillOpen(row)
       case ValidateCollection(_, _) => row.status == Submitted && Ready(row.mode, row.total, row.items)
       case RejectCollection(_, _) => row.status == Submitted
       case StartCollection(_, _) => row.status == CollectionStatus.Draft || row.status == CollectionStatus.Rejected
       case GenerateChecklist(_, _) => StillOpen(row) && row.mode != BulkTotal
       case CancelCollection(_, _) => row.status != CollectionStatus.Validated
       case UpdateCollection(_, _, cmd) =>
         && StillOpen(row) && InputFits(if cmd.mode.Some? then cmd.mode.value else row.mode, cmd.total)
         && (cmd.mode.Some? && cmd.mode.value != row.mode ==> row.items == map[])
  }

  lemma ReadExact(db: Db, call: CollectionOp)
    requires !call.CreateCollection?
    ensures FirstRead(db, call).Some? <==> Admits(db, call)
  {
    var c := call.collection;
    if OfTenant(db, call.actor.rt, c) {
      var row := db.collections[c];
      match call
      case UpsertItems(actor, _, batch) => BatchExact(db, actor.rt, row.area, batch);
      case ValidateCollection(_, _) => ReadyExact(row, row.total);
      case _ =>
    }
  }

  lemma BatchExact(db: Db, rt: Id, area: Option<Id>, batch: seq<ItemInput>)
    ensures BatchFits(db, rt, area, batch)
       <==> && DistinctHouses(batch)
            && forall i :: 0 <= i < |batch| ==> ValidItemAmount(batch[i]) && ItemAssignable(db, rt, area, batch[i])
  {
    forall i | 0 <= i < |batch| ensures ValidItemAmount(batch[i]) <==> EntryFits(batch[i]) {}
    forall i | 0 <= i < |batch| ensures ItemAssignable(db, rt, area, batch[i]) <==> HouseFits(db, rt, area, batch[i]) {}
  }

  /** What a call holds after its first read: its input, and of the session what later steps compare with. */
  predicate Holds(db: Db, call: CollectionOp, f: Flight)
    requires !call.CreateCollection? && call.collection in db.collections
  {
    && f.rt == call.actor.rt && f.collection == call.collection
    && var row := db.collections[call.collection];
       match call
       case UpsertItems(_, _, batch) => f.Upserting? && f.batch == batch && f.paid == None
       case SetBulkTotal(_, _, total) => f.SettingBulk? && f.total == total
       case SubmitCollection(_, _, request) =>
         f.Submitting? && f.request == request && f.seen == row && f.counted == None && f.summed == None
       case ValidateCollection(_, _) => f.Validating?
       case RejectCollection(_, _) => f.Rejecting?
       case StartCollection(_, _) => f.Starting?
       case GenerateChecklist(_, _) => f.Generating? && f.status == row.status
       case CancelCollection(_, _) => f.Cancelling?
       case UpdateCollection(_, _, cmd) => f.Updating? && f.update == cmd
  }

  lemma ReadHolds(db: Db, call: CollectionOp)
    requires !call.CreateCollection? && FirstRead(db, call).Some?
    ensures call.collection in db.collections && Holds(db, call, FirstRead(db, call).value)
  {
  }

  /** The total an upsert reads is the paid sum of the items with its batch entered, as they are then. */
  lemma UpsertReads(db: Db, f: Flight) returns (items: map<Id, Item>)
    requires f.Upserting? && f.paid == None && f.collection in db.collections
    ensures NextRead(db, f) == f.(paid := Some(PaidSum(items))) && Overwritten(db.collections[f.collection].items, f.batch, items)
  {
    items := Upserted(db.collections[f.collection].items, f.batch);
    UpsertedOverwrites(db.collections[f.collection].items, f.batch);
  }

  /** An upsert reads its total once; calls other than upserts and submissions read nothing more. */
  lemma ReadsNoMore(db: Db, f: Flight)
    requires (f.Upserting? && f.paid != None) || (!f.Upserting? && !f.Submitting?)
    ensures NextRead(db, f) == f
  {
  }

  /** A submission first counts the items, then reads the total: entered as a whole, or the paid sum by then. */
  lemma SubmissionReads(db: Db, f: Flight)
    requires f.Submitting? && f.collection in db.collections
    ensures var row := db.collections[f.collection];
            NextRead(db, f) ==
              if f.counted == None then f.(counted := Some(|row.items|))
              else if f.summed == None then f.(summed := Some(if f.seen.mode == BulkTotal then f.seen.total else PaidSum(row.items)))
              else f
  {
  }

  /** Calls begin once and only if their first read admits them; finance, approvals and new sessions run as one step. */
  lemma EventsExact(s: Shared, id: Id, call: CollectionOp, op: Op)
    ensures Next(s, Begin(id, call)).db == s.db && Next(s, Observe(id)).db == s.db && Next(s, Abandon(id)) == s.(flights := s.flights - {id})
    ensures id in Next(s, Begin(id, call)).flights <==> id in s.flights || (!call.CreateCollection? && Admits(s.db, call))
    ensures Next(s, Atomic(op)) == if op.Collect? && !op.collect.CreateCollection? then s else s.(db := Step(s.db, op).db)
    ensures Next(s, Commit(id)) == if id in s.flights then Shared(Committed(s.db, s.flights[id]), s.flights - {id}) else s
  {
    if !call.CreateCollection? {
      ReadExact(s.db, call);
    }
  }

  // ----- Commits -------------------------------------------------------------------------------

  /** The session as it is by the time of the commit still allows it. */
  predicate MayLand(db: Db, f: Flight) {
    && OfTenant(db, f.rt, f.collection)
    && var row := db.collections[f.collection];
       match f
       case Upserting(_, _, _, paid) => StillOpen(row) && paid != None
       case SettingBulk(_, _, _) => StillOpen(row) && row.mode == BulkTotal
       case Submitting(rt, c, request, seen, counted, summed) =>
         && StillOpen(row) && counted != None && summed != None
         && (seen.mode != BulkTotal ==> counted.value > 0) && (seen.mode != PerHouse ==> WholeTotal(summed.value))
         && (request == None || forall d :: d in db.collections && d != c && db.collections[d].rt == rt ==>
                                          db.collections[d].submitRequest != request)
       case Validating(_, _) => row.status == Submitted
       case Rejecting(_, _) => row.status == Submitted
       case Starting(_, _) => row.status == CollectionStatus.Draft || row.status == CollectionStatus.Rejected
       case Generating(_, _, status) => row.status == status
       case Cancelling(_, _) => row.status != CollectionStatus.Validated
       case Updating(rt, c, cmd) =>
         var date, area := (if cmd.date.Some? then cmd.date.value else row.date), (if cmd.area.Some? then cmd.area.value else row.area);
         && StillOpen(row) && (cmd.officer.Some? ==> OfficerFits(db, rt, cmd.officer.value)) && RouteFits(db, rt, area)
         && (cmd.officer.Some? || cmd.date.Some? || cmd.area.Some? ==> RouteAlone(db, rt, date, area, Some(c)))
  }

  lemma LandsExact(db: Db, f: Flight)
    ensures Lands(db, f) <==> MayLand(db, f)
  {
    if f.Updating? && OfTenant(db, f.rt, f.collection) {
      var row := db.collections[f.collection];
      AloneIsNoDuplicate(db, f.rt, f.update.date.GetOr(row.date), f.update.area.GetOr(row.area), Some(f.collection));
    }
  }

  /** The stored row, column by column: what each call replaces, and that it replaces nothing else. */
  ghost predicate LandsAs(row: Collection, f: Flight, after: Collection) {
    match f
    case Upserting(_, _, batch, paid) =>
      && after == row.(items := after.items, total := after.total, status := InProgress)
      && paid == Some(after.total) && Overwritten(row.items, batch, after.items)
    case SettingBulk(_, _, total) => after == row.(total := total, status := InProgress)
    case Submitting(_, _, request, _, _, summed) =>
      && after == row.(status := Submitted, total := after.total, submitRequest := after.submitRequest)
      && summed == Some(after.total) && after.submitRequest == (if request == None then row.submitRequest else request)
    case Validating(_, _) => after == row.(status := CollectionStatus.Validated)
    case Rejecting(_, _) => after == row.(status := CollectionStatus.Rejected, wasRejected := true)
    case Starting(_, _) => after == row.(status := InProgress)
    case Generating(_, _, _) => after == row.(status := InProgress)
    case Cancelling(_, _) => after == row.(status := CollectionStatus.Cancelled)
    case Updating(_, _, cmd) => after == UpdatedRow(row, cmd)
  }

  /** A commit stores one row, as its call says, exactly if it may; else it stores nothing. */
  lemma CommitExact(db: Db, f: Flight)
    ensures if MayLand(db, f) then
              && f.collection in Committed(db, f).collections
              && var after := Committed(db, f).collections[f.collection];
                 && Committed(db, f) == db.(collections := db.collections[f.collection := after])
                 && LandsAs(db.collections[f.collection], f, after)
            else Committed(db, f) == db
  {
    LandsExact(db, f);
    if MayLand(db, f) {
      LandedAs(db, f);
    }
  }

  lemma LandedAs(db: Db, f: Flight)
    requires Lands(db, f)
    ensures LandsAs(db.collections[f.collection], f, Landed(db, f))
  {
    if f.Upserting? {
      UpsertedOverwrites(db.collections[f.collection].items, f.batch);
    }
  }

  // ----- Upserts in flight ---------------------------------------------------------------------

  predicate HousesDiffer(f: Flight) {
    f.Upserting? ==> forall i, j :: 0 <= i < j < |f.batch| ==> f.batch[i].house != f.batch[j].house
  }

  ghost predicate BatchesDiffer(s: Shared) {
    forall id :: id in s.flights ==> HousesDiffer(s.flights[id])
  }

  lemma ReadDiffers(db: Db, call: CollectionOp)
    requires !call.CreateCollection? && FirstRead(db, call).Some?
    ensures HousesDiffer(FirstRead(db, call).value)
  {
    ReadHolds(db, call);
    ReadExact(db, call);
  }

  lemma NextDiffers(s: Shared, e: Event)
    requires BatchesDiffer(s)
    ensures BatchesDiffer(Next(s, e))
  {
    match e
    case Begin(id, call) =>
      if !call.CreateCollection? && FirstRead(s.db, call).Some? {
        ReadDiffers(s.db, call);
      }
    case Observe(id) =>
      if id in s.flights {
        assert HousesDiffer(NextRead(s.db, s.flights[id])) by { assert HousesDiffer(s.flights[id]); }
      }
    case _ =>
  }

  lemma {:induction false} InterleavedDiffers(s: Shared, events: seq<Event>)
    requires BatchesDiffer(s)
    ensures BatchesDiffer(Interleaved(s, events))
    decreases |events|
  {
    if events != [] {
      NextDiffers(s, events[0]);
      InterleavedDiffers(Next(s, events[0]), events[1..]);
    }
  }

  /**
   In every interleaving a committing upsert stores each entry of its batch as the item of its house, on
   the items as they are by then, and leaves all other houses alone.
   */
  lemma UpsertCommitsByEntry(s: Shared, id: Id)
    requires ReachableShared(s) && id in s.flights && s.flights[id].Upserting?
    ensures var f, after := s.flights[id], Next(s, Commit(id)).db;
            if OfTenant(s.db, f.rt, f.collection) && StillOpen(s.db.collections[f.collection]) && f.paid != None then
              && f.collection in after.collections
              && var row, stored := s.db.collections[f.collection], after.collections[f.collection];
                 && after == s.db.(collections := s.db.collections[f.collection := stored])
                 && stored == row.(items := stored.items, total := f.paid.value, status := InProgress)
                 && EntryByEntry(row.items, f.batch, stored.items)
            else after == s.db
  {
    var f := s.flights[id];
    var master, platform, events :| s == Interleaved(Shared(Empty(master, platform), map[]), events);
    InterleavedDiffers(Shared(Empty(master, platform), map[]), events);
    assert HousesDiffer(f);
    CommitExact(s.db, f);
    if MayLand(s.db, f) {
      DistinctByEntry(s.db.collections[f.collection].items, f.batch, Committed(s.db, f).collections[f.collection].items);
    }
  }

  // ----- Undisturbed calls ---------------------------------------------------------------------

  /** A call from its first read to its commit, with nothing in between. */
  ghost function Alone(db: Db, f: Flight): Db {
    Committed(db, NextRead(db, NextRead(db, f)))
  }

  lemma AloneItems(db: Db, actor: Actor, c: Id, batch: seq<ItemInput>)
    requires UpsertStep(db, actor, c, batch).reply.Done?
    ensures FirstRead(db, UpsertItems(actor, c, batch)).Some?
    ensures Alone(db, FirstRead(db, UpsertItems(actor, c, batch)).value) == UpsertStep(db, actor, c, batch).db
  {
  }

  lemma AloneSubmission(db: Db, actor: Actor, c: Id, request: Option<string>)
    requires SubmitStep(db, actor, c, request).reply.Done?
    ensures FirstRead(db, SubmitCollection(actor, c, request)).Some?
    ensures Alone(db, FirstRead(db, SubmitCollection(actor, c, request)).value) == SubmitStep(db, actor, c, request).db
  {
  }

  lemma AloneUpdate(db: Db, actor: Actor, c: Id, cmd: UpdateCommand)
    requires UpdateStep(db, actor, c, cmd).reply.Done?
    ensures FirstRead(db, UpdateCollection(actor, c, cmd)).Some?
    ensures Alone(db, FirstRead(db, UpdateCollection(actor, c, cmd)).value) == UpdateStep(db, actor, c, cmd).db
  {
  }

  /** The remaining calls write what they read in one go. */
  lemma AloneOthers(db: Db, call: CollectionOp)
    requires !call.CreateCollection? && !call.UpsertItems? && !call.SubmitCollection? && !call.UpdateCollection?
    requires CollectionStep(db, call).reply.Done?
    ensures FirstRead(db, call).Some? && Alone(db, FirstRead(db, call).value) == CollectionStep(db, call).db
  {
  }

  lemma AloneIsAtomic(db: Db, call: CollectionOp)
    requires !call.CreateCollection? && CollectionStep(db, call).reply.Done?
    ensures FirstRead(db, call).Some? && Alone(db, FirstRead(db, call).value) == CollectionStep(db, call).db
  {
    match call
    case UpsertItems(actor, c, batch) => AloneItems(db, actor, c, batch);
    case SubmitCollection(actor, c, request) => AloneSubmission(db, actor, c, request);
    case UpdateCollection(actor, c, cmd) => AloneUpdate(db, actor, c, cmd);
    case _ => AloneOthers(db, call);
  }

  lemma Begins(s: Shared, id: Id, call: CollectionOp)
    requires id !in s.flights && !call.CreateCollection? && FirstRead(s.db, call).Some?
    ensures Next(s, Begin(id, call)) == Shared(s.db, s.flights[id := FirstRead(s.db, call).value])
  {
  }

  lemma Observes(s: Shared, id: Id, flights: map<Id, Flight>, f: Flight)
    requires s.flights == flights[id := f]
    ensures Next(s, Observe(id)) == Shared(s.db, flights[id := NextRead(s.db, f)])
  {
    assert flights[id := f][id := NextRead(s.db, f)] == flights[id := NextRead(s.db, f)];
  }

  lemma Commits(s: Shared, id: Id, flights: map<Id, Flight>, f: Flight)
    requires s.flights == flights[id := f] && id !in flights
    ensures Next(s, Commit(id)) == Shared(Committed(s.db, f), flights)
  {
    assert flights[id := f] - {id} == flights;
  }

  /** A call in flight that nobody disturbs does what the atomic call does, whenever that one succeeds. */
  lemma UndisturbedIsAtomic(s: Shared, call: CollectionOp, id: Id, began: Shared, once: Shared, twice: Shared)
    requires id !in s.flights && !call.CreateCollection? && CollectionStep(s.db, call).reply.Done?
    requires began == Next(s, Begin(id, call)) && once == Next(began, Observe(id)) && twice == Next(once, Observe(id))
    ensures Next(twice, Commit(id)) == Shared(CollectionStep(s.db, call).db, s.flights)
  {
    AloneIsAtomic(s.db, call);
    var f := FirstRead(s.db, call).value;
    Begins(s, id, call);
    Observes(began, id, s.flights, f);
    Observes(once, id, s.flights, NextRead(s.db, f));
    Commits(twice, id, s.flights, NextRead(s.db, NextRead(s.db, f)));
  }
}
