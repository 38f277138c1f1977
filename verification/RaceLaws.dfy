/**
 Exact conditions under interleaving: when a bulk session gets items, when a submission stores a
 current total, and what remains of one active session per route.
 */
module RaceLaws {
  import opened Prelude
  import opened Sums
  import opened Tables
  import opened FinanceOps
  import opened LedgerLaws
  import opened FinanceLaws
  import opened ApprovalOps
  import opened CollectionOps
  import opened CollectionLaws
  import opened CollectionTheorems
  import opened System
  import opened SystemLaws
  import opened Interleaving

  // ----- Items in bulk sessions ----------------------------------------------------------------

  ghost predicate BulkEmpty(collections: map<Id, Collection>) {
    forall c :: c in collections && collections[c].mode == BulkTotal ==> collections[c].items == map[]
  }

  /**
   The two commits that put items into a bulk session: a change of mode that was checked while there
   were no items yet, and an upsert that was checked before the mode was changed.
   */
  predicate PutsItemsInBulk(db: Db, f: Flight) {
    && Lands(db, f)
    && var row := db.collections[f.collection];
       || (f.Updating? && f.update.mode == Some(BulkTotal) && row.items != map[])
       || (f.Upserting? && f.batch != [] && row.mode == BulkTotal)
  }

  lemma UpsertedSomething(items: map<Id, Item>, batch: seq<ItemInput>)
    ensures batch != [] ==> Upserted(items, batch) != map[]
  {
    if batch != [] {
      assert batch[|batch| - 1].house in Upserted(items, batch);
    }
  }

  /** A commit keeps bulk sessions free of items exactly when it is neither of the two. */
  lemma CommitBulkEmpty(db: Db, f: Flight)
    requires BulkEmpty(db.collections)
    ensures BulkEmpty(Committed(db, f).collections) <==> !PutsItemsInBulk(db, f)
  {
    if Lands(db, f) {
      var after := Committed(db, f).collections;
      if f.Upserting? { UpsertedSomething(db.collections[f.collection].items, f.batch); }
      assert BulkEmpty(after) <==> (after[f.collection].mode == BulkTotal ==> after[f.collection].items == map[]);
    }
  }

  lemma AtomicBulkEmpty(db: Db, op: Op)
    requires BulkEmpty(db.collections) && Serializable(op)
    ensures BulkEmpty(Step(db, op).db.collections)
  {
    match op
    case Finance(f) =>
      var w := FinanceStepWrites(db, f);
      AppliedFrame(db, w);
    case Approve(a) => ApprovalLeavesCollections(db, a);
    case Collect(c) => CreateBulkEmpty(db, c.actor, c.newId, c.create);
    case SetMaster(_) =>
  }

  lemma CreateBulkEmpty(db: Db, actor: Actor, newId: Id, cmd: CreateCommand)
    requires BulkEmpty(db.collections)
    ensures BulkEmpty(CreateStep(db, actor, newId, cmd).db.collections)
  {
  }

  /** Over all events: bulk sessions stay free of items exactly until one of the two commits. */
  lemma BulkEmptyUnlessRaced(s: Shared, e: Event)
    requires BulkEmpty(s.db.collections)
    ensures BulkEmpty(Next(s, e).db.collections)
       <==> !(e.Commit? && e.id in s.flights && PutsItemsInBulk(s.db, s.flights[e.id]))
  {
    match e
    case Commit(id) => if id in s.flights { CommitBulkEmpty(s.db, s.flights[id]); }
    case Atomic(op) => if Serializable(op) { AtomicBulkEmpty(s.db, op); }
    case _ =>
  }

  // ----- The total a submission stores ---------------------------------------------------------

  /** A submission that lands stores the sum it had read, and no items. */
  lemma SubmittedTotalRead(db: Db, f: Flight)
    requires f.Submitting? && Lands(db, f)
    ensures Landed(db, f).total == f.summed.value && Landed(db, f).items == db.collections[f.collection].items
  {
  }

  /** Events among which call id neither commits nor is abandoned. */
  predicate InFlight(events: seq<Event>, id: Id) {
    forall i :: 0 <= i < |events| ==> events[i] != Commit(id) && events[i] != Abandon(id)
  }

  /** The submission goes on as it began, keeping each thing it has read. */
  predicate GoesOn(f: Flight, g: Flight) {
    && f.Submitting? && g.Submitting? && g.rt == f.rt && g.collection == f.collection && g.request == f.request && g.seen == f.seen
    && (f.counted.Some? ==> g.counted == f.counted) && (f.summed.Some? ==> g.summed == f.summed)
  }

  lemma EventGoesOn(s: Shared, e: Event, id: Id)
    requires id in s.flights && s.flights[id].Submitting? && e != Commit(id) && e != Abandon(id)
    ensures id in Next(s, e).flights && GoesOn(s.flights[id], Next(s, e).flights[id])
  {
  }

  lemma {:induction false} SubmissionGoesOn(s: Shared, events: seq<Event>, id: Id)
    requires id in s.flights && s.flights[id].Submitting? && InFlight(events, id)
    ensures id in Interleaved(s, events).flights && GoesOn(s.flights[id], Interleaved(s, events).flights[id])
    decreases |events|
  {
    if events != [] {
      assert forall i :: 0 <= i < |events[1..]| ==> events[1..][i] == events[i + 1];
      EventGoesOn(s, events[0], id);
      SubmissionGoesOn(Next(s, events[0]), events[1..], id);
    }
  }

  /** The submission has counted the items and is about to read their sum, in the state s. */
  predicate AboutToSum(s: Shared, id: Id) {
    && id in s.flights && s.flights[id].Submitting? && s.flights[id].counted.Some? && s.flights[id].summed.None?
    && s.flights[id].collection in s.db.collections
  }

  lemma SumRead(s: Shared, id: Id)
    requires AboutToSum(s, id)
    ensures var f := s.flights[id];
            var next := Next(s, Observe(id));
            && id in next.flights
            && next.flights[id] == f.(summed := Some(if f.seen.mode == BulkTotal then f.seen.total
                                                     else PaidSum(s.db.collections[f.collection].items)))
  {
  }

  /**
   The total a submission stores, over all interleavings: it began on row `seen`, read the sum in
   state s, and commits in state later, whatever other calls did before, between and after. What it
   stores is current exactly when the paid items summed at the read and at the commit agree; for a
   BULK_TOTAL session, when the total it began with is still the total.
   */
  lemma SubmittedTotalExact(
    start: Shared, actor: Actor, c: Id, request: Option<string>, id: Id, before: seq<Event>, after: seq<Event>)
    requires id !in start.flights && id in Next(start, Begin(id, SubmitCollection(actor, c, request))).flights
    requires InFlight(before, id) && InFlight(after, id)
    requires AboutToSum(Interleaved(Next(start, Begin(id, SubmitCollection(actor, c, request))), before), id)
    ensures var s := Interleaved(Next(start, Begin(id, SubmitCollection(actor, c, request))), before);
            var later := Interleaved(Next(s, Observe(id)), after);
            && c in start.db.collections && c in s.db.collections
            && id in later.flights && later.flights[id].collection == c
            && (Lands(later.db, later.flights[id]) ==>
                  var stored, row := Landed(later.db, later.flights[id]), later.db.collections[c];
                  && (start.db.collections[c].mode != BulkTotal ==>
                        (stored.total == PaidSum(stored.items) <==> PaidSum(s.db.collections[c].items) == PaidSum(row.items)))
                  && (start.db.collections[c].mode == BulkTotal ==>
                        (stored.total == row.total <==> start.db.collections[c].total == row.total)))
  {
    var begun := Next(start, Begin(id, SubmitCollection(actor, c, request)));
    var s := Interleaved(begun, before);
    SubmissionGoesOn(begun, before, id);
    SumRead(s, id);
    SubmissionGoesOn(Next(s, Observe(id)), after, id);
    var later := Interleaved(Next(s, Observe(id)), after);
    if Lands(later.db, later.flights[id]) {
      SubmittedTotalRead(later.db, later.flights[id]);
    }
  }

  /** Commits that write items, mode or total of a session. */
  predicate WritesContent(f: Flight) {
    f.Upserting? || f.Updating? || f.SettingBulk? || f.Submitting?
  }

  /** Events among which call id stays in flight and no other call commits content of session c. */
  ghost predicate Undisturbed(s: Shared, events: seq<Event>, id: Id, c: Id)
    decreases |events|
  {
    events != [] ==>
      && events[0] != Commit(id) && events[0] != Abandon(id)
      && !(events[0].Commit? && events[0].id in s.flights && s.flights[events[0].id].collection == c
           && WritesContent(s.flights[events[0].id]))
      && Undisturbed(Next(s, events[0]), events[1..], id, c)
  }

  /** What the submission has read is still what the session holds. */
  ghost predicate Current(db: Db, f: Flight) {
    && f.Submitting? && f.collection in db.collections
    && var row := db.collections[f.collection];
       && f.seen.mode == row.mode && (row.mode == BulkTotal ==> f.seen.total == row.total)
       && (f.counted.Some? ==> f.counted.value == |row.items|)
       && (f.summed.Some? ==> f.summed.value == SubmittedTotal(row))
  }

  ghost predicate SameContent(c: Collection, d: Collection) {
    d.mode == c.mode && d.items == c.items && d.total == c.total
  }

  lemma CommitKeepsContent(db: Db, f: Flight, c: Id)
    requires c in db.collections && !(f.collection == c && WritesContent(f))
    ensures c in Committed(db, f).collections && SameContent(db.collections[c], Committed(db, f).collections[c])
  {
  }

  lemma EventKeepsContent(s: Shared, e: Event, c: Id)
    requires SharedSound(s) && c in s.db.collections
    requires !(e.Commit? && e.id in s.flights && s.flights[e.id].collection == c && WritesContent(s.flights[e.id]))
    ensures c in Next(s, e).db.collections && SameContent(s.db.collections[c], Next(s, e).db.collections[c])
  {
    match e
    case Commit(id) => if id in s.flights { CommitKeepsContent(s.db, s.flights[id], c); }
    case Atomic(op) => if Serializable(op) { AtomicLeavesSessions(s.db, op, c); }
    case _ =>
  }

  lemma ObserveKeepsCurrent(db: Db, f: Flight)
    requires Current(db, f)
    ensures Current(db, NextRead(db, f)) && NextRead(db, f).collection == f.collection
  {
  }

  lemma EventKeepsCurrent(s: Shared, e: Event, id: Id)
    requires SharedSound(s) && id in s.flights && Current(s.db, s.flights[id])
    requires Undisturbed(s, [e], id, s.flights[id].collection)
    ensures var next := Next(s, e);
            id in next.flights && Current(next.db, next.flights[id]) && next.flights[id].collection == s.flights[id].collection
  {
    EventKeepsContent(s, e, s.flights[id].collection);
    ObserveKeepsCurrent(s.db, s.flights[id]);
  }

  lemma {:induction false} StaysCurrent(s: Shared, events: seq<Event>, id: Id)
    requires SharedSound(s) && id in s.flights && Current(s.db, s.flights[id])
    requires Undisturbed(s, events, id, s.flights[id].collection)
    ensures var later := Interleaved(s, events);
            id in later.flights && Current(later.db, later.flights[id]) && later.flights[id].collection == s.flights[id].collection
    decreases |events|
  {
    if events != [] {
      assert [events[0]][1..] == [];
      NextKeeps(s, events[0]);
      EventKeepsCurrent(s, events[0], id);
      StaysCurrent(Next(s, events[0]), events[1..], id);
    }
  }

  /**
   A submission during which no other call commits content of its session stores what it would store
   as one atomic step, whatever else commits.
   */
  lemma UndisturbedSubmissionIsCurrent(s: Shared, actor: Actor, c: Id, request: Option<string>, id: Id, events: seq<Event>)
    requires SharedSound(s) && id !in s.flights
    requires var begun := Next(s, Begin(id, SubmitCollection(actor, c, request)));
             id in begun.flights && Undisturbed(begun, events, id, c)
    ensures var later := Interleaved(Next(s, Begin(id, SubmitCollection(actor, c, request))), events);
            && id in later.flights && later.flights[id].collection == c && c in later.db.collections
            && (Lands(later.db, later.flights[id]) ==>
                  Landed(later.db, later.flights[id]).total == SubmittedTotal(later.db.collections[c]))
  {
    var begun := Next(s, Begin(id, SubmitCollection(actor, c, request)));
    NextKeeps(s, Begin(id, SubmitCollection(actor, c, request)));
    StaysCurrent(begun, events, id);
  }

  // ----- Routes --------------------------------------------------------------------------------

  datatype Route = Route(rt: Id, date: Id, area: Option<Id>)

  function RouteOf(c: Collection): Route {
    Route(c.rt, c.date, c.area)
  }

  /** Creating a session, or changing one, between the reading of the route and the write. */
  datatype Move =
    | Creating(newId: Id, row: Collection, at: nat)
    | Changing(target: Id, seen: Collection, update: UpdateCommand, at: nat)

  /**
   Sessions, the moves in flight and the moves that have committed, in order. A move reads at the time
   it starts, when `at` moves have committed; those from there on are concurrent with it.
   */
  datatype Roads = Roads(db: Db, moves: map<Id, Move>, log: seq<Move>)

  datatype RoadEvent =
    | ReadForCreate(id: Id, newId: Id, row: Collection)
    | ReadForChange(id: Id, target: Id, update: UpdateCommand)
    | Land(id: Id)
    | Other(flight: Flight)

  function Target(m: Move): Id {
    if m.Creating? then m.newId else m.target
  }

  function MovedRow(m: Move): Collection {
    if m.Creating? then m.row else Updated(m.seen, m.update)
  }

  // What a serializable transaction reads and writes, and when two of them cannot both commit.

  /** The move asks for the route at all: always on creation, on a change if it names officer, date or area. */
  predicate ReadsRoute(m: Move) {
    m.Creating? || m.update.officer.Some? || m.update.date.Some? || m.update.area.Some?
  }

  /** Would the move's query for the active sessions of its route, but its own, return the row? */
  predicate Reads(m: Move, id: Id, row: Collection) {
    ReadsRoute(m) && id != Target(m) && Active(row.status) && RouteOf(row) == RouteOf(MovedRow(m))
  }

  /** What m wrote changes what n's query returns: a row it returned, or one it would return now. */
  predicate Disturbs(m: Move, n: Move) {
    || Reads(n, Target(m), MovedRow(m))
    || (m.Changing? && Reads(n, m.target, m.seen))
  }

  /**
   The conflict rule of serializable snapshot isolation for two concurrent transactions: each has read
   what the other wrote, so neither order of the two explains both, and the second does not commit.
   */
  predicate Excludes(n: Move, m: Move) {
    Disturbs(n, m) && Disturbs(m, n)
  }

  /**
   The row a move changes is still the one it has read (a row updated since is a conflict, whoever
   updated it; a created identifier must be free), and no concurrent move excludes it.
   */
  predicate MoveLands(r: Roads, m: Move) {
    && (if m.Creating? then m.newId !in r.db.collections else m.target in r.db.collections && r.db.collections[m.target] == m.seen)
    && (forall i :: m.at <= i < |r.log| ==> !Excludes(r.log[i], m))
  }

  predicate RouteFree(db: Db, m: Move) {
    var row := MovedRow(m);
    ReadsRoute(m) ==> Duplicates(db.collections, row.rt, row.date, row.area, Some(Target(m))) == {}
  }

  function WithMove(r: Roads, id: Id, m: Move): Roads {
    if id !in r.moves && RouteFree(r.db, m) then r.(moves := r.moves[id := m]) else r
  }

  function Moved(r: Roads, id: Id): Roads
    requires id in r.moves
  {
    var m := r.moves[id];
    Roads(r.db.(collections := r.db.collections[Target(m) := MovedRow(m)]), r.moves - {id}, r.log + [m])
  }

  /** Other calls are not serializable: their commits take no part in the conflict rule. */
  function RoadNext(r: Roads, e: RoadEvent): Roads {
    match e
    case ReadForCreate(id, newId, row) =>
      if row.status == CollectionStatus.Draft && !row.wasRejected then WithMove(r, id, Creating(newId, row, |r.log|)) else r
    case ReadForChange(id, target, update) =>
      if target in r.db.collections && Editable(r.db.collections[target].status)
      then WithMove(r, id, Changing(target, r.db.collections[target], update, |r.log|)) else r
    case Land(id) => if id in r.moves && MoveLands(r, r.moves[id]) then Moved(r, id) else r
    case Other(f) => if f.Updating? || !FlightSound(f) then r else r.(db := Committed(r.db, f))
  }

  /** A creation or change starts if its route is free, one for each identifier; it lands on the row it read; other calls commit at once. */
  lemma RoadEventsExact(r: Roads, id: Id, newId: Id, row: Collection, update: UpdateCommand, f: Flight)
    ensures var m := Creating(newId, row, |r.log|);
            RoadNext(r, ReadForCreate(id, newId, row))
            == if && row.status == CollectionStatus.Draft && !row.wasRejected && id !in r.moves
                  && Duplicates(r.db.collections, row.rt, row.date, row.area, Some(newId)) == {}
               then r.(moves := r.moves[id := m]) else r
    ensures newId in r.db.collections && id !in r.moves && Editable(r.db.collections[newId].status) && update.officer == update.date == None
            && update.area == None ==>
              RoadNext(r, ReadForChange(id, newId, update))
              == r.(moves := r.moves[id := Changing(newId, r.db.collections[newId], update, |r.log|)])
    ensures !f.Updating? && FlightSound(f) ==> RoadNext(r, RoadEvent.Other(f)) == r.(db := Committed(r.db, f))
  {
  }

  function Drive(r: Roads, events: seq<RoadEvent>): Roads
    decreases |events|
  {
    if events == [] then r else Drive(RoadNext(r, events[0]), events[1..])
  }

  /** The move puts an active session on the route, having asked whether it is free. */
  predicate Takes(n: Move, route: Route) {
    ReadsRoute(n) && Active(MovedRow(n).status) && RouteOf(MovedRow(n)) == route
  }

  /** What the conflict rule comes to: two moves that take one route for different sessions exclude each other. */
  lemma TakersExclude(m: Move, n: Move)
    requires Takes(m, RouteOf(MovedRow(n))) && Takes(n, RouteOf(MovedRow(n))) && Target(m) != Target(n)
    ensures Excludes(m, n) && Excludes(n, m)
  {
  }

  /** No concurrent move has taken the route for another session. */
  predicate NotTaken(log: seq<Move>, m: Move) {
    forall i :: m.at <= i < |log| ==> Target(log[i]) == Target(m) || !Takes(log[i], RouteOf(MovedRow(m)))
  }

  /** So a move that takes a route and lands was not forestalled there by a concurrent one. */
  lemma LandsNotTaken(r: Roads, m: Move)
    requires MoveLands(r, m) && Takes(m, RouteOf(MovedRow(m)))
    ensures NotTaken(r.log, m)
  {
    forall i | m.at <= i < |r.log| ensures Target(r.log[i]) == Target(m) || !Takes(r.log[i], RouteOf(MovedRow(m))) {
      if Target(r.log[i]) != Target(m) && Takes(r.log[i], RouteOf(MovedRow(m))) {
        TakersExclude(r.log[i], m);
        assert false;
      }
    }
  }

  /** Every active session on the route, but the target, was rejected before. */
  ghost predicate OnlyReactivated(collections: map<Id, Collection>, route: Route, target: Id) {
    forall d :: d in collections && d != target && Active(collections[d].status) && RouteOf(collections[d]) == route ==>
      collections[d].wasRejected
  }

  ghost predicate RejectedMarked(collections: map<Id, Collection>) {
    forall c :: c in collections && collections[c].status == CollectionStatus.Rejected ==> collections[c].wasRejected
  }

  /** A pending move whose route was not taken since finds only reactivated sessions there. */
  ghost predicate MoveSound(r: Roads, m: Move) {
    && m.at <= |r.log|
    && (m.Creating? ==> m.row.status == CollectionStatus.Draft && !m.row.wasRejected)
    && (ReadsRoute(m) && NotTaken(r.log, m) ==> OnlyReactivated(r.db.collections, RouteOf(MovedRow(m)), Target(m)))
  }

  ghost predicate RoadsSound(r: Roads) {
    && RoutesExclusive(r.db.collections) && RejectedMarked(r.db.collections)
    && forall id :: id in r.moves ==> MoveSound(r, r.moves[id])
  }

  /** A commit of the other calls keeps the route, and activates only what was rejected. */
  ghost predicate KeepsRoute(c: Collection, d: Collection) {
    && RouteOf(d) == RouteOf(c) && (c.wasRejected ==> d.wasRejected)
    && (d.status == CollectionStatus.Rejected ==> d.wasRejected)
    && (Active(d.status) ==> Active(c.status) || c.wasRejected)
  }

  lemma LandedKeepsRoute(db: Db, f: Flight)
    requires Lands(db, f) && !f.Updating? && FlightSound(f)
    requires db.collections[f.collection].status == CollectionStatus.Rejected ==> db.collections[f.collection].wasRejected
    ensures KeepsRoute(db.collections[f.collection], Landed(db, f))
  {
  }

  lemma KeptRoutes(before: map<Id, Collection>, after: map<Id, Collection>)
    requires RoutesExclusive(before) && RejectedMarked(before) && after.Keys == before.Keys
    requires forall c :: c in before ==> KeepsRoute(before[c], after[c])
    ensures RoutesExclusive(after) && RejectedMarked(after)
  {
    forall c, d | c in after && d in after && c != d ensures Compatible(after[c], after[d]) {
      assert Compatible(before[c], before[d]) && KeepsRoute(before[c], after[c]) && KeepsRoute(before[d], after[d]);
    }
  }

  lemma KeptReactivated(before: map<Id, Collection>, after: map<Id, Collection>, route: Route, target: Id)
    requires after.Keys == before.Keys && forall c :: c in before ==> KeepsRoute(before[c], after[c])
    requires OnlyReactivated(before, route, target)
    ensures OnlyReactivated(after, route, target)
  {
    forall d | d in after && d != target && Active(after[d].status) && RouteOf(after[d]) == route ensures after[d].wasRejected {
      assert KeepsRoute(before[d], after[d]);
    }
  }

  lemma OtherKeeps(r: Roads, f: Flight)
    requires RoadsSound(r) && !f.Updating? && FlightSound(f) && Lands(r.db, f)
    ensures RoadsSound(r.(db := Committed(r.db, f)))
  {
    var before, after := r.db.collections, Committed(r.db, f).collections;
    LandedKeepsRoute(r.db, f);
    forall c | c in before ensures KeepsRoute(before[c], after[c]) {}
    KeptRoutes(before, after);
    forall id | id in r.moves ensures MoveSound(r.(db := Committed(r.db, f)), r.moves[id]) {
      var m := r.moves[id];
      if ReadsRoute(m) && NotTaken(r.log, m) { KeptReactivated(before, after, RouteOf(MovedRow(m)), Target(m)); }
    }
  }

  lemma ReadKeeps(r: Roads, id: Id, m: Move)
    requires RoadsSound(r) && m.at == |r.log|
    requires m.Creating? ==> m.row.status == CollectionStatus.Draft && !m.row.wasRejected
    ensures RoadsSound(WithMove(r, id, m))
  {
    if RouteFree(r.db, m) && ReadsRoute(m) {
      var row := MovedRow(m);
      assert forall d :: d in r.db.collections && d != Target(m) && Active(r.db.collections[d].status)
                         && RouteOf(r.db.collections[d]) == RouteOf(row) ==>
               d in Duplicates(r.db.collections, row.rt, row.date, row.area, Some(Target(m)));
    }
  }

  /** A change that does not ask for the route leaves route, status and mark as they are. */
  lemma UnaskedStays(m: Move)
    requires !ReadsRoute(m)
    ensures KeepsSame(m.seen, MovedRow(m))
  {
  }

  ghost predicate KeepsSame(c: Collection, d: Collection) {
    RouteOf(d) == RouteOf(c) && d.status == c.status && d.wasRejected == c.wasRejected
  }

  lemma LandRoutes(r: Roads, id: Id)
    requires RoadsSound(r) && id in r.moves && MoveLands(r, r.moves[id])
    ensures RoutesExclusive(Moved(r, id).db.collections) && RejectedMarked(Moved(r, id).db.collections)
  {
    var m := r.moves[id];
    var before, row := r.db.collections, MovedRow(m);
    assert MoveSound(r, m);
    if !ReadsRoute(m) {
      UnaskedStays(m);
    } else if Active(row.status) {
      LandsNotTaken(r, m);
    }
    forall d | d in before && d != Target(m) ensures Compatible(row, before[d]) {
      if !ReadsRoute(m) { assert Compatible(before[m.target], before[d]); }
    }
  }

  lemma LandMove(r: Roads, id: Id, other: Id)
    requires RoadsSound(r) && id in r.moves && MoveLands(r, r.moves[id]) && other in r.moves && other != id
    ensures MoveSound(Moved(r, id), r.moves[other])
  {
    var m, n := r.moves[id], r.moves[other];
    var after := Moved(r, id);
    assert MoveSound(r, n);
    if ReadsRoute(n) && NotTaken(after.log, n) {
      assert NotTaken(r.log, n) by {
        assert forall i :: 0 <= i < |r.log| ==> after.log[i] == r.log[i];
      }
      if !ReadsRoute(m) { UnaskedStays(m); }
      assert after.log[|r.log|] == m;
    }
  }

  lemma LandKeeps(r: Roads, id: Id)
    requires RoadsSound(r) && id in r.moves && MoveLands(r, r.moves[id])
    ensures RoadsSound(Moved(r, id))
  {
    LandRoutes(r, id);
    forall other | other in Moved(r, id).moves ensures MoveSound(Moved(r, id), Moved(r, id).moves[other]) {
      LandMove(r, id, other);
    }
  }

  lemma RoadNextKeeps(r: Roads, e: RoadEvent)
    requires RoadsSound(r)
    ensures RoadsSound(RoadNext(r, e))
  {
    match e
    case ReadForCreate(id, newId, row) =>
      if row.status == CollectionStatus.Draft && !row.wasRejected { ReadKeeps(r, id, Creating(newId, row, |r.log|)); }
    case ReadForChange(id, target, update) =>
      if target in r.db.collections { ReadKeeps(r, id, Changing(target, r.db.collections[target], update, |r.log|)); }
    case Land(id) => if id in r.moves && MoveLands(r, r.moves[id]) { LandKeeps(r, id); }
    case Other(f) => if !f.Updating? && FlightSound(f) && Lands(r.db, f) { OtherKeeps(r, f); }
  }

  lemma {:induction false} DriveKeeps(r: Roads, events: seq<RoadEvent>)
    requires RoadsSound(r)
    ensures RoadsSound(Drive(r, events))
    decreases |events|
  {
    if events != [] {
      RoadNextKeeps(r, events[0]);
      DriveKeeps(RoadNext(r, events[0]), events[1..]);
    }
  }

  /**
   Also where reading the route and writing the session are apart, and any other collection call may
   commit in between with whatever it has read: of two different active sessions on one route and
   date, at least one was rejected before.
   */
  lemma SharedRouteWasRejectedUnderRaces(db: Db, events: seq<RoadEvent>, c: Id, d: Id)
    requires db.collections == map[]
    requires var later := Drive(Roads(db, map[], []), events).db.collections;
             && c in later && d in later && c != d && Active(later[c].status) && Active(later[d].status)
             && SameRoute(later[c], later[d])
    ensures var later := Drive(Roads(db, map[], []), events).db.collections;
            c in later && d in later && (later[c].wasRejected || later[d].wasRejected)
  {
    DriveKeeps(Roads(db, map[], []), events);
    var later := Drive(Roads(db, map[], []), events).db.collections;
    assert Compatible(later[c], later[d]);
  }

  /** With nothing in between, reading and landing are the atomic creation. */
  lemma CreateUnraced(db: Db, actor: Actor, newId: Id, cmd: CreateCommand)
    requires CreateStep(db, actor, newId, cmd).reply == Done(newId)
    ensures var after := CreateStep(db, actor, newId, cmd).db;
            && newId in after.collections
            && RoadNext(RoadNext(Roads(db, map[], []), ReadForCreate(0, newId, after.collections[newId])), Land(0)).db == after
  {
    var row := CreateStep(db, actor, newId, cmd).db.collections[newId];
    assert Duplicates(db.collections, row.rt, row.date, row.area, Some(newId)) <= Duplicates(db.collections, row.rt, row.date, row.area, None);
  }

  /** Likewise for a change. */
  lemma ChangeUnraced(db: Db, actor: Actor, c: Id, cmd: UpdateCommand)
    requires UpdateStep(db, actor, c, cmd).reply == Done(c)
    ensures RoadNext(RoadNext(Roads(db, map[], []), ReadForChange(0, c, cmd)), Land(0)).db == UpdateStep(db, actor, c, cmd).db
  {
  }
}
