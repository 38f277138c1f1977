/**
 Collection calls as the database runs them: most read without locking and then write under a guard
 that is evaluated again on the current row, so other calls may commit in between. What a call has
 read is part of the state. The service's earlier reading of the same guards is left out, which only
 admits more runs. Creating a session and everything in finance runs serializable, as one step.
 */
module Interleaving {
  import opened Prelude
  import opened Sums
  import opened Tables
  import opened FinanceOps
  import opened LedgerLaws
  import opened FinanceLaws
  import opened ApprovalOps
  import opened ApprovalLaws
  import opened CollectionOps
  import opened CollectionLaws
  import opened System
  import opened SystemLaws

  /** A call between its first read and its commit, with what it has read so far. */
  datatype Flight =
    | Upserting(rt: Id, collection: Id, batch: seq<ItemInput>, paid: Option<int>)
    | SettingBulk(rt: Id, collection: Id, total: int)
    | Submitting(rt: Id, collection: Id, request: Option<string>, seen: Collection, counted: Option<nat>, summed: Option<int>)
    | Validating(rt: Id, collection: Id)
    | Rejecting(rt: Id, collection: Id)
    | Starting(rt: Id, collection: Id)
    | Generating(rt: Id, collection: Id, status: CollectionStatus)
    | Cancelling(rt: Id, collection: Id)
    | Updating(rt: Id, collection: Id, update: UpdateCommand)

  /** The database and the calls in flight. */
  datatype Shared = Shared(db: Db, flights: map<Id, Flight>)

  datatype Event =
    | Begin(id: Id, call: CollectionOp)
    | Observe(id: Id)
    | Commit(id: Id)
    | Abandon(id: Id)
    | Atomic(op: Op)

  // ----- Reading -------------------------------------------------------------------------------

  /** The first read of a call on an existing session: its guards, and what it keeps for later. */
  function FirstRead(db: Db, call: CollectionOp): Option<Flight>
    requires !call.CreateCollection?
  {
    var c, rt := call.collection, call.actor.rt;
    if !CollectionOf(db.collections, rt, c) then None else
      var row := db.collections[c];
      match call
      case UpsertItems(_, _, batch) =>
        if && Editable(row.status) && Contract(row.mode).requiresHouseItems && DistinctHouses(batch)
           && (forall i :: 0 <= i < |batch| ==> ValidItemAmount(batch[i]) && ItemAssignable(db, rt, row.area, batch[i]))
        then Some(Upserting(rt, c, batch, None)) else None
      case SetBulkTotal(_, _, total) =>
        if Editable(row.status) && row.mode == BulkTotal && BulkAmount(total) then Some(SettingBulk(rt, c, total)) else None
      case SubmitCollection(_, _, request) =>
        if Editable(row.status) then Some(Submitting(rt, c, request, row, None, None)) else None
      case ValidateCollection(_, _) =>
        if row.status == Submitted && SubmissionReady(row.mode, row.total, |row.items|) then Some(Validating(rt, c)) else None
      case RejectCollection(_, _) => if row.status == Submitted then Some(Rejecting(rt, c)) else None
      case StartCollection(_, _) =>
        if row.status in {CollectionStatus.Draft, CollectionStatus.Rejected} then Some(Starting(rt, c)) else None
      case GenerateChecklist(_, _) =>
        if Editable(row.status) && Contract(row.mode).requiresHouseItems then Some(Generating(rt, c, row.status)) else None
      case CancelCollection(_, _) => if row.status != CollectionStatus.Validated then Some(Cancelling(rt, c)) else None
      case UpdateCollection(_, _, update) =>
        if && Editable(row.status) && ModeInputRefusal(update.mode.GetOr(row.mode), update.total) == None
           && (update.mode.Some? && update.mode.value != row.mode ==> |row.items| == 0)
        then Some(Updating(rt, c, update)) else None
  }

  /** Later reads: the paid total an upsert will store, the item count and then the total of a submit. */
  ghost function NextRead(db: Db, f: Flight): Flight {
    if f.collection !in db.collections then f else
      var row := db.collections[f.collection];
      if f.Upserting? && f.paid.None? then f.(paid := Some(PaidSum(Upserted(row.items, f.batch))))
      else if f.Submitting? && f.counted.None? then f.(counted := Some(|row.items|))
      else if f.Submitting? && f.summed.None? then f.(summed := Some(if f.seen.mode == BulkTotal then f.seen.total else PaidSum(row.items)))
      else f
  }

  // ----- Writing -------------------------------------------------------------------------------

  /** The guard of a commit, on the session as it is by then. */
  predicate Lands(db: Db, f: Flight) {
    && CollectionOf(db.collections, f.rt, f.collection)
    && var row := db.collections[f.collection];
       match f
       case Upserting(_, _, _, paid) => Editable(row.status) && paid.Some?
       case SettingBulk(_, _, _) => Editable(row.status) && row.mode == BulkTotal
       case Submitting(rt, c, request, seen, counted, summed) =>
         && Editable(row.status) && counted.Some? && summed.Some?
         && SubmissionReady(seen.mode, summed.value, counted.value) && !RequestTaken(db.collections, rt, c, request)
       case Validating(_, _) => row.status == Submitted
       case Rejecting(_, _) => row.status == Submitted
       case Starting(_, _) => row.status in {CollectionStatus.Draft, CollectionStatus.Rejected}
       case Generating(_, _, status) => row.status == status
       case Cancelling(_, _) => row.status != CollectionStatus.Validated
       case Updating(rt, c, update) =>
         var area := update.area.GetOr(row.area);
         && Editable(row.status)
         && (update.officer.Some? ==> OfficerAssignable(db, rt, update.officer.value))
         && AreaAssignable(db, rt, area)
         && (update.officer.Some? || update.date.Some? || update.area.Some? ==>
               Duplicates(db.collections, rt, update.date.GetOr(row.date), area, Some(c)) == {})
  }

  /** The row a commit stores when its guard holds. */
  function Landed(db: Db, f: Flight): Collection
    requires Lands(db, f)
  {
    var row := db.collections[f.collection];
    match f
    case Upserting(_, _, batch, paid) => row.(items := Upserted(row.items, batch), total := paid.value, status := InProgress)
    case SettingBulk(_, _, total) => row.(total := total, status := InProgress)
    case Submitting(_, _, request, _, _, summed) =>
      row.(status := Submitted, total := summed.value, submitRequest := if request.Some? then request else row.submitRequest)
    case Validating(_, _) => row.(status := CollectionStatus.Validated)
    case Rejecting(_, _) => row.(status := CollectionStatus.Rejected, wasRejected := true)
    case Starting(_, _) => row.(status := InProgress)
    case Generating(_, _, _) => row.(status := InProgress)
    case Cancelling(_, _) => row.(status := CollectionStatus.Cancelled)
    case Updating(_, _, update) => Updated(row, update)
  }

  function Committed(db: Db, f: Flight): Db {
    if Lands(db, f) then db.(collections := db.collections[f.collection := Landed(db, f)]) else db
  }

  predicate Serializable(op: Op) {
    op.Collect? ==> op.collect.CreateCollection?
  }

  ghost function Next(s: Shared, e: Event): Shared {
    match e
    case Begin(id, call) =>
      if id in s.flights || call.CreateCollection? || FirstRead(s.db, call).None? then s
      else s.(flights := s.flights[id := FirstRead(s.db, call).value])
    case Observe(id) =>
      if id in s.flights then s.(flights := s.flights[id := NextRead(s.db, s.flights[id])]) else s
    case Commit(id) =>
      if id in s.flights then Shared(Committed(s.db, s.flights[id]), s.flights - {id}) else s
    case Abandon(id) => s.(flights := s.flights - {id})
    case Atomic(op) => if Serializable(op) then s.(db := Step(s.db, op).db) else s
  }

  ghost function Interleaved(s: Shared, events: seq<Event>): Shared
    decreases |events|
  {
    if events == [] then s else Interleaved(Next(s, events[0]), events[1..])
  }

  // ----- What a commit can do to a session -----------------------------------------------------

  /** Items change only in an editable session; a submitted one is only decided; final ones stay. */
  ghost predicate Guarded(c: Collection, d: Collection) {
    && d.rt == c.rt
    && (d.items != c.items ==> Editable(c.status))
    && (c.status == Submitted ==> OnlyDecided(c, d))
    && (c.status in {CollectionStatus.Validated, CollectionStatus.Cancelled} ==> d == c)
  }

  ghost predicate AllGuarded(collections: map<Id, Collection>, collections': map<Id, Collection>) {
    forall c :: c in collections ==> c in collections' && Guarded(collections[c], collections'[c])
  }

  predicate FlightSound(f: Flight) {
    f.Generating? ==> Editable(f.status)
  }

  lemma LandedGuarded(db: Db, f: Flight)
    requires Lands(db, f) && FlightSound(f)
    ensures Guarded(db.collections[f.collection], Landed(db, f))
  {
  }

  lemma CommittedGuarded(db: Db, f: Flight)
    requires FlightSound(f)
    ensures AllGuarded(db.collections, Committed(db, f).collections)
    ensures Committed(db, f) == db.(collections := Committed(db, f).collections)
  {
    if Lands(db, f) {
      LandedGuarded(db, f);
    }
  }

  // ----- The invariant under interleaving ------------------------------------------------------

  ghost predicate SharedSound(s: Shared) {
    && FinanceSound(s.db)
    && ApprovalsSound(s.db.approvals, s.db.txns)
    && SourcesSound(s.db.txns, s.db.collections)
    && forall id :: id in s.flights ==> FlightSound(s.flights[id])
  }

  lemma SourcesSurviveGuarded(txns: map<Id, Txn>, collections: map<Id, Collection>, collections': map<Id, Collection>)
    requires SourcesSound(txns, collections) && AllGuarded(collections, collections')
    ensures SourcesSound(txns, collections')
  {
  }

  lemma FinanceStepLoose(db: Db, f: FinanceOp)
    requires FinanceSound(db) && ApprovalsSound(db.approvals, db.txns) && SourcesSound(db.txns, db.collections)
    ensures var after := FinanceStep(db, f).db;
            && FinanceSound(after) && ApprovalsSound(after.approvals, after.txns) && SourcesSound(after.txns, after.collections)
            && after.collections == db.collections && FinanceEvolves(db, after)
  {
    var w := FinanceStepWrites(db, f);
    WriteKeeps(db, w);
    AppliedFrame(db, w);
    SourcesSurviveWrite(db, w);
    ApprovalsSurvive(db.approvals, db.txns, FinanceStep(db, f).db.txns);
  }

  lemma ApprovalStepLoose(db: Db, a: ApprovalOp)
    requires FinanceSound(db) && ApprovalsSound(db.approvals, db.txns) && SourcesSound(db.txns, db.collections)
    ensures var after := ApprovalStep(db, a).db;
            && FinanceSound(after) && ApprovalsSound(after.approvals, after.txns) && SourcesSound(after.txns, after.collections)
            && after.collections == db.collections && FinanceEvolves(db, after)
  {
    var after := ApprovalStep(db, a).db;
    ApprovalStepKeeps(db, a);
    ApprovalStepSound(db, after);
    ShapeKeepsSources(db, after);
  }

  lemma CreateInserts(db: Db, actor: Actor, newId: Id, cmd: CreateCommand)
    ensures var step := CreateStep(db, actor, newId, cmd);
            || step.db == db
            || (newId !in db.collections && newId in step.db.collections
                && step.db == db.(collections := db.collections[newId := step.db.collections[newId]]))
  {
  }

  lemma CreateGuarded(db: Db, actor: Actor, newId: Id, cmd: CreateCommand)
    ensures var after := CreateStep(db, actor, newId, cmd).db;
            after == db.(collections := after.collections) && AllGuarded(db.collections, after.collections)
  {
    var after := CreateStep(db, actor, newId, cmd).db;
    CreateInserts(db, actor, newId, cmd);
    InsertGuarded(db.collections, after.collections, newId);
  }

  lemma InsertGuarded(collections: map<Id, Collection>, after: map<Id, Collection>, c: Id)
    requires after == collections || (c !in collections && c in after && after == collections[c := after[c]])
    ensures AllGuarded(collections, after)
  {
  }

  lemma AtomicKeeps(db: Db, op: Op)
    requires Serializable(op)
    requires FinanceSound(db) && ApprovalsSound(db.approvals, db.txns) && SourcesSound(db.txns, db.collections)
    ensures var after := Step(db, op).db;
            && FinanceSound(after) && ApprovalsSound(after.approvals, after.txns) && SourcesSound(after.txns, after.collections)
            && AllGuarded(db.collections, after.collections) && FinanceEvolves(db, after)
  {
    match op
    case Finance(f) => FinanceStepLoose(db, f);
    case Approve(a) => ApprovalStepLoose(db, a);
    case Collect(c) =>
      CreateGuarded(db, c.actor, c.newId, c.create);
      SourcesSurviveGuarded(db.txns, db.collections, Step(db, op).db.collections);
    case SetMaster(_) =>
  }

  lemma CommitKeeps(s: Shared, id: Id)
    requires SharedSound(s) && id in s.flights
    ensures var db' := Committed(s.db, s.flights[id]);
            && FinanceSound(db') && ApprovalsSound(db'.approvals, db'.txns) && SourcesSound(db'.txns, db'.collections)
            && AllGuarded(s.db.collections, db'.collections) && FinanceEvolves(s.db, db')
  {
    CommittedGuarded(s.db, s.flights[id]);
    SourcesSurviveGuarded(s.db.txns, s.db.collections, Committed(s.db, s.flights[id]).collections);
  }

  lemma ReadingKeeps(s: Shared, e: Event)
    requires SharedSound(s) && (e.Begin? || e.Observe? || e.Abandon?)
    ensures Next(s, e).db == s.db && SharedSound(Next(s, e))
  {
  }

  /** Every event keeps the books, the approvals and the link between transactions and sessions. */
  lemma NextKeeps(s: Shared, e: Event)
    requires SharedSound(s)
    ensures SharedSound(Next(s, e))
    ensures AllGuarded(s.db.collections, Next(s, e).db.collections)
    ensures FinanceEvolves(s.db, Next(s, e).db)
  {
    match e
    case Commit(id) =>
      if id in s.flights {
        CommitKeeps(s, id);
      }
    case Atomic(op) =>
      if Serializable(op) {
        AtomicKeeps(s.db, op);
      }
    case _ => ReadingKeeps(s, e);
  }

  lemma {:induction false} InterleavedKeeps(s: Shared, events: seq<Event>)
    requires SharedSound(s)
    ensures SharedSound(Interleaved(s, events)) && FinanceEvolves(s.db, Interleaved(s, events).db)
    decreases |events|
  {
    if events != [] {
      NextKeeps(s, events[0]);
      InterleavedKeeps(Next(s, events[0]), events[1..]);
      FinanceEvolvesTransitive(s.db, Next(s, events[0]).db, Interleaved(s, events).db);
    }
  }

  ghost predicate ReachableShared(s: Shared) {
    exists master, platform, events :: s == Interleaved(Shared(Empty(master, platform), map[]), events)
  }

  lemma ReachableSharedSound(s: Shared)
    requires ReachableShared(s)
    ensures SharedSound(s)
  {
    var master, platform, events :| s == Interleaved(Shared(Empty(master, platform), map[]), events);
    EmptySound(master, platform);
    InterleavedKeeps(Shared(Empty(master, platform), map[]), events);
  }

  // ----- Theorems ------------------------------------------------------------------------------

  lemma OnlyUpsertsLandItems(db: Db, f: Flight, c: Id)
    requires c in db.collections && FlightSound(f)
    ensures c in Committed(db, f).collections
    ensures Committed(db, f).collections[c].items != db.collections[c].items ==>
              && f.Upserting? && f.collection == c && Editable(db.collections[c].status)
              && Committed(db, f).collections[c].items == Upserted(db.collections[c].items, f.batch)
  {
  }

  /** Items change only when an upsert of that session commits while the session is editable. */
  lemma ItemsOnlyWhileEditable(s: Shared, e: Event, c: Id)
    requires SharedSound(s) && c in s.db.collections
    ensures c in Next(s, e).db.collections
    ensures Next(s, e).db.collections[c].items != s.db.collections[c].items ==>
              && e.Commit? && e.id in s.flights && s.flights[e.id].Upserting? && s.flights[e.id].collection == c
              && Editable(s.db.collections[c].status)
              && Next(s, e).db.collections[c].items == Upserted(s.db.collections[c].items, s.flights[e.id].batch)
  {
    NextKeeps(s, e);
    if e.Commit? && e.id in s.flights {
      OnlyUpsertsLandItems(s.db, s.flights[e.id], c);
    } else if e.Atomic? && Serializable(e.op) {
      AtomicLeavesSessions(s.db, e.op, c);
    }
  }

  lemma AtomicLeavesSessions(db: Db, op: Op, c: Id)
    requires Serializable(op) && c in db.collections
    requires FinanceSound(db) && ApprovalsSound(db.approvals, db.txns) && SourcesSound(db.txns, db.collections)
    ensures c in Step(db, op).db.collections && Step(db, op).db.collections[c] == db.collections[c]
  {
    match op
    case Finance(f) => FinanceStepLoose(db, f);
    case Approve(a) => ApprovalStepLoose(db, a);
    case Collect(create) => CreateLeaves(db, create.actor, create.newId, create.create, c);
    case SetMaster(_) =>
  }

  lemma CreateLeaves(db: Db, actor: Actor, newId: Id, cmd: CreateCommand, c: Id)
    requires c in db.collections
    ensures c in CreateStep(db, actor, newId, cmd).db.collections
    ensures CreateStep(db, actor, newId, cmd).db.collections[c] == db.collections[c]
  {
  }

  /** The session is not rejected in any state of the run. */
  ghost predicate Unrejected(s: Shared, events: seq<Event>, c: Id)
    decreases |events|
  {
    && c in s.db.collections && s.db.collections[c].status != CollectionStatus.Rejected
    && (events != [] ==> Unrejected(Next(s, events[0]), events[1..], c))
  }

  predicate Fixed(status: CollectionStatus) {
    status in {Submitted, CollectionStatus.Validated, CollectionStatus.Cancelled}
  }

  /** From submission on, whatever is in flight, everything but the status stays until a rejection. */
  lemma {:induction false} FrozenUntilRejected(s: Shared, events: seq<Event>, c: Id)
    requires SharedSound(s) && Unrejected(s, events, c) && Fixed(s.db.collections[c].status)
    ensures c in Interleaved(s, events).db.collections
    ensures var row := Interleaved(s, events).db.collections[c];
            row == s.db.collections[c].(status := row.status, wasRejected := row.wasRejected) && Fixed(row.status)
    decreases |events|
  {
    if events != [] {
      NextKeeps(s, events[0]);
      assert Guarded(s.db.collections[c], Next(s, events[0]).db.collections[c]);
      FrozenUntilRejected(Next(s, events[0]), events[1..], c);
    }
  }

  /**
   Even though a submission may store a total that a racing upsert has overtaken: what is credited
   is the session's total, positive, and for PER_HOUSE exactly its committed paid items.
   */
  lemma CreditedExactly(s: Shared, t: Id)
    requires ReachableShared(s) && t in s.db.txns && s.db.txns[t].what.source.Some?
    ensures var x := s.db.txns[t];
            && x.status == TxnStatus.Posted && CountFor(s.db.ledger, t) == 1
            && x.what.source.value in s.db.collections
            && var c := s.db.collections[x.what.source.value];
               && c.status == CollectionStatus.Validated && x.what.amount == c.total > 0
               && (c.mode != BulkTotal ==> x.what.amount == PaidSum(c.items))
  {
    ReachableSharedSound(s);
    assert SourceSound(s.db.txns[t], s.db.collections);
  }

  ghost predicate NeverSource(db: Db, c: Id) {
    forall t :: t in db.txns ==> db.txns[t].what.source != Some(c)
  }

  /** A validated session that fails the posting check is never posted, in any continuation. */
  lemma StaleNeverPosted(s: Shared, events: seq<Event>, c: Id)
    requires SharedSound(s) && c in s.db.collections
    requires s.db.collections[c].status == CollectionStatus.Validated && PostingAmount(s.db.collections[c]) == None
    ensures c in Interleaved(s, events).db.collections && Interleaved(s, events).db.collections[c] == s.db.collections[c]
    ensures NeverSource(Interleaved(s, events).db, c)
  {
    ValidatedStays(s, events, c);
    InterleavedKeeps(s, events);
    var later := Interleaved(s, events);
    forall t | t in later.db.txns ensures later.db.txns[t].what.source != Some(c) {
      assert SourceSound(later.db.txns[t], later.db.collections);
    }
  }

  lemma {:induction false} ValidatedStays(s: Shared, events: seq<Event>, c: Id)
    requires SharedSound(s) && c in s.db.collections && s.db.collections[c].status == CollectionStatus.Validated
    ensures c in Interleaved(s, events).db.collections && Interleaved(s, events).db.collections[c] == s.db.collections[c]
    decreases |events|
  {
    if events != [] {
      NextKeeps(s, events[0]);
      assert Guarded(s.db.collections[c], Next(s, events[0]).db.collections[c]);
      ValidatedStays(Next(s, events[0]), events[1..], c);
    }
  }
}
