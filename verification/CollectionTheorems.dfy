/** Collection sessions in every reachable state: totals, routes, and posting after validation. */
module CollectionTheorems {
  import opened Prelude
  import opened Sums
  import opened Tables
  import opened FinanceOps
  import opened LedgerLaws
  import opened FinanceLaws
  import opened ApprovalOps
  import opened CollectionOps
  import opened CollectionLaws
  import opened System
  import opened SystemLaws

  // ----- Totals --------------------------------------------------------------------------------

  /**
   HYBRID is never stored. A submitted or validated PER_HOUSE session has items and a total equal
   to its paid sum; a BULK_TOTAL session has no items and a whole total of one to twelve digits.
   Finance takes a validated session exactly when its total is positive.
   */
  lemma TotalsAtSubmission(db: Db, c: Id)
    requires Reachable(db) && c in db.collections
    ensures db.collections[c].mode != Hybrid
    ensures db.collections[c].status in {Submitted, CollectionStatus.Validated} ==>
              var row := db.collections[c];
              if row.mode == PerHouse then |row.items| > 0 && row.total == PaidSum(row.items) == MapSum(AllAmounts(row.items))
              else row.items == map[] && row.total % 100 == 0 && 1 <= row.total / 100 <= 999999999999
    ensures db.collections[c].status == CollectionStatus.Validated ==>
              PostingAmount(db.collections[c]) == if db.collections[c].total > 0 then Some(db.collections[c].total) else None
  {
    ReachableSound(db);
    if db.collections[c].status in {Submitted, CollectionStatus.Validated} {
      SettledContent(db.collections[c]);
    }
  }

  ghost predicate Tracks(c: Collection) {
    c.mode == PerHouse ==> c.total == PaidSum(c.items)
  }

  /** The call is an accepted update that names PER_HOUSE on a PER_HOUSE session with paid items. */
  ghost predicate ResetsTotal(db: Db, op: CollectionOp, c: Id)
    requires c in db.collections
  {
    && op.UpdateCollection? && op.collection == c && CollectionOf(db.collections, op.actor.rt, c)
    && op.update.mode == Some(PerHouse) && UpdateRefusal(db, op.actor.rt, c, op.update) == None
    && PaidSum(db.collections[c].items) != 0
  }

  /** The total of a PER_HOUSE session follows its paid items through every call but one. */
  lemma TotalTracksUnlessReset(db: Db, op: CollectionOp, c: Id)
    requires SessionsSound(db.collections)
    requires c in db.collections && Tracks(db.collections[c])
    ensures c in CollectionStep(db, op).db.collections
    ensures Tracks(CollectionStep(db, op).db.collections[c]) <==> !ResetsTotal(db, op, c)
  {
    match op
    case UpdateCollection(actor, d, cmd) => UpdateTracks(db, actor, d, cmd, c);
    case CreateCollection(actor, newId, cmd) => CreateTracks(db, actor, newId, cmd, c);
    case UpsertItems(actor, d, batch) => UpsertTracks(db, actor, d, batch, c);
    case SetBulkTotal(actor, d, total) => SetBulkTracks(db, actor, d, total, c);
    case SubmitCollection(actor, d, request) => SubmitTracks(db, actor, d, request, c);
    case _ =>
      DecidingStep(db, op);
      StatusTracks(db, CollectionStep(db, op), op.collection, c);
  }

  lemma DecidingStep(db: Db, op: CollectionOp)
    requires op.StartCollection? || op.CancelCollection? || op.GenerateChecklist? || op.ValidateCollection? || op.RejectCollection?
    ensures StatusOnly(db, CollectionStep(db, op), op.collection)
  {
  }

  /** A step that writes at most the status and the rejection mark of session d. */
  ghost predicate StatusOnly(db: Db, step: Outcome, d: Id) {
    || step.db == db
    || (d in db.collections && d in step.db.collections
        && step.db.collections == db.collections[d := step.db.collections[d]]
        && var row := step.db.collections[d];
           row == db.collections[d].(status := row.status, wasRejected := row.wasRejected))
  }

  lemma StatusTracks(db: Db, step: Outcome, d: Id, c: Id)
    requires StatusOnly(db, step, d) && c in db.collections && Tracks(db.collections[c])
    ensures c in step.db.collections && Tracks(step.db.collections[c])
  {
  }

  lemma CreateTracks(db: Db, actor: Actor, newId: Id, cmd: CreateCommand, c: Id)
    requires c in db.collections
    ensures c in CreateStep(db, actor, newId, cmd).db.collections
    ensures CreateStep(db, actor, newId, cmd).db.collections[c] == db.collections[c]
  {
  }

  lemma SetBulkTracks(db: Db, actor: Actor, d: Id, total: int, c: Id)
    requires c in db.collections && Tracks(db.collections[c])
    ensures c in SetBulkStep(db, actor, d, total).db.collections
    ensures Tracks(SetBulkStep(db, actor, d, total).db.collections[c])
  {
  }

  lemma UpdateTracks(db: Db, actor: Actor, d: Id, cmd: UpdateCommand, c: Id)
    requires c in db.collections && Tracks(db.collections[c])
    ensures c in UpdateStep(db, actor, d, cmd).db.collections
    ensures Tracks(UpdateStep(db, actor, d, cmd).db.collections[c]) <==> !ResetsTotal(db, UpdateCollection(actor, d, cmd), c)
  {
  }

  lemma UpsertTracks(db: Db, actor: Actor, d: Id, batch: seq<ItemInput>, c: Id)
    requires c in db.collections && Tracks(db.collections[c])
    ensures c in UpsertStep(db, actor, d, batch).db.collections
    ensures Tracks(UpsertStep(db, actor, d, batch).db.collections[c])
  {
  }

  lemma SubmitTracks(db: Db, actor: Actor, d: Id, request: Option<string>, c: Id)
    requires c in db.collections && Tracks(db.collections[c])
    ensures c in SubmitStep(db, actor, d, request).db.collections
    ensures Tracks(SubmitStep(db, actor, d, request).db.collections[c])
  {
  }

  // ----- Routes --------------------------------------------------------------------------------

  /** Two different active sessions on one route and date: one of them was rejected before. */
  lemma SharedRouteWasRejected(db: Db, c: Id, d: Id)
    requires Reachable(db) && c in db.collections && d in db.collections && c != d
    requires Active(db.collections[c].status) && Active(db.collections[d].status)
    requires SameRoute(db.collections[c], db.collections[d])
    ensures db.collections[c].wasRejected || db.collections[d].wasRejected
  {
    ReachableSound(db);
    assert Compatible(db.collections[c], db.collections[d]);
  }

  ghost predicate Apart(c: Collection, d: Collection) {
    !(Active(c.status) && Active(d.status) && SameRoute(c, d))
  }

  /** At most one active session per tenant, route and date. */
  ghost predicate OnePerRoute(collections: map<Id, Collection>) {
    forall c, d :: c in collections && d in collections && c != d ==> Apart(collections[c], collections[d])
  }

  /** A rejected session whose route and date an active session has taken over meanwhile. */
  ghost predicate RouteTaken(collections: map<Id, Collection>, c: Id) {
    && c in collections && collections[c].status == CollectionStatus.Rejected
    && Duplicates(collections, collections[c].rt, collections[c].date, collections[c].area, Some(c)) != {}
  }

  predicate Reactivates(op: CollectionOp) {
    op.StartCollection? || op.GenerateChecklist? || op.UpsertItems? || op.SetBulkTotal? || op.SubmitCollection?
  }

  lemma RowKeepsOnePerRoute(collections: map<Id, Collection>, c: Id, row: Collection)
    requires OnePerRoute(collections)
    ensures OnePerRoute(collections[c := row])
       <==> !Active(row.status) || Duplicates(collections, row.rt, row.date, row.area, Some(c)) == {}
  {
    var after := collections[c := row];
    var twins := Duplicates(collections, row.rt, row.date, row.area, Some(c));
    if Active(row.status) && twins != {} {
      var d :| d in twins;
      assert !Apart(after[c], after[d]);
    } else {
      forall a, b | a in after && b in after && a != b ensures Apart(after[a], after[b]) {
        assert (a !in twins && b !in twins) || !Active(row.status);
        assert a != c && b != c ==> Apart(collections[a], collections[b]);
      }
    }
  }

  /** An active session that already is alone on its route has no twin. */
  lemma NoTwin(collections: map<Id, Collection>, c: Id)
    requires OnePerRoute(collections) && c in collections && Active(collections[c].status)
    ensures Duplicates(collections, collections[c].rt, collections[c].date, collections[c].area, Some(c)) == {}
  {
  }

  /** What a call stores keeps the route of its session, or was checked against active twins. */
  ghost predicate RouteStep(db: Db, op: CollectionOp, c: Id) {
    var step := CollectionStep(db, op);
    || step.db == db
    || (&& c in step.db.collections && step.db.collections == db.collections[c := step.db.collections[c]]
        && var row := step.db.collections[c];
           || !Active(row.status)
           || Duplicates(db.collections, row.rt, row.date, row.area, Some(c)) == {}
           || (c in db.collections && SameRoute(db.collections[c], row)
               && (Active(db.collections[c].status)
                   || (Reactivates(op) && op.collection == c && db.collections[c].status == CollectionStatus.Rejected))))
  }

  lemma StepOnRoute(db: Db, op: CollectionOp) returns (c: Id)
    ensures RouteStep(db, op, c)
    ensures Reactivates(op) ==> c == op.collection
  {
    match op
    case CreateCollection(actor, newId, cmd) => c := newId; CreateOnRoute(db, actor, newId, cmd);
    case UpdateCollection(actor, id, cmd) => c := id; UpdateOnRoute(db, actor, id, cmd);
    case StartCollection(actor, id) => c := id;
    case CancelCollection(actor, id) => c := id;
    case GenerateChecklist(actor, id) => c := id;
    case UpsertItems(actor, id, batch) => c := id; UpsertOnRoute(db, actor, id, batch);
    case SetBulkTotal(actor, id, total) => c := id;
    case SubmitCollection(actor, id, request) => c := id; SubmitOnRoute(db, actor, id, request);
    case ValidateCollection(actor, id) => c := id;
    case RejectCollection(actor, id) => c := id;
  }

  lemma CreateOnRoute(db: Db, actor: Actor, newId: Id, cmd: CreateCommand)
    ensures RouteStep(db, CreateCollection(actor, newId, cmd), newId)
  {
  }

  lemma UpdateOnRoute(db: Db, actor: Actor, c: Id, cmd: UpdateCommand)
    ensures RouteStep(db, UpdateCollection(actor, c, cmd), c)
  {
  }

  lemma UpsertOnRoute(db: Db, actor: Actor, c: Id, batch: seq<ItemInput>)
    ensures RouteStep(db, UpsertItems(actor, c, batch), c)
  {
  }

  lemma SubmitOnRoute(db: Db, actor: Actor, c: Id, request: Option<string>)
    ensures RouteStep(db, SubmitCollection(actor, c, request), c)
  {
  }

  /** A reactivating call that succeeds makes its session active on the route it had. */
  lemma ReactivatedRow(db: Db, op: CollectionOp)
    requires Reactivates(op) && CollectionStep(db, op).reply.Done?
    ensures var c, after := op.collection, CollectionStep(db, op).db.collections;
            && c in db.collections && c in after && after == db.collections[c := after[c]]
            && Active(after[c].status) && SameRoute(db.collections[c], after[c])
  {
    match op
    case UpsertItems(actor, c, batch) => UpsertGuards(db, actor, c, batch);
    case _ =>
  }

  /** The guards of a call that can make a rejected session active again. */
  ghost predicate ReactivationDue(db: Db, op: CollectionOp)
    requires Reactivates(op)
  {
    && OwnEditRefusal(db, op.actor, op.collection) == None
    && var row := db.collections[op.collection];
       match op
       case StartCollection(_, _) => row.status != InProgress
       case GenerateChecklist(_, _) => Contract(row.mode).requiresHouseItems
       case UpsertItems(actor, c, batch) => UpsertRefusal(db, actor, c, batch) == None
       case SetBulkTotal(_, _, total) => row.mode == BulkTotal && BulkAmount(total)
       case SubmitCollection(actor, c, request) =>
         && SubmissionReady(row.mode, row.total, |row.items|)
         && SubmissionReady(row.mode, SubmittedTotal(row), |row.items|)
         && !RequestTaken(db.collections, actor.rt, c, request)
  }

  lemma ReactivationDueIsDone(db: Db, op: CollectionOp)
    requires Reactivates(op)
    ensures CollectionStep(db, op).reply.Done? <==> ReactivationDue(db, op)
  {
  }

  /**
   One active session per route and date survives a call exactly when the call is not one whose
   guards allow it to reactivate a rejected session whose route was taken over meanwhile.
   */
  lemma OnePerRouteUnlessReactivated(db: Db, op: CollectionOp)
    requires OnePerRoute(db.collections)
    ensures OnePerRoute(CollectionStep(db, op).db.collections)
       <==> !(Reactivates(op) && ReactivationDue(db, op) && RouteTaken(db.collections, op.collection))
  {
    if Reactivates(op) { ReactivationDueIsDone(db, op); }
    OnePerRouteUnlessDone(db, op);
  }

  lemma OnePerRouteUnlessDone(db: Db, op: CollectionOp)
    requires OnePerRoute(db.collections)
    ensures OnePerRoute(CollectionStep(db, op).db.collections)
       <==> !(Reactivates(op) && CollectionStep(db, op).reply.Done? && RouteTaken(db.collections, op.collection))
  {
    var c := StepOnRoute(db, op);
    var after := CollectionStep(db, op).db.collections;
    if Reactivates(op) && CollectionStep(db, op).reply.Done? && RouteTaken(db.collections, op.collection) {
      ReactivatedRow(db, op);
      RowKeepsOnePerRoute(db.collections, c, after[c]);
    } else if CollectionStep(db, op).db != db {
      RefusedChangesNothing(db, op);
      RowKeepsOnePerRoute(db.collections, c, after[c]);
      if c in db.collections && Active(db.collections[c].status) && SameRoute(db.collections[c], after[c]) {
        NoTwin(db.collections, c);
      }
    }
  }

  lemma RefusedChangesNothing(db: Db, op: CollectionOp)
    ensures CollectionStep(db, op).reply.Done? || CollectionStep(db, op).db == db
  {
  }

  predicate RejectsNothing(ops: seq<Op>) {
    forall i :: 0 <= i < |ops| ==> !(ops[i].Collect? && ops[i].collect.RejectCollection?)
  }

  ghost predicate NeverRejected(collections: map<Id, Collection>) {
    forall c :: c in collections ==> !collections[c].wasRejected
  }

  lemma CollectionNeverRejected(db: Db, op: CollectionOp)
    requires NeverRejected(db.collections) && !op.RejectCollection?
    ensures NeverRejected(CollectionStep(db, op).db.collections)
  {
  }

  lemma StepNeverRejected(db: Db, op: Op)
    requires Sound(db) && NeverRejected(db.collections)
    requires !(op.Collect? && op.collect.RejectCollection?)
    ensures NeverRejected(Step(db, op).db.collections)
  {
    match op
    case Finance(f) =>
      var w := FinanceStepWrites(db, f);
      AppliedFrame(db, w);
    case Approve(a) => ApprovalLeavesCollections(db, a);
    case Collect(c) => CollectionNeverRejected(db, c);
    case SetMaster(_) =>
  }

  lemma ApprovalLeavesCollections(db: Db, a: ApprovalOp)
    ensures ApprovalStep(db, a).db.collections == db.collections
  {
  }

  lemma {:induction false} RunNeverRejected(db: Db, ops: seq<Op>)
    requires Sound(db) && NeverRejected(db.collections) && RejectsNothing(ops)
    ensures NeverRejected(Run(db, ops).collections)
    decreases |ops|
  {
    if ops != [] {
      assert forall i :: 0 <= i < |ops[1..]| ==> ops[1..][i] == ops[i + 1];
      StepKeeps(db, ops[0]);
      StepNeverRejected(db, ops[0]);
      RunNeverRejected(Step(db, ops[0]).db, ops[1..]);
    }
  }

  /** In a run without rejections the active session of a route and date is unique. */
  lemma UniqueWithoutRejections(master: MasterData, platform: Platform, ops: seq<Op>)
    requires RejectsNothing(ops)
    ensures OnePerRoute(Run(Empty(master, platform), ops).collections)
  {
    EmptySound(master, platform);
    RunKeeps(Empty(master, platform), ops);
    RunNeverRejected(Empty(master, platform), ops);
    ExclusiveWithoutRejections(Run(Empty(master, platform), ops).collections);
  }

  lemma ExclusiveWithoutRejections(collections: map<Id, Collection>)
    requires RoutesExclusive(collections) && NeverRejected(collections)
    ensures OnePerRoute(collections)
  {
  }

  // ----- Validation, then the finance hook -----------------------------------------------------

  /** What the hook asks of finance after a validation has been committed. */
  function HookCommand(c: Id): PostCollectionCommand {
    PostCollectionCommand(c, None, None, Some(CollectionKey(c)))
  }

  /** Everything the posting of a positive total still depends on. */
  ghost predicate HookAccepted(db: Db, rt: Id, c: Id, ids: NewIds) {
    BookingAccepted(db, rt, HookCommand(c), ids)
  }

  ghost predicate BookingAccepted(db: Db, rt: Id, post: PostCollectionCommand, ids: NewIds) {
    && !ChooseAccount(db, rt, post.account, ids.account).Unavailable?
    && !ChooseCategory(db, rt, post.category, ids.category).Unavailable?
    && ids.txn !in db.txns
    && KeyHolders(db.txns, rt, post.key.GetOr(CollectionKey(post.collection))) == {}
  }

  lemma NoSourceYet(db: Db, c: Id)
    requires SourcesSound(db.txns, db.collections)
    requires c in db.collections && db.collections[c].status != CollectionStatus.Validated
    ensures SourceHolders(db.txns, c) == {}
  {
  }

  lemma NewTxnCollides(db: Db, t: Id, x: Txn, key: string)
    requires t !in db.txns && x.key == Some(key) && x.what.reference == None && x.what.externalRef == None
    requires x.what.source.Some? && SourceHolders(db.txns, x.what.source.value) == {}
    ensures TxnCollides(db.txns, t, x) <==> KeyHolders(db.txns, x.rt, key) != {}
  {
    if KeyHolders(db.txns, x.rt, key) != {} {
      var u :| u in KeyHolders(db.txns, x.rt, key);
      assert Clash(x, db.txns[u]);
    }
    forall u | u in db.txns && Clash(x, db.txns[u]) ensures u in KeyHolders(db.txns, x.rt, key) {
      assert u !in SourceHolders(db.txns, x.what.source.value);
    }
  }

  lemma ChosenAccountActive(db: Db, rt: Id, wanted: Option<Id>, newId: Id)
    requires !ChooseAccount(db, rt, wanted, newId).Unavailable?
    ensures ActiveAccount(WithAccount(db, rt, ChooseAccount(db, rt, wanted, newId)).accounts, rt, ChooseAccount(db, rt, wanted, newId).id)
  {
  }

  /** The ledger takes any positive income into an active account. */
  lemma IncomeAppends(db: Db, t: Id, x: Txn)
    requires FinanceSound(db) && t !in db.txns && x.what.kind == Income && x.what.amount > 0
    requires ActiveAccount(db.accounts, x.rt, x.what.account)
    ensures AppendRefusal(db.accounts, db.ledger, t, x) == None
  {
    AppendNeverCollides(db.accounts, db.txns, db.ledger, t, x);
    LatestOfBooks(db.accounts, db.ledger, x.what.account);
    var rows := RowsOf(db.ledger, x.what.account);
    assert AccountMatches(db.accounts[x.what.account], rows);
    assert rows != [] ==> Linked(rows, |rows| - 1);
  }

  lemma BookedExactly(db: Db, actor: Actor, post: PostCollectionCommand, ids: NewIds)
    requires Sound(db) && post.collection in db.collections && SourceHolders(db.txns, post.collection) == {}
    requires PostingAmount(db.collections[post.collection]).Some? && PostingAmount(db.collections[post.collection]).value > 0
    ensures BookCollection(db, actor, post, ids).reply == Done(ids.txn) <==> BookingAccepted(db, actor.rt, post, ids)
  {
    var c := db.collections[post.collection];
    var account := ChooseAccount(db, actor.rt, post.account, ids.account);
    var category := ChooseCategory(db, actor.rt, post.category, ids.category);
    if !account.Unavailable? && !category.Unavailable? && ids.txn !in db.txns {
      var x := CollectionTxn(actor, c, post, PostingAmount(c).value, account.id, category.id);
      BookedWhenReady(db, actor.rt, post, account, category, ids, x);
      NewTxnCollides(db, ids.txn, x, post.key.GetOr(CollectionKey(post.collection)));
    }
  }

  lemma BookedWhenReady(db: Db, rt: Id, post: PostCollectionCommand, account: Choice, category: Choice, ids: NewIds, x: Txn)
    requires FinanceSound(db) && ids.txn !in db.txns
    requires account == ChooseAccount(db, rt, post.account, ids.account) && !account.Unavailable?
    requires category == ChooseCategory(db, rt, post.category, ids.category) && !category.Unavailable?
    requires x.rt == rt && x.what.account == account.id && x.what.kind == Income && x.what.amount > 0
    ensures var ready := WithCategory(WithAccount(db, rt, account), rt, category);
            AppendRefusal(ready.accounts, ready.ledger, ids.txn, x) == None
  {
    var ready := WithCategory(WithAccount(db, rt, account), rt, category);
    ChosenAccountActive(db, rt, post.account, ids.account);
    ReadyKeeps(db, rt, account, category);
    IncomeAppends(ready, ids.txn, x);
  }

  lemma PostsValidated(db: Db, actor: Actor, post: PostCollectionCommand, ids: NewIds)
    requires SourceHolders(db.txns, post.collection) == {}
    requires CollectionOf(db.collections, actor.rt, post.collection)
    requires db.collections[post.collection].status == CollectionStatus.Validated
    ensures PostCollectionStep(db, actor, post, ids)
         == if PostingAmount(db.collections[post.collection]).None? then Outcome(db, Refused(AmountMismatch))
            else BookCollection(db, actor, post, ids)
  {
  }

  /** The verdict on posting session c, validated in state db with no transaction naming it yet. */
  ghost predicate HookVerdict(db: Db, c: Id, total: int, hook: Actor, ids: NewIds) {
    var step := PostCollectionStep(db, hook, HookCommand(c), ids);
    && total >= 0
    && (step.reply == Done(ids.txn) <==> total > 0 && HookAccepted(db, hook.rt, c, ids))
    && (total == 0 ==> step == Outcome(db, Refused(AmountMismatch)))
  }

  lemma HookOnValidated(db: Db, c: Id, hook: Actor, ids: NewIds)
    requires Sound(db) && CollectionOf(db.collections, hook.rt, c) && db.collections[c].status == CollectionStatus.Validated
    requires SourceHolders(db.txns, c) == {}
    ensures HookVerdict(db, c, db.collections[c].total, hook, ids)
  {
    SettledContent(db.collections[c]);
    PaidIsAll(db.collections[c].items);
    PostsValidated(db, hook, HookCommand(c), ids);
    if db.collections[c].total > 0 {
      BookedExactly(db, hook, HookCommand(c), ids);
    }
  }

  lemma ValidatedRow(db: Db, actor: Actor, c: Id)
    requires ValidateStep(db, actor, c).reply == Done(c)
    ensures CollectionOf(db.collections, actor.rt, c) && db.collections[c].status == Submitted
    ensures ValidateStep(db, actor, c).db
         == db.(collections := db.collections[c := db.collections[c].(status := CollectionStatus.Validated)])
  {
  }

  lemma HookAfterValidation(db: Db, actor: Actor, c: Id, hook: Actor, ids: NewIds)
    requires Sound(db) && ValidateStep(db, actor, c).reply == Done(c) && hook.rt == actor.rt
    ensures c in db.collections && HookVerdict(ValidateStep(db, actor, c).db, c, db.collections[c].total, hook, ids)
  {
    ValidatedRow(db, actor, c);
    NoSourceYet(db, c);
    ValidatedSound(db, actor, c);
    HookOnValidated(ValidateStep(db, actor, c).db, c, hook, ids);
  }

  lemma ValidatedSound(db: Db, actor: Actor, c: Id)
    requires Sound(db)
    ensures Sound(ValidateStep(db, actor, c).db)
  {
    var validated := ValidateStep(db, actor, c).db;
    ValidateWrites(db, actor, c);
    WrittenKeeps(db, ValidateStep(db, actor, c), c);
    SourcesSurviveSessions(db.txns, db.collections, validated.collections);
  }

  /**
   Validation commits before the hook posts. The hook's posting succeeds exactly when the total is
   positive, a default account and category are available, and no transaction of the tenant has
   taken the collection's key; with total zero it is refused and the session stays unposted.
   */
  lemma ValidatedThenPosted(db: Db, actor: Actor, c: Id, hook: Actor, ids: NewIds)
    requires Reachable(db) && ValidateStep(db, actor, c).reply == Done(c) && hook.rt == actor.rt
    ensures c in db.collections && HookVerdict(ValidateStep(db, actor, c).db, c, db.collections[c].total, hook, ids)
  {
    ReachableSound(db);
    HookAfterValidation(db, actor, c, hook, ids);
  }
}
