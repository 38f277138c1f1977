/** What collection sessions keep true, and their link to the transactions they are posted as. */
module CollectionLaws {
  import opened Prelude
  import opened Sums
  import opened Tables
  import opened FinanceOps
  import opened FinanceLaws
  import opened CollectionOps

  // ----- One session ---------------------------------------------------------------------------

  /** Only paid items carry money. */
  ghost predicate ItemsValid(items: map<Id, Item>) {
    forall h :: h in items ==> if items[h].status == Paid then items[h].amount > 0 else items[h].amount == 0
  }

  /** The content a session has once it is submitted. */
  ghost predicate Settled(c: Collection) {
    if c.mode == PerHouse then |c.items| > 0 && c.total == PaidSum(c.items) else BulkAmount(c.total)
  }

  ghost predicate SessionSound(c: Collection) {
    && c.mode != Hybrid
    && (c.mode == BulkTotal ==> c.items == map[])
    && ItemsValid(c.items)
    && (c.status in {Submitted, CollectionStatus.Validated} ==> Settled(c))
    && (c.status == CollectionStatus.Rejected ==> c.wasRejected)
  }

  /** Validated and cancelled sessions never change; a rejection is never forgotten. */
  ghost predicate SessionEvolves(c: Collection, d: Collection) {
    && d.rt == c.rt
    && (c.wasRejected ==> d.wasRejected)
    && (c.status in {CollectionStatus.Validated, CollectionStatus.Cancelled} ==> d == c)
  }

  /** The session was decided, cancelled or left alone, with its content as it was. */
  ghost predicate OnlyDecided(c: Collection, d: Collection) {
    && d == c.(status := d.status, wasRejected := d.wasRejected)
    && d.status in {Submitted, CollectionStatus.Validated, CollectionStatus.Rejected, CollectionStatus.Cancelled}
  }

  ghost predicate SessionsSound(collections: map<Id, Collection>) {
    forall c :: c in collections ==> SessionSound(collections[c])
  }

  ghost predicate SessionsEvolve(collections: map<Id, Collection>, collections': map<Id, Collection>) {
    forall c :: c in collections ==> c in collections' && SessionEvolves(collections[c], collections'[c])
  }

  // ----- Routes and dates ----------------------------------------------------------------------

  predicate SameRoute(c: Collection, d: Collection) {
    c.rt == d.rt && c.date == d.date && c.area == d.area
  }

  /** Two active sessions share a route and date only if one of them has been rejected before. */
  ghost predicate RoutesExclusive(collections: map<Id, Collection>) {
    forall c, d :: c in collections && d in collections && c != d ==> Compatible(collections[c], collections[d])
  }

  ghost predicate Compatible(c: Collection, d: Collection) {
    Active(c.status) && Active(d.status) && SameRoute(c, d) ==> c.wasRejected || d.wasRejected
  }

  /** The new row stays on its route, or was checked to be alone on the one it moves to. */
  ghost predicate RouteChecked(collections: map<Id, Collection>, c: Id, row: Collection) {
    || !Active(row.status) || row.wasRejected
    || (c in collections && Active(collections[c].status) && SameRoute(collections[c], row) && !collections[c].wasRejected)
    || Duplicates(collections, row.rt, row.date, row.area, Some(c)) == {}
  }

  lemma RouteWrite(collections: map<Id, Collection>, c: Id, row: Collection)
    requires RoutesExclusive(collections) && RouteChecked(collections, c, row)
    ensures RoutesExclusive(collections[c := row])
  {
    forall d | d in collections && d != c ensures Compatible(row, collections[d]) {
      assert d !in Duplicates(collections, row.rt, row.date, row.area, Some(c)) || c in collections || !Active(row.status) || row.wasRejected;
    }
  }

  // ----- Every collection step writes one row --------------------------------------------------

  ghost predicate SessionWrite(collections: map<Id, Collection>, c: Id, row: Collection) {
    && SessionSound(row)
    && (c in collections ==> SessionEvolves(collections[c], row))
    && (c in collections && collections[c].status == Submitted ==> OnlyDecided(collections[c], row))
    && RouteChecked(collections, c, row)
  }

  /** The step changed nothing, or stored one well-formed row. */
  ghost predicate StepWrites(db: Db, step: Outcome, c: Id) {
    || step.db == db
    || (c in step.db.collections
        && step.db == db.(collections := db.collections[c := step.db.collections[c]])
        && SessionWrite(db.collections, c, step.db.collections[c]))
  }

  lemma CreateWrites(db: Db, actor: Actor, newId: Id, cmd: CreateCommand)
    ensures StepWrites(db, CreateStep(db, actor, newId, cmd), newId)
  {
  }

  lemma UpdateWrites(db: Db, actor: Actor, c: Id, cmd: UpdateCommand)
    requires SessionsSound(db.collections)
    ensures StepWrites(db, UpdateStep(db, actor, c, cmd), c)
  {
  }

  lemma StartWrites(db: Db, actor: Actor, c: Id)
    requires SessionsSound(db.collections)
    ensures StepWrites(db, StartStep(db, actor, c), c)
  {
  }

  lemma CancelWrites(db: Db, actor: Actor, c: Id)
    requires SessionsSound(db.collections)
    ensures StepWrites(db, CancelCollectionStep(db, actor, c), c)
  {
  }

  lemma GenerateWrites(db: Db, actor: Actor, c: Id)
    requires SessionsSound(db.collections)
    ensures StepWrites(db, GenerateStep(db, actor, c), c)
  {
  }

  lemma ValidateWrites(db: Db, actor: Actor, c: Id)
    requires SessionsSound(db.collections)
    ensures StepWrites(db, ValidateStep(db, actor, c), c)
  {
  }

  lemma RejectWrites(db: Db, actor: Actor, c: Id)
    requires SessionsSound(db.collections)
    ensures StepWrites(db, RejectStep(db, actor, c), c)
  {
  }

  lemma {:induction false} UpsertedValid(items: map<Id, Item>, batch: seq<ItemInput>)
    requires ItemsValid(items)
    requires forall i :: 0 <= i < |batch| ==> ValidItemAmount(batch[i])
    ensures ItemsValid(Upserted(items, batch))
  {
    if batch != [] {
      UpsertedValid(items, batch[..|batch| - 1]);
    }
  }

  lemma UpsertRow(db: Db, actor: Actor, c: Id, batch: seq<ItemInput>)
    requires SessionsSound(db.collections) && UpsertRefusal(db, actor, c, batch).None?
    ensures c in db.collections
    ensures var items := Upserted(db.collections[c].items, batch);
            SessionWrite(db.collections, c, db.collections[c].(items := items, total := PaidSum(items), status := InProgress))
  {
    UpsertGuards(db, actor, c, batch);
    UpsertedValid(db.collections[c].items, batch);
  }

  lemma UpsertWrites(db: Db, actor: Actor, c: Id, batch: seq<ItemInput>)
    requires SessionsSound(db.collections)
    ensures StepWrites(db, UpsertStep(db, actor, c, batch), c)
  {
    if UpsertRefusal(db, actor, c, batch).None? {
      UpsertRow(db, actor, c, batch);
    }
  }

  lemma UpsertGuards(db: Db, actor: Actor, c: Id, batch: seq<ItemInput>)
    requires UpsertRefusal(db, actor, c, batch).None?
    ensures OwnEditRefusal(db, actor, c).None? && db.collections[c].mode != BulkTotal
    ensures forall i :: 0 <= i < |batch| ==> ValidItemAmount(batch[i])
  {
  }

  lemma SetBulkWrites(db: Db, actor: Actor, c: Id, total: int)
    requires SessionsSound(db.collections)
    ensures StepWrites(db, SetBulkStep(db, actor, c, total), c)
  {
  }

  lemma SubmitWrites(db: Db, actor: Actor, c: Id, request: Option<string>)
    requires SessionsSound(db.collections)
    ensures StepWrites(db, SubmitStep(db, actor, c, request), c)
  {
  }

  lemma CollectionStepWrites(db: Db, op: CollectionOp) returns (c: Id)
    requires SessionsSound(db.collections)
    ensures StepWrites(db, CollectionStep(db, op), c)
  {
    match op
    case CreateCollection(actor, newId, cmd) => c := newId; CreateWrites(db, actor, newId, cmd);
    case UpdateCollection(actor, id, cmd) => c := id; UpdateWrites(db, actor, id, cmd);
    case StartCollection(actor, id) => c := id; StartWrites(db, actor, id);
    case CancelCollection(actor, id) => c := id; CancelWrites(db, actor, id);
    case GenerateChecklist(actor, id) => c := id; GenerateWrites(db, actor, id);
    case UpsertItems(actor, id, batch) => c := id; UpsertWrites(db, actor, id, batch);
    case SetBulkTotal(actor, id, total) => c := id; SetBulkWrites(db, actor, id, total);
    case SubmitCollection(actor, id, request) => c := id; SubmitWrites(db, actor, id, request);
    case ValidateCollection(actor, id) => c := id; ValidateWrites(db, actor, id);
    case RejectCollection(actor, id) => c := id; RejectWrites(db, actor, id);
  }

  /** Every collection call keeps sessions sound and routes exclusive, and touches nothing else. */
  lemma CollectionStepKeeps(db: Db, op: CollectionOp)
    requires SessionsSound(db.collections) && RoutesExclusive(db.collections)
    ensures var db' := CollectionStep(db, op).db;
            && db' == db.(collections := db'.collections)
            && SessionsSound(db'.collections) && RoutesExclusive(db'.collections)
            && SessionsEvolve(db.collections, db'.collections)
  {
    var c := CollectionStepWrites(db, op);
    WrittenKeeps(db, CollectionStep(db, op), c);
  }

  lemma WrittenKeeps(db: Db, step: Outcome, c: Id)
    requires SessionsSound(db.collections) && RoutesExclusive(db.collections)
    requires StepWrites(db, step, c)
    ensures step.db == db.(collections := step.db.collections)
    ensures SessionsSound(step.db.collections) && RoutesExclusive(step.db.collections)
    ensures SessionsEvolve(db.collections, step.db.collections)
  {
    if step.db != db {
      RouteWrite(db.collections, c, step.db.collections[c]);
    }
  }

  // ----- Content of a submitted session --------------------------------------------------------

  ghost function AllAmounts(items: map<Id, Item>): map<Id, int> {
    map h | h in items :: items[h].amount
  }

  lemma PaidIsAll(items: map<Id, Item>)
    requires ItemsValid(items)
    ensures PaidSum(items) == MapSum(AllAmounts(items)) >= 0
  {
    SumIgnoresZeros(AllAmounts(items), PaidAmounts(items));
    SumNonNegative(PaidAmounts(items));
  }

  /**
   What a submitted or validated session looks like, and when finance will take it: exactly when
   its total is positive, which a bulk total always is.
   */
  lemma SettledContent(c: Collection)
    requires SessionSound(c) && c.status in {Submitted, CollectionStatus.Validated}
    ensures c.mode == PerHouse ==> |c.items| > 0 && c.total == PaidSum(c.items) == MapSum(AllAmounts(c.items))
    ensures c.mode != PerHouse ==> c.mode == BulkTotal && c.items == map[] && c.total % 100 == 0 && 1 <= c.total / 100 <= 999999999999
    ensures PostingAmount(c).Some? <==> c.total > 0
    ensures PostingAmount(c).Some? ==> PostingAmount(c).value == c.total
    ensures c.mode == BulkTotal ==> PostingAmount(c).Some?
  {
    PaidIsAll(c.items);
  }

  /** A submitted session can only be decided or cancelled; its content is frozen until a rejection. */
  lemma FrozenWhileSubmitted(db: Db, op: CollectionOp, c: Id)
    requires SessionsSound(db.collections)
    requires c in db.collections && db.collections[c].status == Submitted
    ensures c in CollectionStep(db, op).db.collections
    ensures OnlyDecided(db.collections[c], CollectionStep(db, op).db.collections[c])
  {
    var d := CollectionStepWrites(db, op);
  }

  // ----- Collections in the ledger -------------------------------------------------------------

  /** A transaction with a source is posted, and carries what its validated session holds. */
  ghost predicate SourceSound(x: Txn, collections: map<Id, Collection>) {
    x.what.source.Some? ==> x.status == TxnStatus.Posted && ComesFrom(x, collections)
  }

  ghost predicate SourcesSound(txns: map<Id, Txn>, collections: map<Id, Collection>) {
    forall t :: t in txns ==> SourceSound(txns[t], collections)
  }

  lemma SourcesSurviveSessions(txns: map<Id, Txn>, collections: map<Id, Collection>, collections': map<Id, Collection>)
    requires SourcesSound(txns, collections) && SessionsEvolve(collections, collections')
    ensures SourcesSound(txns, collections')
  {
  }

  lemma SourcesSurviveInsert(txns: map<Id, Txn>, collections: map<Id, Collection>, t: Id, x: Txn)
    requires SourcesSound(txns, collections) && SourceSound(x, collections)
    ensures SourcesSound(txns[t := x], collections)
  {
  }

  lemma SourcesSurviveBook(db: Db, w: Write)
    requires w.Book? && Allowed(db, w) && SourcesSound(db.txns, db.collections)
    ensures SourcesSound(Applied(db, w).txns, db.collections)
  {
    var posted := w.row.(status := TxnStatus.Posted, key := w.key);
    assert w.txn in db.txns ==> SourceSound(db.txns[w.txn], db.collections);
    SourcesSurviveInsert(db.txns, db.collections, w.txn, posted);
  }

  lemma SourcesSurviveWrite(db: Db, w: Write)
    requires Allowed(db, w) && SourcesSound(db.txns, db.collections)
    ensures SourcesSound(Applied(db, w).txns, db.collections) && Applied(db, w).collections == db.collections
  {
    match w
    case PutTxn(t, x) =>
      assert t in db.txns ==> SourceSound(db.txns[t], db.collections);
      SourcesSurviveInsert(db.txns, db.collections, t, x);
    case Book(_, _, _, _, _, _) => SourcesSurviveBook(db, w);
    case _ =>
  }
}
