/**
 Reachable states, and families of calls, at which properties one might expect of the system do not
 hold. The theorems elsewhere state what does hold in their place.
 */
module Counterexamples {
  import opened Prelude
  import opened Sums
  import opened Tables
  import opened Policy
  import opened FinanceOps
  import opened LedgerLaws
  import opened FinanceLaws
  import opened ApprovalOps
  import opened ApprovalLaws
  import opened CollectionOps
  import opened CollectionLaws
  import opened System
  import opened SystemLaws
  import opened ExactlyOnce
  import opened CollectionTheorems
  import Summary

  /** One tenant with one active member who collects and validates, one house and one area-less route. */
  function OneMember(): MasterData {
    MasterData(map[0 := Member(0, 0, true, {})], map[], map[0 := House(0, 0, true)], map[])
  }

  function Boss(): Actor {
    Actor(0, 0, 0, true)
  }

  /** Library functions under which every amount is below every threshold and only numbers are numbers. */
  function Simple(): Platform {
    Platform((amount: int, threshold: string) => Some(true), (value: Json) => if value.Number? then Some(value.number) else None)
  }

  function Start(platform: Platform): Db {
    Empty(OneMember(), platform)
  }

  lemma StartReachable(platform: Platform)
    ensures Reachable(Start(platform))
  {
    assert Run(Start(platform), []) == Start(platform);
  }

  function Holding(platform: Platform, collections: map<Id, Collection>): Db {
    Start(platform).(collections := collections)
  }

  lemma CollectReaches(db: Db, op: CollectionOp, next: Db)
    requires Reachable(db) && CollectionStep(db, op).db == next
    ensures Reachable(next)
  {
    ReachableStep(db, Collect(op));
  }

  // ----- Totals --------------------------------------------------------------------------------

  function HouseSession(status: CollectionStatus, total: int, items: map<Id, Item>): Collection {
    Collection(0, 0, 0, None, PerHouse, status, total, None, false, items)
  }

  function OneItem(item: Item): map<Id, Item> {
    map[0 := item]
  }

  lemma OneItemSum(item: Item)
    ensures PaidSum(OneItem(item)) == if item.status == Paid then item.amount else 0
  {
    if item.status == Paid {
      assert PaidAmounts(OneItem(item)) == map[][0 := item.amount];
      SumWrite(map[], 0, item.amount);
    } else {
      assert PaidAmounts(OneItem(item)) == map[];
    }
  }

  lemma SessionDrafted(platform: Platform)
    ensures Reachable(Holding(platform, map[0 := HouseSession(CollectionStatus.Draft, 0, map[])]))
  {
    StartReachable(platform);
    CollectReaches(Start(platform), CreateCollection(Boss(), 0, CreateCommand(0, 0, None, None, None)),
                   Holding(platform, map[0 := HouseSession(CollectionStatus.Draft, 0, map[])]));
  }

  lemma ItemUpserts(platform: Platform, status: ItemStatus, amount: int)
    requires if status == Paid then amount > 0 else amount == 0
    ensures UpsertStep(Holding(platform, map[0 := HouseSession(CollectionStatus.Draft, 0, map[])]), Boss(), 0, [ItemInput(0, None, status, amount)]).db
         == Holding(platform, map[0 := HouseSession(InProgress, amount, OneItem(Item(status, amount)))])
  {
    var batch := [ItemInput(0, None, status, amount)];
    OneItemSum(Item(status, amount));
    assert batch[..0] == [];
    assert Upserted(map[], batch) == OneItem(Item(status, amount));
  }

  lemma ItemRecorded(platform: Platform, status: ItemStatus, amount: int)
    requires if status == Paid then amount > 0 else amount == 0
    ensures Reachable(Holding(platform, map[0 := HouseSession(InProgress, amount, OneItem(Item(status, amount)))]))
  {
    SessionDrafted(platform);
    ItemUpserts(platform, status, amount);
    CollectReaches(Holding(platform, map[0 := HouseSession(CollectionStatus.Draft, 0, map[])]),
                   UpsertItems(Boss(), 0, [ItemInput(0, None, status, amount)]),
                   Holding(platform, map[0 := HouseSession(InProgress, amount, OneItem(Item(status, amount)))]));
  }

  /** A PER_HOUSE session with a paid item of 100 and a total of 0, after an update naming its own mode. */
  lemma TotalCanBeReset(platform: Platform) returns (db: Db)
    ensures Reachable(db) && 0 in db.collections
    ensures var c := db.collections[0]; c.mode == PerHouse && c.status == InProgress && c.total == 0 && PaidSum(c.items) == 100
  {
    ItemRecorded(platform, Paid, 100);
    OneItemSum(Item(Paid, 100));
    var before := Holding(platform, map[0 := HouseSession(InProgress, 100, OneItem(Item(Paid, 100)))]);
    db := Holding(platform, map[0 := HouseSession(InProgress, 0, OneItem(Item(Paid, 100)))]);
    CollectReaches(before, UpdateCollection(Boss(), 0, UpdateCommand(None, None, Some(PerHouse), None, None)), db);
  }

  function Unpaid0(platform: Platform, status: CollectionStatus): Db {
    Holding(platform, map[0 := HouseSession(status, 0, OneItem(Item(Unpaid, 0)))])
  }

  lemma UnpaidSubmitted(platform: Platform)
    ensures SubmitStep(Unpaid0(platform, InProgress), Boss(), 0, None).db == Unpaid0(platform, Submitted)
  {
  }

  lemma UnpaidReached(platform: Platform)
    ensures Reachable(Unpaid0(platform, CollectionStatus.Validated))
  {
    ItemRecorded(platform, Unpaid, 0);
    UnpaidSubmitted(platform);
    CollectReaches(Unpaid0(platform, InProgress), SubmitCollection(Boss(), 0, None), Unpaid0(platform, Submitted));
    UnpaidValidated(platform);
  }

  lemma UnpaidValidated(platform: Platform)
    requires Reachable(Unpaid0(platform, Submitted))
    ensures Reachable(Unpaid0(platform, CollectionStatus.Validated))
  {
    CollectReaches(Unpaid0(platform, Submitted), ValidateCollection(Boss(), 0), Unpaid0(platform, CollectionStatus.Validated));
  }

  /** A validated session whose items are all unpaid: the hook refuses it, and it stays unposted. */
  lemma ValidatedWithoutPosting(platform: Platform, ids: NewIds) returns (db: Db)
    ensures Reachable(db) && 0 in db.collections && db.collections[0].status == CollectionStatus.Validated
    ensures PostCollectionStep(db, Boss(), HookCommand(0), ids) == Outcome(db, Refused(AmountMismatch))
  {
    db := Unpaid0(platform, CollectionStatus.Validated);
    UnpaidReached(platform);
    OneItemSum(Item(Unpaid, 0));
    PostsValidated(db, Boss(), HookCommand(0), ids);
  }

  // ----- Routes --------------------------------------------------------------------------------

  function BulkSession(status: CollectionStatus, rejected: bool): Collection {
    Collection(0, 0, 0, None, BulkTotal, status, 100, None, rejected, map[])
  }

  function TwoSessions(platform: Platform, first: CollectionStatus): Db {
    Holding(platform, map[0 := BulkSession(first, true), 1 := BulkSession(CollectionStatus.Draft, false)])
  }

  function BulkRequest(): CreateCommand {
    CreateCommand(0, 0, Some(BulkTotal), Some(100), None)
  }

  function OneSession(platform: Platform, status: CollectionStatus): Db {
    Holding(platform, map[0 := BulkSession(status, status == CollectionStatus.Rejected)])
  }

  lemma RejectedReached(platform: Platform)
    ensures Reachable(OneSession(platform, CollectionStatus.Rejected))
  {
    StartReachable(platform);
    CollectReaches(Start(platform), CreateCollection(Boss(), 0, BulkRequest()), OneSession(platform, CollectionStatus.Draft));
    CollectReaches(OneSession(platform, CollectionStatus.Draft), SubmitCollection(Boss(), 0, None), OneSession(platform, Submitted));
    RejectedNext(platform);
  }

  lemma RejectedNext(platform: Platform)
    requires Reachable(OneSession(platform, Submitted))
    ensures Reachable(OneSession(platform, CollectionStatus.Rejected))
  {
    CollectReaches(OneSession(platform, Submitted), RejectCollection(Boss(), 0), OneSession(platform, CollectionStatus.Rejected));
  }

  lemma SecondCreated(platform: Platform)
    ensures CreateStep(OneSession(platform, CollectionStatus.Rejected), Boss(), 1, BulkRequest()).db
         == TwoSessions(platform, CollectionStatus.Rejected)
  {
  }

  /** A rejected session is started again after another took its route: two are active on it. */
  lemma RouteCanBeShared(platform: Platform) returns (db: Db)
    ensures Reachable(db) && 0 in db.collections && 1 in db.collections
    ensures Active(db.collections[0].status) && Active(db.collections[1].status)
    ensures SameRoute(db.collections[0], db.collections[1])
  {
    RejectedReached(platform);
    SecondCreated(platform);
    CollectReaches(OneSession(platform, CollectionStatus.Rejected), CreateCollection(Boss(), 1, BulkRequest()),
                   TwoSessions(platform, CollectionStatus.Rejected));
    FirstRestarted(platform);
    db := TwoSessions(platform, InProgress);
  }

  lemma FirstRestarted(platform: Platform)
    requires Reachable(TwoSessions(platform, CollectionStatus.Rejected))
    ensures Reachable(TwoSessions(platform, InProgress))
  {
    CollectReaches(TwoSessions(platform, CollectionStatus.Rejected), StartCollection(Boss(), 0), TwoSessions(platform, InProgress));
  }

  // ----- The empty key -------------------------------------------------------------------------

  /**
   Posting with the empty key loses the stored key, so the draft request that had used it creates a
   second transaction for the same money.
   */
  lemma EmptyKeyReopensDraft(db: Db, t: Id, actor: Actor, newId: Id, command: DraftCommand)
    requires FinanceSound(db) && PostTxnStep(db, actor.rt, t, Some("")).reply == Done(t)
    requires Truthy(db.txns[t].key) && command == DraftCommand(db.txns[t].what, db.txns[t].key)
    requires command.what.reference == None && command.what.externalRef == None
    requires var after := PostTxnStep(db, actor.rt, t, Some("")).db;
             newId !in after.txns && DraftRefusal(after, actor.rt, command.what) == None
    ensures CreateDraftStep(PostTxnStep(db, actor.rt, t, Some("")).db, actor, newId, command).reply == Done(newId)
  {
    EmptyKeyPosted(db, actor.rt, t);
    OnlyHolder(db.txns, t, db.txns[t].key.value);
    KeyIsFree(db.txns, t, command.key.value);
    FreshDraft(PostTxnStep(db, actor.rt, t, Some("")).db, actor, newId, command);
  }

  lemma EmptyKeyPosted(db: Db, rt: Id, t: Id)
    requires PostTxnStep(db, rt, t, Some("")).reply == Done(t)
    ensures TxnOf(db.txns, rt, t)
    ensures PostTxnStep(db, rt, t, Some("")).db.txns
         == db.txns[t := db.txns[t].(status := TxnStatus.Posted, key := Some(""))]
  {
  }

  lemma KeyIsFree(txns: map<Id, Txn>, t: Id, key: string)
    requires t in txns && key != "" && KeyHolders(txns, txns[t].rt, key) == {t}
    ensures KeyHolders(txns[t := txns[t].(status := TxnStatus.Posted, key := Some(""))], txns[t].rt, key) == {}
  {
    var after := txns[t := txns[t].(status := TxnStatus.Posted, key := Some(""))];
    forall u | u in after ensures u !in KeyHolders(after, txns[t].rt, key) {
      assert u != t ==> u !in KeyHolders(txns, txns[t].rt, key);
    }
  }

  lemma FreshDraft(db: Db, actor: Actor, newId: Id, command: DraftCommand)
    requires newId !in db.txns && DraftRefusal(db, actor.rt, command.what) == None
    requires Truthy(command.key) && KeyHolders(db.txns, actor.rt, command.key.value) == {}
    requires command.what.reference == None && command.what.externalRef == None
    ensures CreateDraftStep(db, actor, newId, command).reply == Done(newId)
  {
    var row := Txn(actor.rt, command.what, command.key, TxnStatus.Draft, actor.user);
    forall u | u in db.txns ensures !Clash(row, db.txns[u]) {
      assert u !in KeyHolders(db.txns, actor.rt, command.key.value);
    }
  }

  function Income100(): DraftCommand {
    DraftCommand(Particulars(Income, 0, 0, 100, "", 0, None, None, None), Some("k"))
  }

  function OneTxn(status: TxnStatus, platform: Platform): Db {
    Start(platform).(
      accounts := map[0 := NewAccount(0, "a")],
      categories := map[0 := Category(Some(0), "c", Income, false, true, false)],
      txns := map[0 := Txn(0, Income100().what, Some("k"), status, 0)])
  }

  lemma FinanceReaches(db: Db, op: FinanceOp, next: Db)
    requires Reachable(db) && FinanceStep(db, op).db == next
    ensures Reachable(next)
  {
    ReachableStep(db, Finance(op));
  }

  lemma FurnishedReached(platform: Platform)
    ensures Reachable(OneTxn(TxnStatus.Draft, platform).(txns := map[]))
  {
    var accounts := map[0 := NewAccount(0, "a")];
    var categories := map[0 := Category(Some(0), "c", Income, false, true, false)];
    var withAccount := Start(platform).(accounts := accounts);
    var furnished := withAccount.(categories := categories);
    StartReachable(platform);
    assert AccountsWithKey(map[], 0, "a") == {};
    FinanceReaches(Start(platform), CreateAccount(0, 0, "a"), withAccount);
    FinanceReaches(withAccount, SetCategories(categories), furnished);
  }

  lemma DraftReached(platform: Platform)
    ensures Reachable(OneTxn(TxnStatus.Draft, platform))
  {
    var furnished := OneTxn(TxnStatus.Draft, platform).(txns := map[]);
    FurnishedReached(platform);
    assert KeyHolders(map[], 0, "k") == {};
    FinanceReaches(furnished, CreateDraft(Boss(), 0, Income100()), OneTxn(TxnStatus.Draft, platform));
  }

  lemma PostingAllowed(platform: Platform)
    ensures PostTxnStep(OneTxn(TxnStatus.Validated, platform), 0, 0, Some("")).reply == Done(0)
  {
  }

  /** A reachable run in which one keyed draft request creates two transactions. */
  lemma KeyedDraftTwice(platform: Platform) returns (posted: Db)
    ensures Reachable(posted)
    ensures CreateDraftStep(OneTxn(TxnStatus.Draft, platform), Boss(), 0, Income100()).reply == Replayed(0)
    ensures posted == PostTxnStep(OneTxn(TxnStatus.Validated, platform), 0, 0, Some("")).db
    ensures CreateDraftStep(posted, Boss(), 1, Income100()).reply == Done(1)
  {
    var validated := OneTxn(TxnStatus.Validated, platform);
    FirstReplayed(platform);
    ValidatedReached(platform);
    ReachableSound(validated);
    PostingAllowed(platform);
    posted := PostTxnStep(validated, 0, 0, Some("")).db;
    FinanceReaches(validated, PostTxn(0, 0, Some("")), posted);
    PostedUsable(platform);
    EmptyKeyReopensDraft(validated, 0, Boss(), 1, Income100());
  }

  lemma FirstReplayed(platform: Platform)
    ensures CreateDraftStep(OneTxn(TxnStatus.Draft, platform), Boss(), 0, Income100()).reply == Replayed(0)
  {
    assert KeyHolders(OneTxn(TxnStatus.Draft, platform).txns, 0, "k") == {0};
  }

  lemma ValidatedReached(platform: Platform)
    ensures Reachable(OneTxn(TxnStatus.Validated, platform))
  {
    DraftReached(platform);
    FinanceReaches(OneTxn(TxnStatus.Draft, platform), ValidateTxn(0, 0), OneTxn(TxnStatus.Validated, platform));
  }

  lemma PostedUsable(platform: Platform)
    ensures var after := PostTxnStep(OneTxn(TxnStatus.Validated, platform), 0, 0, Some("")).db;
            1 !in after.txns && DraftRefusal(after, 0, Income100().what) == None
  {
  }

  /** Drafts may be stored with the empty string as key. */
  function EmptyKeyed(status: TxnStatus, platform: Platform): Db {
    OneTxn(status, platform).(txns := map[0 := Txn(0, Income100().what, Some(""), status, 0)])
  }

  lemma EmptyKeyedReached(platform: Platform)
    ensures Reachable(EmptyKeyed(TxnStatus.Draft, platform))
  {
    var furnished := OneTxn(TxnStatus.Draft, platform).(txns := map[]);
    FurnishedReached(platform);
    FinanceReaches(furnished, CreateDraft(Boss(), 0, DraftCommand(Income100().what, Some(""))), EmptyKeyed(TxnStatus.Draft, platform));
  }

  lemma EmptyKeyedValidated(platform: Platform)
    ensures Reachable(EmptyKeyed(TxnStatus.Validated, platform))
  {
    EmptyKeyedReached(platform);
    FinanceReaches(EmptyKeyed(TxnStatus.Draft, platform), ValidateTxn(0, 0), EmptyKeyed(TxnStatus.Validated, platform));
  }

  /** The other way a stored key changes: a reachable draft stored with the empty key, validated and posted with "k". */
  lemma EmptyKeyIsReplaced(platform: Platform) returns (db: Db)
    ensures Reachable(db) && 0 in db.txns && db.txns[0].key == Some("")
    ensures var step := PostTxnStep(db, 0, 0, Some("k"));
            step.reply == Done(0) && 0 in step.db.txns && step.db.txns[0].key == Some("k")
  {
    db := EmptyKeyed(TxnStatus.Validated, platform);
    EmptyKeyedValidated(platform);
    assert KeyHolders(db.txns, 0, "k") == {};
  }

  /** The draft is there, but its account has been made inactive: repeating the keyed request is refused. */
  lemma KeyedRepeatRefused(platform: Platform) returns (db: Db)
    ensures Reachable(db) && 0 in db.txns && db.txns[0].key == Income100().key && db.txns[0].what == Income100().what
    ensures CreateDraftStep(db, Boss(), 1, Income100()) == Outcome(db, Refused(InactiveAccount))
  {
    db := OneTxn(TxnStatus.Draft, platform).(accounts := map[0 := NewAccount(0, "a").(isActive := false)]);
    DraftReached(platform);
    FinanceReaches(OneTxn(TxnStatus.Draft, platform), UpdateAccount(0, 0, Some(false)), db);
  }

  /** The one house with a paid item is taken off the route: its 100 are in the session, not in the summary. */
  lemma SummaryCanHideMoney(platform: Platform) returns (db: Db)
    ensures Reachable(db) && 0 in db.collections
    ensures var c := db.collections[0];
            && PaidSum(c.items) == c.total == 100
            && Summary.Lists(db.master.houses, c.rt, c.area, [])
            && Summary.Measured(Summary.ToChecklist([], c.items)).collected == 0
  {
    var recorded := Holding(platform, map[0 := HouseSession(InProgress, 100, OneItem(Item(Paid, 100)))]);
    var master := OneMember().(houses := map[0 := House(0, 0, false)]);
    ItemRecorded(platform, Paid, 100);
    OneItemSum(Item(Paid, 100));
    ReachableStep(recorded, SetMaster(master));
    db := recorded.(master := master);
    assert Summary.ToChecklist([], db.collections[0].items) == [];
  }
}
