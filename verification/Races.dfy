/**
 What racing calls can do: two reachable interleavings of collection calls, and the one finance
 call that reads without a guard, archiving an account while something is posted to it.
 */
module Races {
  import opened Prelude
  import opened Sums
  import opened Tables
  import opened Policy
  import opened FinanceOps
  import opened LedgerLaws
  import opened FinanceLaws
  import opened CollectionOps
  import opened CollectionLaws
  import opened System
  import opened SystemLaws
  import opened Counterexamples
  import opened Interleaving

  lemma {:induction false} InterleavedAppend(s: Shared, a: seq<Event>, e: Event)
    ensures Interleaved(s, a + [e]) == Next(Interleaved(s, a), e)
    decreases |a|
  {
    if a == [] {
      assert a + [e] == [e] && [e][1..] == [];
    } else {
      assert (a + [e])[0] == a[0] && (a + [e])[1..] == a[1..] + [e];
      InterleavedAppend(Next(s, a[0]), a[1..], e);
    }
  }

  lemma NextReachable(s: Shared, e: Event, next: Shared)
    requires ReachableShared(s) && Next(s, e) == next
    ensures ReachableShared(next)
  {
    var master, platform, events :| s == Interleaved(Shared(Empty(master, platform), map[]), events);
    InterleavedAppend(Shared(Empty(master, platform), map[]), events, e);
  }

  // ----- A stale total -------------------------------------------------------------------------

  function Session(status: CollectionStatus, total: int, paid: int): Collection {
    HouseSession(status, total, OneItem(Item(Paid, paid)))
  }

  function At(platform: Platform, c: Collection, flights: map<Id, Flight>): Shared {
    Shared(Holding(platform, map[0 := c]), flights)
  }

  function Batch(paid: int): seq<ItemInput> {
    [ItemInput(0, None, Paid, paid)]
  }

  lemma BatchUpserts(items: map<Id, Item>, paid: int)
    ensures Upserted(items, Batch(paid)) == items[0 := Item(Paid, paid)]
    ensures items.Keys <= {0} ==> Upserted(items, Batch(paid)) == OneItem(Item(Paid, paid))
  {
  }

  lemma Drafted(platform: Platform)
    ensures ReachableShared(At(platform, HouseSession(CollectionStatus.Draft, 0, map[]), map[]))
  {
    var empty := Shared(Start(platform), map[]);
    assert Interleaved(empty, []) == empty;
    NextReachable(empty, Atomic(Collect(CreateCollection(Boss(), 0, CreateCommand(0, 0, None, None, None)))),
                  At(platform, HouseSession(CollectionStatus.Draft, 0, map[]), map[]));
  }

  lemma UpsertBegins(platform: Platform, c: Collection, flights: map<Id, Flight>, id: Id, paid: int)
    requires ReachableShared(At(platform, c, flights)) && id !in flights && paid > 0
    requires c.rt == 0 && Editable(c.status) && c.mode == PerHouse && c.area == None
    ensures ReachableShared(At(platform, c, flights[id := Upserting(0, 0, Batch(paid), None)]))
  {
    NextReachable(At(platform, c, flights), Begin(id, UpsertItems(Boss(), 0, Batch(paid))),
                  At(platform, c, flights[id := Upserting(0, 0, Batch(paid), None)]));
  }

  /** An upsert of the one house runs to its commit while the given calls stay in flight. */
  lemma UpsertLands(platform: Platform, c: Collection, flights: map<Id, Flight>, id: Id, paid: int)
    requires ReachableShared(At(platform, c, flights)) && id !in flights && paid > 0
    requires c.rt == 0 && Editable(c.status) && c.mode == PerHouse && c.area == None && c.items.Keys <= {0}
    ensures ReachableShared(At(platform, c.(status := InProgress, total := paid, items := OneItem(Item(Paid, paid))), flights))
  {
    var reading := At(platform, c, flights[id := Upserting(0, 0, Batch(paid), None)]);
    var ready := At(platform, c, flights[id := Upserting(0, 0, Batch(paid), Some(paid))]);
    BatchUpserts(c.items, paid);
    OneItemSum(Item(Paid, paid));
    UpsertBegins(platform, c, flights, id, paid);
    NextReachable(reading, Observe(id), ready);
    UpsertCommits(platform, c, flights, id, paid);
  }

  lemma UpsertCommits(platform: Platform, c: Collection, flights: map<Id, Flight>, id: Id, paid: int)
    requires ReachableShared(At(platform, c, flights[id := Upserting(0, 0, Batch(paid), Some(paid))]))
    requires id !in flights && c.rt == 0 && Editable(c.status) && c.items.Keys <= {0}
    ensures ReachableShared(At(platform, c.(status := InProgress, total := paid, items := OneItem(Item(Paid, paid))), flights))
  {
    BatchUpserts(c.items, paid);
    var after := At(platform, c.(status := InProgress, total := paid, items := OneItem(Item(Paid, paid))), flights);
    assert flights[id := Upserting(0, 0, Batch(paid), Some(paid))] - {id} == flights;
    NextReachable(At(platform, c, flights[id := Upserting(0, 0, Batch(paid), Some(paid))]), Commit(id), after);
  }

  function Submission(seen: Collection, counted: Option<nat>, summed: Option<int>): map<Id, Flight> {
    map[1 := Submitting(0, 0, None, seen, counted, summed)]
  }

  lemma SubmissionBegins(platform: Platform)
    requires ReachableShared(At(platform, Session(InProgress, 100, 100), map[]))
    ensures var seen := Session(InProgress, 100, 100);
            ReachableShared(At(platform, seen, Submission(seen, None, None)))
  {
    var seen := Session(InProgress, 100, 100);
    NextReachable(At(platform, seen, map[]), Begin(1, SubmitCollection(Boss(), 0, None)), At(platform, seen, Submission(seen, None, None)));
  }

  lemma SubmissionCounts(platform: Platform)
    requires ReachableShared(At(platform, Session(InProgress, 100, 100), map[]))
    ensures var seen := Session(InProgress, 100, 100);
            ReachableShared(At(platform, seen, Submission(seen, Some(1), None)))
  {
    var seen := Session(InProgress, 100, 100);
    SubmissionBegins(platform);
    NextReachable(At(platform, seen, Submission(seen, None, None)), Observe(1), At(platform, seen, Submission(seen, Some(1), None)));
  }

  lemma SubmissionReads(platform: Platform)
    requires ReachableShared(At(platform, Session(InProgress, 100, 100), map[]))
    ensures var seen := Session(InProgress, 100, 100);
            ReachableShared(At(platform, seen, Submission(seen, Some(1), Some(100))))
  {
    var seen := Session(InProgress, 100, 100);
    OneItemSum(Item(Paid, 100));
    SubmissionCounts(platform);
    NextReachable(At(platform, seen, Submission(seen, Some(1), None)), Observe(1), At(platform, seen, Submission(seen, Some(1), Some(100))));
  }

  lemma SubmissionCommits(platform: Platform)
    requires ReachableShared(At(platform, Session(InProgress, 200, 200), Submission(Session(InProgress, 100, 100), Some(1), Some(100))))
    ensures ReachableShared(At(platform, Session(Submitted, 100, 200), map[]))
  {
    var flights := Submission(Session(InProgress, 100, 100), Some(1), Some(100));
    assert flights - {1} == map[];
    NextReachable(At(platform, Session(InProgress, 200, 200), flights), Commit(1), At(platform, Session(Submitted, 100, 200), map[]));
  }

  lemma StaleValidating(platform: Platform)
    requires ReachableShared(At(platform, Session(Submitted, 100, 200), map[]))
    ensures ReachableShared(At(platform, Session(Submitted, 100, 200), map[2 := Validating(0, 0)]))
  {
    NextReachable(At(platform, Session(Submitted, 100, 200), map[]), Begin(2, ValidateCollection(Boss(), 0)),
                  At(platform, Session(Submitted, 100, 200), map[2 := Validating(0, 0)]));
  }

  lemma StaleValidated(platform: Platform)
    requires ReachableShared(At(platform, Session(Submitted, 100, 200), map[2 := Validating(0, 0)]))
    ensures ReachableShared(At(platform, Session(CollectionStatus.Validated, 100, 200), map[]))
  {
    var flights := map[2 := Validating(0, 0)];
    assert flights - {2} == map[];
    NextReachable(At(platform, Session(Submitted, 100, 200), flights), Commit(2),
                  At(platform, Session(CollectionStatus.Validated, 100, 200), map[]));
  }

  /**
   A submission that read its total before an upsert committed stores the old total. Validated with
   it, the session holds 200 in paid items under a total of 100, and is never posted.
   */
  lemma TotalCanBeStale(platform: Platform, events: seq<Event>) returns (s: Shared)
    ensures ReachableShared(s) && 0 in s.db.collections
    ensures var c := s.db.collections[0];
            c.mode == PerHouse && c.status == CollectionStatus.Validated && c.total == 100 && PaidSum(c.items) == 200
    ensures NeverSource(Interleaved(s, events).db, 0)
  {
    var seen := Session(InProgress, 100, 100);
    Drafted(platform);
    UpsertLands(platform, HouseSession(CollectionStatus.Draft, 0, map[]), map[], 0, 100);
    SubmissionReads(platform);
    UpsertLands(platform, seen, Submission(seen, Some(1), Some(100)), 2, 200);
    SubmissionCommits(platform);
    StaleValidating(platform);
    StaleValidated(platform);
    s := At(platform, Session(CollectionStatus.Validated, 100, 200), map[]);
    OneItemSum(Item(Paid, 200));
    ReachableSharedSound(s);
    StaleNeverPosted(s, events, 0);
  }

  // ----- Items in a bulk session ---------------------------------------------------------------

  function ToBulk(): UpdateCommand {
    UpdateCommand(None, None, Some(BulkTotal), None, None)
  }

  /** A mode change that was allowed while there were no items commits after the first item did. */
  lemma BulkCanHaveItems(platform: Platform) returns (s: Shared)
    ensures ReachableShared(s) && 0 in s.db.collections
    ensures s.db.collections[0].mode == BulkTotal && |s.db.collections[0].items| == 1
  {
    var draft := HouseSession(CollectionStatus.Draft, 0, map[]);
    var flights := map[1 := Updating(0, 0, ToBulk())];
    Drafted(platform);
    NextReachable(At(platform, draft, map[]), Begin(1, UpdateCollection(Boss(), 0, ToBulk())), At(platform, draft, flights));
    UpsertLands(platform, draft, flights, 2, 100);
    ModeCommits(platform);
    s := At(platform, Session(InProgress, 100, 100).(mode := BulkTotal), map[]);
  }

  lemma ModeCommits(platform: Platform)
    requires ReachableShared(At(platform, Session(InProgress, 100, 100), map[1 := Updating(0, 0, ToBulk())]))
    ensures ReachableShared(At(platform, Session(InProgress, 100, 100).(mode := BulkTotal), map[]))
  {
    var flights := map[1 := Updating(0, 0, ToBulk())];
    assert flights - {1} == map[];
    NextReachable(At(platform, Session(InProgress, 100, 100), flights), Commit(1),
                  At(platform, Session(InProgress, 100, 100).(mode := BulkTotal), map[]));
  }

  /** The other way: an upsert checked while the session was PER_HOUSE commits after the mode was changed. */
  lemma UpsertCanLandInBulk(platform: Platform) returns (s: Shared)
    ensures ReachableShared(s) && 0 in s.db.collections
    ensures s.db.collections[0].mode == BulkTotal && |s.db.collections[0].items| == 1
  {
    var draft := HouseSession(CollectionStatus.Draft, 0, map[]);
    var reading := map[1 := Upserting(0, 0, Batch(100), None)];
    var ready := map[1 := Upserting(0, 0, Batch(100), Some(100))];
    Drafted(platform);
    BatchUpserts(map[], 100);
    OneItemSum(Item(Paid, 100));
    NextReachable(At(platform, draft, map[]), Begin(1, UpsertItems(Boss(), 0, Batch(100))), At(platform, draft, reading));
    NextReachable(At(platform, draft, reading), Observe(1), At(platform, draft, ready));
    ModeChanges(platform, ready);
    UpsertCommits(platform, draft.(mode := BulkTotal), map[], 1, 100);
    assert map[][1 := Upserting(0, 0, Batch(100), Some(100))] == ready;
    s := At(platform, Session(InProgress, 100, 100).(mode := BulkTotal), map[]);
  }

  lemma ModeRead(platform: Platform, flights: map<Id, Flight>)
    requires ReachableShared(At(platform, HouseSession(CollectionStatus.Draft, 0, map[]), flights)) && 2 !in flights
    ensures ReachableShared(At(platform, HouseSession(CollectionStatus.Draft, 0, map[]), flights[2 := Updating(0, 0, ToBulk())]))
  {
    var draft := HouseSession(CollectionStatus.Draft, 0, map[]);
    NextReachable(At(platform, draft, flights), Begin(2, UpdateCollection(Boss(), 0, ToBulk())),
                  At(platform, draft, flights[2 := Updating(0, 0, ToBulk())]));
  }

  lemma ModeChanges(platform: Platform, flights: map<Id, Flight>)
    requires ReachableShared(At(platform, HouseSession(CollectionStatus.Draft, 0, map[]), flights)) && 2 !in flights
    ensures ReachableShared(At(platform, HouseSession(CollectionStatus.Draft, 0, map[]).(mode := BulkTotal), flights))
  {
    var draft := HouseSession(CollectionStatus.Draft, 0, map[]);
    var changing := flights[2 := Updating(0, 0, ToBulk())];
    assert changing - {2} == flights;
    ModeRead(platform, flights);
    NextReachable(At(platform, draft, changing), Commit(2), At(platform, draft.(mode := BulkTotal), flights));
  }

  // ----- Archiving while posting ---------------------------------------------------------------

  /** Archiving's first phase: is there a live account, and has it ledger rows? */
  ghost function ArchiveSeen(db: Db, rt: Id, a: Id): Option<bool> {
    if !LiveAccount(db.accounts, rt, a) then None
    else Some(AccountUsed(db.ledger, rt, a))
  }

  /** Its second phase writes by identifier alone, with what the first one saw. */
  function ArchiveLate(db: Db, a: Id, hadRows: bool): Db
    requires a in db.accounts
  {
    db.(accounts := db.accounts[a := db.accounts[a].(isActive := false, deleted := !hadRows)])
  }

  /** With nothing in between, the two phases are the atomic step. */
  lemma ArchiveUnraced(db: Db, rt: Id, a: Id)
    requires ArchiveSeen(db, rt, a).Some?
    ensures AccountStep(db, ArchiveAccount(rt, a)) == Outcome(ArchiveLate(db, a, ArchiveSeen(db, rt, a).value), Done(a))
  {
  }

  lemma LiveWithout(accounts: map<Id, Account>, a: Id, row: Account)
    requires a in accounts && row == accounts[a].(isActive := row.isActive, deleted := true)
    ensures LiveBalances(accounts[a := row], row.rt) == LiveBalances(accounts, row.rt) - {a}
  {
  }

  lemma ArchiveOnly(db: Db, a: Id)
    requires FinanceSound(db) && a in db.accounts
    ensures MapSum(LiveBalances(ArchiveLate(db, a, true).accounts, db.accounts[a].rt)) == NetPosted(db.txns, db.accounts[a].rt)
  {
    var rt, after := db.accounts[a].rt, ArchiveLate(db, a, true).accounts;
    assert ConservedIn(db.accounts, db.txns, rt);
    BooksTouch(db.accounts, db.ledger, a, after[a]);
    BalancesWrite(db.accounts, a, after[a], rt);
    LiveHoldAll(after, db.ledger, rt);
  }

  lemma ArchiveHides(db: Db, a: Id)
    requires FinanceSound(db) && a in db.accounts
    ensures MapSum(LiveBalances(ArchiveLate(db, a, false).accounts, db.accounts[a].rt))
         == NetPosted(db.txns, db.accounts[a].rt) - db.accounts[a].currentBalance
  {
    var account, after := db.accounts[a], ArchiveLate(db, a, false).accounts;
    assert AccountMatches(account, RowsOf(db.ledger, a));
    assert ConservedIn(db.accounts, db.txns, account.rt);
    LiveHoldAll(db.accounts, db.ledger, account.rt);
    LiveWithout(db.accounts, a, after[a]);
    var live := LiveBalances(db.accounts, account.rt);
    if account.deleted {
      assert live - {a} == live;
    } else {
      SumSplit(live, a);
    }
  }

  /**
   The late write keeps all money in live accounts exactly when the count had seen rows or the
   account is empty by then.
   */
  lemma ArchiveKeepsMoney(db: Db, rt: Id, a: Id, hadRows: bool)
    requires FinanceSound(db) && a in db.accounts && db.accounts[a].rt == rt
    ensures MapSum(LiveBalances(ArchiveLate(db, a, hadRows).accounts, rt)) == NetPosted(db.txns, rt)
       <==> hadRows || db.accounts[a].currentBalance == 0
  {
    if hadRows { ArchiveOnly(db, a); } else { ArchiveHides(db, a); }
  }

  ghost predicate NoRowOf(ledger: seq<LedgerRow>, a: Id) {
    forall i :: 0 <= i < |ledger| ==> ledger[i].account != a
  }

  /** A row of the account was appended after the ledger stood at `before`. */
  ghost predicate RowAppended(before: seq<LedgerRow>, after: seq<LedgerRow>, a: Id) {
    exists i :: |before| <= i < |after| && after[i].account == a
  }

  /**
   The late write leaves a deleted account with ledger rows exactly when the count saw no row and one
   was appended between the phases.
   */
  lemma ArchiveDeletesWithRows(seen: Db, db: Db, rt: Id, a: Id)
    requires FinanceSound(seen) && FinanceEvolves(seen, db) && ArchiveSeen(seen, rt, a).Some?
    ensures a in db.accounts
    ensures var after := ArchiveLate(db, a, ArchiveSeen(seen, rt, a).value);
            (after.accounts[a].deleted && RowsOf(after.ledger, a) != []
             <==> NoRowOf(seen.ledger, a) && RowAppended(seen.ledger, db.ledger, a))
  {
    RowsBelong(db.ledger, a);
    assert RowsHaveAccounts(seen.accounts, seen.ledger);
    assert forall i :: 0 <= i < |seen.ledger| ==> db.ledger[i] == seen.ledger[i];
  }

  /** Money can only be lost from sight if something was posted to the account between the phases. */
  lemma LossNeedsPosting(seen: Db, db: Db, rt: Id, a: Id)
    requires FinanceSound(seen) && FinanceSound(db) && FinanceEvolves(seen, db)
    requires ArchiveSeen(seen, rt, a) == Some(false) && db.accounts[a].currentBalance != 0
    ensures RowsOf(seen.ledger, a) == [] && RowsOf(db.ledger, a) != []
  {
    RowsBelong(seen.ledger, a);
    assert AccountMatches(db.accounts[a], RowsOf(db.ledger, a));
  }

  lemma Posted100(platform: Platform)
    ensures var posted := PostTxnStep(OneTxn(TxnStatus.Validated, platform), 0, 0, None).db;
            posted.accounts == map[0 := NewAccount(0, "a").(currentBalance := 100, version := 2)]
  {
  }

  lemma PostedBooks(db: Db, rt: Id, t: Id, key: Option<string>)
    requires FinanceSound(db)
    ensures FinanceSound(PostTxnStep(db, rt, t, key).db)
  {
    var w := PostTxnWrites(db, rt, t, key);
    WriteKeeps(db, w);
  }

  lemma ValidatedBooks(platform: Platform)
    ensures Reachable(OneTxn(TxnStatus.Validated, platform)) && FinanceSound(OneTxn(TxnStatus.Validated, platform))
  {
    ValidatedReached(platform);
    ReachableSound(OneTxn(TxnStatus.Validated, platform));
  }

  lemma PostedHides(platform: Platform)
    requires FinanceSound(OneTxn(TxnStatus.Validated, platform))
    ensures var posted := PostTxnStep(OneTxn(TxnStatus.Validated, platform), 0, 0, None).db;
            && 0 in posted.accounts
            && MapSum(LiveBalances(ArchiveLate(posted, 0, false).accounts, 0)) == NetPosted(posted.txns, 0) - 100
  {
    Posted100(platform);
    PostedBooks(OneTxn(TxnStatus.Validated, platform), 0, 0, None);
    ArchiveHides(PostTxnStep(OneTxn(TxnStatus.Validated, platform), 0, 0, None).db, 0);
  }

  /** A reachable state, and one posting between archiving's phases, after which 100 are in no live account. */
  lemma MoneyCanLeaveSight(platform: Platform) returns (db: Db, posted: Db)
    ensures Reachable(db) && ArchiveSeen(db, 0, 0) == Some(false)
    ensures posted == PostTxnStep(db, 0, 0, None).db && 0 in posted.accounts
    ensures MapSum(LiveBalances(ArchiveLate(posted, 0, false).accounts, 0)) == NetPosted(posted.txns, 0) - 100
  {
    db := OneTxn(TxnStatus.Validated, platform);
    posted := PostTxnStep(db, 0, 0, None).db;
    ValidatedBooks(platform);
    PostedHides(platform);
  }

  function Expense100(): DraftCommand {
    DraftCommand(Particulars(Expense, 0, 1, 100, "", 0, None, None, None), None)
  }

  /** An income and an expense of 100 on one account without rows. */
  function TwoTxns(income: TxnStatus, expense: TxnStatus): Db {
    Start(Simple()).(
      accounts := map[0 := NewAccount(0, "a")],
      categories := TwoCategories(),
      txns := map[0 := Txn(0, Income100().what, Some("k"), income, 0), 1 := Txn(0, Expense100().what, None, expense, 0)])
  }

  function TwoCategories(): map<Id, Category> {
    map[0 := Category(Some(0), "c", Income, false, true, false), 1 := Category(Some(0), "d", Expense, false, true, false)]
  }

  lemma AccountOpened()
    ensures Reachable(Start(Simple()).(accounts := map[0 := NewAccount(0, "a")], categories := TwoCategories()))
  {
    var withAccount := Start(Simple()).(accounts := map[0 := NewAccount(0, "a")]);
    StartReachable(Simple());
    assert AccountsWithKey(map[], 0, "a") == {};
    FinanceReaches(Start(Simple()), CreateAccount(0, 0, "a"), withAccount);
    FinanceReaches(withAccount, SetCategories(TwoCategories()), withAccount.(categories := TwoCategories()));
  }

  lemma DraftsReached()
    ensures Reachable(TwoTxns(TxnStatus.Draft, TxnStatus.Draft))
  {
    var furnished := Start(Simple()).(accounts := map[0 := NewAccount(0, "a")], categories := TwoCategories());
    var one := furnished.(txns := map[0 := Txn(0, Income100().what, Some("k"), TxnStatus.Draft, 0)]);
    AccountOpened();
    assert KeyHolders(map[], 0, "k") == {};
    FinanceReaches(furnished, CreateDraft(Boss(), 0, Income100()), one);
    SecondDraft(one);
    FinanceReaches(one, CreateDraft(Boss(), 1, Expense100()), TwoTxns(TxnStatus.Draft, TxnStatus.Draft));
  }

  lemma SecondDraft(one: Db)
    requires one == TwoTxns(TxnStatus.Draft, TxnStatus.Draft).(txns := map[0 := Txn(0, Income100().what, Some("k"), TxnStatus.Draft, 0)])
    ensures CreateDraftStep(one, Boss(), 1, Expense100()).db == TwoTxns(TxnStatus.Draft, TxnStatus.Draft)
  {
  }

  lemma BothValidated()
    ensures Reachable(TwoTxns(TxnStatus.Validated, TxnStatus.Validated))
  {
    DraftsReached();
    FinanceReaches(TwoTxns(TxnStatus.Draft, TxnStatus.Draft), ValidateTxn(0, 0), TwoTxns(TxnStatus.Validated, TxnStatus.Draft));
    SecondValidated();
  }

  lemma SecondValidated()
    requires Reachable(TwoTxns(TxnStatus.Validated, TxnStatus.Draft))
    ensures Reachable(TwoTxns(TxnStatus.Validated, TxnStatus.Validated))
  {
    FinanceReaches(TwoTxns(TxnStatus.Validated, TxnStatus.Draft), ValidateTxn(0, 1), TwoTxns(TxnStatus.Validated, TxnStatus.Validated));
  }

  /** After the income: one row, a balance of 100. */
  function IncomePosted(): Db {
    TwoTxns(TxnStatus.Posted, TxnStatus.Validated).(
      accounts := map[0 := NewAccount(0, "a").(currentBalance := 100, version := 2)],
      ledger := [LedgerRow(0, 0, 0, 1, Increase, 100, 0, 100)])
  }

  lemma IncomePosts()
    ensures PostTxnStep(TwoTxns(TxnStatus.Validated, TxnStatus.Validated), 0, 0, None).db == IncomePosted()
  {
    var db := TwoTxns(TxnStatus.Validated, TxnStatus.Validated);
    assert Latest(db.ledger, 0, 0) == None;
    assert PostRefusal(db, 0, None) == None;
  }

  lemma ExpensePosts()
    ensures var after := PostTxnStep(IncomePosted(), 0, 1, None).db;
            && after.accounts == map[0 := NewAccount(0, "a").(version := 3)]
            && after.ledger == IncomePosted().ledger + [LedgerRow(0, 0, 1, 2, Decrease, 100, 100, 0)]
  {
    var db := IncomePosted();
    assert Latest([], 0, 0) == None;
    assert db.ledger[..0] == [];
    assert Latest(db.ledger, 0, 0) == Some(db.ledger[0]);
    assert GateOf(db, 1) == Open;
    assert PostRefusal(db, 1, None) == None;
  }

  lemma TwoRows()
    ensures |RowsOf(IncomePosted().ledger + [LedgerRow(0, 0, 1, 2, Decrease, 100, 100, 0)], 0)| == 2
  {
    RowsAppend([], IncomePosted().ledger[0], 0);
    assert [] + [IncomePosted().ledger[0]] == IncomePosted().ledger;
    RowsAppend(IncomePosted().ledger, LedgerRow(0, 0, 1, 2, Decrease, 100, 100, 0), 0);
  }

  lemma BothPost(later: Db)
    requires later == PostTxnStep(PostTxnStep(TwoTxns(TxnStatus.Validated, TxnStatus.Validated), 0, 0, None).db, 0, 1, None).db
    ensures later.accounts == map[0 := NewAccount(0, "a").(version := 3)] && |RowsOf(later.ledger, 0)| == 2
  {
    IncomePosts();
    ExpensePosts();
    TwoRows();
  }

  /**
   A reachable state and two postings between archiving's phases, of 100 in and 100 out: the account
   is empty again, no money is lost, and it is deleted with two rows.
   */
  lemma EmptyAccountDeletedWithRows() returns (db: Db, later: Db)
    ensures Reachable(db) && ArchiveSeen(db, 0, 0) == Some(false)
    ensures later == PostTxnStep(PostTxnStep(db, 0, 0, None).db, 0, 1, None).db && 0 in later.accounts
    ensures later.accounts[0].currentBalance == 0 && ArchiveLate(later, 0, false).accounts[0].deleted
    ensures |RowsOf(later.ledger, 0)| == 2
  {
    db := TwoTxns(TxnStatus.Validated, TxnStatus.Validated);
    BothValidated();
    later := PostTxnStep(PostTxnStep(db, 0, 0, None).db, 0, 1, None).db;
    BothPost(later);
  }
}
