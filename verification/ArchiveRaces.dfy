/**
 Archiving split into its count and its unguarded write, among everything else that runs: other
 archives, postings, collection calls in flight. An account may then be deleted with ledger rows, so
 the invariant is that of the books with every deletion undone.
 */
module ArchiveRaces {
  import opened Prelude
  import opened Sums
  import opened Tables
  import opened FinanceOps
  import opened LedgerLaws
  import opened FinanceLaws
  import opened ApprovalOps
  import opened ApprovalLaws
  import opened CollectionOps
  import opened System
  import opened SystemLaws
  import opened Interleaving
  import opened Races

  // ----- Undoing deletions ---------------------------------------------------------------------

  function Kept(account: Account): Account {
    account.(deleted := false)
  }

  function AllKept(accounts: map<Id, Account>): map<Id, Account> {
    map a | a in accounts :: Kept(accounts[a])
  }

  /** The database with every deletion of an account undone. */
  function Undeleted(db: Db): Db {
    db.(accounts := AllKept(db.accounts))
  }

  function UndeletedWrite(w: Write): Write {
    if w.PutAccount? then w.(accountRow := Kept(w.accountRow)) else w
  }

  lemma KeptWrite(accounts: map<Id, Account>, a: Id, account: Account)
    ensures AllKept(accounts[a := account]) == AllKept(accounts)[a := Kept(account)]
  {
  }

  lemma SameKeys(accounts: map<Id, Account>, rt: Id, key: string)
    ensures AccountsWithKey(AllKept(accounts), rt, key) == AccountsWithKey(accounts, rt, key)
  {
  }

  lemma PutUndeleted(db: Db, a: Id, row: Account)
    requires Allowed(db, PutAccount(a, row))
    ensures Allowed(Undeleted(db), PutAccount(a, Kept(row)))
    ensures Applied(Undeleted(db), PutAccount(a, Kept(row))) == Undeleted(Applied(db, PutAccount(a, row)))
  {
    SameKeys(db.accounts, row.rt, row.key);
    KeptWrite(db.accounts, a, row);
  }

  lemma ReadyUndeleted(db: Db, rt: Id, from: Choice, under: Choice)
    ensures WithCategory(WithAccount(Undeleted(db), rt, from), rt, under) == Undeleted(WithCategory(WithAccount(db, rt, from), rt, under))
  {
    if from.Created? {
      KeptWrite(db.accounts, from.id, NewAccount(rt, MAIN));
    }
  }

  lemma BookedUndeleted(ready: Db, t: Id, x: Txn, key: Option<string>)
    requires AppendRefusal(ready.accounts, ready.ledger, t, x) == None
    ensures AppendRefusal(Undeleted(ready).accounts, ready.ledger, t, x) == None
    ensures Booked(Undeleted(ready), t, x, key) == Undeleted(Booked(ready, t, x, key))
  {
    var a := x.what.account;
    KeptWrite(ready.accounts, a, AccountAfter(ready.accounts[a], NextRow(ready.ledger, t, x)));
  }

  lemma BookUndeleted(db: Db, w: Write)
    requires w.Book? && Allowed(db, w)
    ensures Allowed(Undeleted(db), w) && Applied(Undeleted(db), w) == Undeleted(Applied(db, w))
  {
    SameKeys(db.accounts, w.rt, MAIN);
    ReadyUndeleted(db, w.rt, w.from, w.under);
    BookedUndeleted(WithCategory(WithAccount(db, w.rt, w.from), w.rt, w.under), w.txn, w.row, w.key);
  }

  /** Undoing deletions before a write or after it is the same. */
  lemma WriteUndeleted(db: Db, w: Write)
    requires Allowed(db, w)
    ensures Allowed(Undeleted(db), UndeletedWrite(w))
    ensures Applied(Undeleted(db), UndeletedWrite(w)) == Undeleted(Applied(db, w))
  {
    match w
    case PutAccount(a, row) => PutUndeleted(db, a, row);
    case Book(_, _, _, _, _, _) => BookUndeleted(db, w);
    case _ =>
  }

  /** The books are in order, but for deletions. */
  ghost predicate Ordered(db: Db) {
    FinanceSound(Undeleted(db)) && ApprovalsSound(db.approvals, db.txns)
  }

  lemma WriteOrdered(db: Db, after: Db, w: Write)
    requires Ordered(db) && Makes(db, after, w)
    ensures Ordered(after)
  {
    WriteUndeleted(db, w);
    WriteKeeps(Undeleted(db), UndeletedWrite(w));
    AppliedFrame(db, w);
    ApprovalsSurvive(db.approvals, db.txns, after.txns);
  }

  lemma ApprovalUndeleted(db: Db, p: ApprovalOp)
    requires Ordered(db)
    ensures Ordered(ApprovalStep(db, p).db)
  {
    var after := ApprovalStep(db, p).db;
    ApprovalStepKeeps(db, p);
    ShapeUndeleted(db, after);
    ApprovalStepSound(Undeleted(db), Undeleted(after));
  }

  lemma ShapeUndeleted(db: Db, after: Db)
    requires ApprovalShape(db, after)
    ensures ApprovalShape(Undeleted(db), Undeleted(after))
  {
  }

  lemma FinanceOrdered(db: Db, f: FinanceOp)
    requires Ordered(db)
    ensures Ordered(FinanceStep(db, f).db)
  {
    var w := FinanceStepWrites(db, f);
    WriteOrdered(db, FinanceStep(db, f).db, w);
  }

  lemma SessionsOrdered(db: Db, collections: map<Id, Collection>, master: MasterData)
    requires Ordered(db)
    ensures Ordered(db.(collections := collections, master := master))
  {
  }

  lemma AtomicOrdered(db: Db, op: Op)
    requires Ordered(db) && Serializable(op)
    ensures Ordered(Step(db, op).db)
  {
    match op
    case Finance(f) => FinanceOrdered(db, f);
    case Approve(p) => ApprovalUndeleted(db, p);
    case Collect(c) =>
      CreateInserts(db, c.actor, c.newId, c.create);
      SessionsOrdered(db, Step(db, op).db.collections, db.master);
    case SetMaster(master) => SessionsOrdered(db, db.collections, master);
  }

  // ----- Runs with split archives ---------------------------------------------------------------

  /** An archive between its count and its write. */
  datatype Archive = Archive(account: Id, hadRows: bool)

  datatype Desk = Desk(shared: Shared, archives: map<Id, Archive>)

  datatype DeskEvent =
    | Count(id: Id, rt: Id, account: Id)
    | Write(id: Id)
    | Elsewhere(event: Event)

  ghost function Written(d: Desk, id: Id): Desk
    requires id in d.archives && d.archives[id].account in d.shared.db.accounts
  {
    Desk(d.shared.(db := ArchiveLate(d.shared.db, d.archives[id].account, d.archives[id].hadRows)), d.archives - {id})
  }

  ghost function DeskNext(d: Desk, e: DeskEvent): Desk {
    match e
    case Count(id, rt, a) =>
      if id in d.archives || ArchiveSeen(d.shared.db, rt, a).None? then d
      else d.(archives := d.archives[id := Archive(a, ArchiveSeen(d.shared.db, rt, a).value)])
    case Write(id) => if id in d.archives && d.archives[id].account in d.shared.db.accounts then Written(d, id) else d
    case Elsewhere(event) => d.(shared := Next(d.shared, event))
  }

  ghost function DeskRun(d: Desk, events: seq<DeskEvent>): Desk
    decreases |events|
  {
    if events == [] then d else DeskRun(DeskNext(d, events[0]), events[1..])
  }

  lemma LateOrdered(db: Db, a: Id, hadRows: bool)
    requires Ordered(db) && a in db.accounts
    ensures Ordered(ArchiveLate(db, a, hadRows))
  {
    var row := Kept(db.accounts[a].(isActive := false));
    KeptWrite(db.accounts, a, db.accounts[a].(isActive := false, deleted := !hadRows));
    WriteKeeps(Undeleted(db), PutAccount(a, row));
  }

  lemma EventOrdered(s: Shared, e: Event)
    requires Ordered(s.db)
    ensures Ordered(Next(s, e).db)
  {
    match e
    case Commit(id) =>
      if id in s.flights {
        SessionsOrdered(s.db, Committed(s.db, s.flights[id]).collections, s.db.master);
      }
    case Atomic(op) =>
      if Serializable(op) {
        AtomicOrdered(s.db, op);
      }
    case _ =>
  }

  lemma DeskOrdered(d: Desk, e: DeskEvent)
    requires Ordered(d.shared.db)
    ensures Ordered(DeskNext(d, e).shared.db)
  {
    match e
    case Count(_, _, _) =>
    case Write(id) =>
      if id in d.archives && d.archives[id].account in d.shared.db.accounts {
        LateOrdered(d.shared.db, d.archives[id].account, d.archives[id].hadRows);
      }
    case Elsewhere(event) => EventOrdered(d.shared, event);
  }

  lemma {:induction false} RunOrdered(d: Desk, events: seq<DeskEvent>)
    requires Ordered(d.shared.db)
    ensures Ordered(DeskRun(d, events).shared.db)
    decreases |events|
  {
    if events != [] {
      DeskOrdered(d, events[0]);
      RunOrdered(DeskNext(d, events[0]), events[1..]);
    }
  }

  ghost predicate ReachableDesk(d: Desk) {
    exists master, platform, events :: d == DeskRun(Desk(Shared(Empty(master, platform), map[]), map[]), events)
  }

  lemma ReachableOrdered(d: Desk)
    requires ReachableDesk(d)
    ensures Ordered(d.shared.db)
  {
    var master, platform, events :| d == DeskRun(Desk(Shared(Empty(master, platform), map[]), map[]), events);
    EmptyOrdered(master, platform);
    RunOrdered(Desk(Shared(Empty(master, platform), map[]), map[]), events);
  }

  lemma EmptyOrdered(master: MasterData, platform: Platform)
    ensures Ordered(Empty(master, platform))
  {
    EmptySound(master, platform);
    assert Undeleted(Empty(master, platform)) == Empty(master, platform);
  }

  // ----- Theorems ------------------------------------------------------------------------------

  /** Deleted or not: every account agrees with its ledger rows in every such run. */
  lemma BooksAgreeUnderRaces(d: Desk, a: Id)
    requires ReachableDesk(d) && a in d.shared.db.accounts
    ensures var account, rows := d.shared.db.accounts[a], RowsOf(d.shared.db.ledger, a);
            && Chain(rows) && account.currentBalance == LastBalance(rows) == SignedTotal(rows) && account.currentBalance >= 0
            && account.version == |rows| + 1
  {
    var db := d.shared.db;
    ReachableOrdered(d);
    assert AccountMatches(AllKept(db.accounts)[a], RowsOf(db.ledger, a));
    ChainAdds(RowsOf(db.ledger, a));
    LastNotNegative(RowsOf(db.ledger, a));
  }

  lemma LastNotNegative(rows: seq<LedgerRow>)
    requires Chain(rows)
    ensures LastBalance(rows) >= 0
  {
    assert rows != [] ==> Linked(rows, |rows| - 1);
  }

  lemma SameBalances(accounts: map<Id, Account>, rt: Id)
    ensures Balances(AllKept(accounts), rt) == Balances(accounts, rt)
  {
  }

  /** No money appears or disappears: all accounts of a tenant, deleted ones included, hold what it posted, net. */
  lemma MoneyConservedUnderRaces(d: Desk, rt: Id)
    requires ReachableDesk(d)
    ensures MapSum(Balances(d.shared.db.accounts, rt)) == NetPosted(d.shared.db.txns, rt)
  {
    ReachableOrdered(d);
    SameBalances(d.shared.db.accounts, rt);
    assert ConservedIn(Undeleted(d.shared.db).accounts, d.shared.db.txns, rt);
  }

  /** Balances of the deleted accounts. */
  ghost function HiddenBalances(accounts: map<Id, Account>, rt: Id): map<Id, int> {
    map a | a in accounts && accounts[a].rt == rt && accounts[a].deleted :: accounts[a].currentBalance
  }

  /**
   What is in sight: the live accounts of a tenant and its deleted ones add up to what it posted, so
   the live ones hold all of it exactly if every deleted account is empty.
   */
  lemma LiveMoneyExact(d: Desk, rt: Id)
    requires ReachableDesk(d)
    ensures var db := d.shared.db;
            && MapSum(LiveBalances(db.accounts, rt)) + MapSum(HiddenBalances(db.accounts, rt)) == NetPosted(db.txns, rt)
            && (MapSum(LiveBalances(db.accounts, rt)) == NetPosted(db.txns, rt)
                <==> forall a :: a in db.accounts && db.accounts[a].rt == rt && db.accounts[a].deleted ==>
                       db.accounts[a].currentBalance == 0)
  {
    var db := d.shared.db;
    var hidden := HiddenBalances(db.accounts, rt);
    MoneyConservedUnderRaces(d, rt);
    assert Balances(db.accounts, rt) == LiveBalances(db.accounts, rt) + hidden;
    SumParts(LiveBalances(db.accounts, rt), hidden);
    forall a | a in hidden ensures hidden[a] >= 0 {
      BooksAgreeUnderRaces(d, a);
    }
    SumZero(hidden);
    assert forall a :: a in hidden ==> a in db.accounts && hidden[a] == db.accounts[a].currentBalance;
    assert forall a :: a in db.accounts && db.accounts[a].rt == rt && db.accounts[a].deleted ==> a in hidden;
  }

  // ----- How an account with rows gets deleted ---------------------------------------------------

  ghost predicate HidesRows(db: Db, a: Id) {
    a in db.accounts && db.accounts[a].deleted && RowsOf(db.ledger, a) != []
  }

  lemma PutHidesNothing(db: Db, b: Id, row: Account, a: Id)
    requires Ordered(db) && Allowed(db, PutAccount(b, row)) && !HidesRows(db, a)
    ensures !HidesRows(Applied(db, PutAccount(b, row)), a)
  {
    RowsBelong(db.ledger, b);
    assert RowsHaveAccounts(AllKept(db.accounts), db.ledger);
  }

  lemma BookHidesNothing(db: Db, w: Write, a: Id)
    requires w.Book? && Allowed(db, w) && !HidesRows(db, a)
    ensures !HidesRows(Applied(db, w), a)
  {
    var ready := WithCategory(WithAccount(db, w.rt, w.from), w.rt, w.under);
    RowsAppend(db.ledger, NextRow(ready.ledger, w.txn, w.row), a);
  }

  lemma StepHidesNothing(db: Db, op: Op, a: Id)
    requires Ordered(db) && Serializable(op) && !HidesRows(db, a)
    ensures !HidesRows(Step(db, op).db, a)
  {
    match op
    case Finance(f) => FinanceHidesNothing(db, f, a);
    case Approve(p) => ApprovalStepKeeps(db, p);
    case Collect(c) => CreateInserts(db, c.actor, c.newId, c.create);
    case SetMaster(_) =>
  }

  lemma FinanceHidesNothing(db: Db, f: FinanceOp, a: Id)
    requires Ordered(db) && !HidesRows(db, a)
    ensures !HidesRows(FinanceStep(db, f).db, a)
  {
    var w := FinanceStepWrites(db, f);
    match w
    case PutAccount(b, row) => PutHidesNothing(db, b, row, a);
    case Book(_, _, _, _, _, _) => BookHidesNothing(db, w, a);
    case _ =>
  }

  lemma EventHidesNothing(s: Shared, e: Event, a: Id)
    requires Ordered(s.db) && !HidesRows(s.db, a)
    ensures !HidesRows(Next(s, e).db, a)
  {
    match e
    case Atomic(op) =>
      if Serializable(op) {
        StepHidesNothing(s.db, op, a);
      }
    case _ =>
  }

  /** The late write of an archive that saw no row, on an account that has rows by now. */
  ghost predicate WritesLate(d: Desk, e: DeskEvent, a: Id) {
    && e.Write? && e.id in d.archives && d.archives[e.id] == Archive(a, false)
    && a in d.shared.db.accounts && RowsOf(d.shared.db.ledger, a) != []
  }

  /** In every state of such a run, an account with rows becomes deleted exactly by such a write. */
  lemma HiddenOnlyByLateWrite(d: Desk, e: DeskEvent, a: Id)
    requires ReachableDesk(d) && !HidesRows(d.shared.db, a)
    ensures HidesRows(DeskNext(d, e).shared.db, a) <==> WritesLate(d, e, a)
  {
    ReachableOrdered(d);
    if e.Elsewhere? {
      EventHidesNothing(d.shared, e.event, a);
    }
  }
}
