/** What every finance step keeps, and how accounts, transactions and ledger may change over time. */
module FinanceLaws {
  import opened Prelude
  import opened Tables
  import opened Policy
  import opened FinanceOps
  import opened LedgerLaws

  // ----- Invariant -----------------------------------------------------------------------------

  ghost predicate UniqueTxns(txns: map<Id, Txn>) {
    forall t, u :: t in txns && u in txns && t != u ==> !Clash(txns[t], txns[u])
  }

  /** The unique indexes: rows that clash are one row. */
  lemma NoClash(txns: map<Id, Txn>, t: Id, u: Id)
    requires UniqueTxns(txns) && t in txns && u in txns && Clash(txns[t], txns[u])
    ensures u == t
  {
  }

  ghost predicate UniqueAccounts(accounts: map<Id, Account>) {
    forall a, b :: a in accounts && b in accounts && a != b ==>
      !(accounts[a].rt == accounts[b].rt && accounts[a].key == accounts[b].key)
  }

  ghost predicate AmountsPositive(txns: map<Id, Txn>) {
    forall t :: t in txns ==> txns[t].what.amount > 0
  }

  ghost predicate FinanceSound(db: Db) {
    && Books(db.accounts, db.ledger)
    && RowsMatch(db.txns, db.ledger)
    && Conserved(db.accounts, db.txns)
    && AmountsPositive(db.txns)
    && UniqueTxns(db.txns)
    && UniqueAccounts(db.accounts)
    && UniqueCategories(db.categories)
  }

  // ----- Change over time ----------------------------------------------------------------------

  /** The lifecycle, closed under any number of moves. */
  predicate CanMove(from: TxnStatus, to: TxnStatus) {
    match from
    case Draft => true
    case Validated => to in {TxnStatus.Validated, TxnStatus.Posted, TxnStatus.Rejected}
    case _ => to == from
  }

  predicate Final(status: TxnStatus) {
    status in {TxnStatus.Posted, TxnStatus.Rejected, Voided}
  }

  /** Particulars, tenant and author never change; a final transaction never changes at all. */
  ghost predicate TxnEvolves(x: Txn, y: Txn) {
    && y.rt == x.rt && y.what == x.what && y.createdBy == x.createdBy
    && CanMove(x.status, y.status)
    && (Final(x.status) ==> y == x)
  }

  ghost predicate TxnsEvolve(txns: map<Id, Txn>, txns': map<Id, Txn>) {
    forall t :: t in txns ==> t in txns' && TxnEvolves(txns[t], txns'[t])
  }

  ghost predicate AccountsEvolve(accounts: map<Id, Account>, accounts': map<Id, Account>) {
    forall a :: a in accounts ==>
      && a in accounts' && accounts'[a].rt == accounts[a].rt && accounts'[a].key == accounts[a].key
      && accounts'[a].version >= accounts[a].version
  }

  ghost predicate FinanceEvolves(db: Db, db': Db) {
    && TxnsEvolve(db.txns, db'.txns)
    && AccountsEvolve(db.accounts, db'.accounts)
    && db.ledger <= db'.ledger
  }

  lemma FinanceEvolvesTransitive(a: Db, b: Db, c: Db)
    requires FinanceEvolves(a, b) && FinanceEvolves(b, c)
    ensures FinanceEvolves(a, c)
  {
  }

  // ----- The ways a step writes ----------------------------------------------------------------

  /** Everything a finance step can do to the database. */
  datatype Write =
    | Nothing
    | PutAccount(account: Id, accountRow: Account)
    | PutCategories(categories: map<Id, Category>)
    | PutTxn(txn: Id, row: Txn)
    | Book(rt: Id, from: Choice, under: Choice, txn: Id, row: Txn, key: Option<string>)

  /** The transaction carries the posting amount of a validated collection of its tenant. */
  ghost predicate ComesFrom(x: Txn, collections: map<Id, Collection>) {
    && x.what.kind == Income && x.what.source.Some? && x.what.source.value in collections
    && var c := collections[x.what.source.value];
       && c.rt == x.rt && c.status == CollectionStatus.Validated
       && PostingAmount(c) == Some(x.what.amount) && x.what.amount > 0
  }

  ghost predicate Allowed(db: Db, w: Write) {
    match w
    case Nothing => true
    case PutAccount(a, row) =>
      if a in db.accounts then
        && row == db.accounts[a].(isActive := row.isActive, deleted := row.deleted)
        && (row.deleted ==> forall i :: 0 <= i < |db.ledger| && db.ledger[i].account == a ==> db.ledger[i].rt != row.rt)
      else
        row == NewAccount(row.rt, row.key) && AccountsWithKey(db.accounts, row.rt, row.key) == {}
    case PutCategories(categories) => UniqueCategories(categories)
    case PutTxn(t, x) =>
      if t in db.txns then
        && !Final(db.txns[t].status) && CanMove(db.txns[t].status, x.status) && x.status != TxnStatus.Posted
        && x == db.txns[t].(status := x.status)
      else
        && x.status == TxnStatus.Draft && x.what.amount > 0 && x.what.source == None
        && !TxnCollides(db.txns, t, x)
    case Book(rt, from, under, t, x, key) =>
      var ready := WithCategory(WithAccount(db, rt, from), rt, under);
      && (from.Created? ==> from.id !in db.accounts && AccountsWithKey(db.accounts, rt, MAIN) == {})
      && (under.Created? ==> under.id !in db.categories && JimpitanCategories(db.categories, rt) == {})
      && (if t in db.txns then db.txns[t] == x && x.status == TxnStatus.Validated else ComesFrom(x, db.collections))
      && AppendRefusal(ready.accounts, ready.ledger, t, x) == None
      && !TxnCollides(db.txns, t, x.(key := key))
  }

  ghost function Applied(db: Db, w: Write): Db
    requires Allowed(db, w)
  {
    match w
    case Nothing => db
    case PutAccount(a, row) => db.(accounts := db.accounts[a := row])
    case PutCategories(categories) => db.(categories := categories)
    case PutTxn(t, x) => db.(txns := db.txns[t := x])
    case Book(rt, from, under, t, x, key) => Booked(WithCategory(WithAccount(db, rt, from), rt, under), t, x, key)
  }

  lemma PutAccountKeeps(db: Db, a: Id, row: Account)
    requires FinanceSound(db) && Allowed(db, PutAccount(a, row))
    ensures FinanceSound(db.(accounts := db.accounts[a := row]))
    ensures AccountsEvolve(db.accounts, db.accounts[a := row])
  {
    RowsBelong(db.ledger, a);
    BooksTouch(db.accounts, db.ledger, a, row);
    ConservedTouch(db.accounts, db.txns, a, row);
    AccountIsNew(db.accounts, a, row);
  }

  lemma AccountIsNew(accounts: map<Id, Account>, a: Id, row: Account)
    requires UniqueAccounts(accounts)
    requires if a in accounts then row.rt == accounts[a].rt && row.key == accounts[a].key
             else AccountsWithKey(accounts, row.rt, row.key) == {}
    ensures UniqueAccounts(accounts[a := row])
  {
    forall b | b in accounts && b != a && accounts[b].rt == row.rt ensures accounts[b].key != row.key {
      assert a !in accounts ==> b !in AccountsWithKey(accounts, row.rt, row.key);
    }
  }

  lemma PutTxnKeeps(db: Db, t: Id, x: Txn)
    requires FinanceSound(db) && Allowed(db, PutTxn(t, x))
    ensures FinanceSound(db.(txns := db.txns[t := x]))
    ensures TxnsEvolve(db.txns, db.txns[t := x])
  {
    RowsMatchMove(db.txns, db.ledger, t, x);
    ConservedMove(db.accounts, db.txns, t, x);
    UniqueWrite(db.txns, t, x);
  }

  lemma UniqueWrite(txns: map<Id, Txn>, t: Id, x: Txn)
    requires UniqueTxns(txns)
    requires (t in txns && x == txns[t].(status := x.status)) || !TxnCollides(txns, t, x)
    ensures UniqueTxns(txns[t := x])
  {
  }

  lemma CategoryIsNew(categories: map<Id, Category>, rt: Id, c: Id)
    requires UniqueCategories(categories) && JimpitanCategories(categories, rt) == {}
    ensures UniqueCategories(categories[c := Category(Some(rt), JIMPITAN, Income, true, true, false)])
  {
    forall d | d in categories && categories[d].rt == Some(rt) && categories[d].kind == Income
      ensures categories[d].key != JIMPITAN
    {
      assert d !in JimpitanCategories(categories, rt);
    }
  }

  lemma ReadyKeeps(db: Db, rt: Id, from: Choice, under: Choice)
    requires FinanceSound(db)
    requires from.Created? ==> from.id !in db.accounts && AccountsWithKey(db.accounts, rt, MAIN) == {}
    requires under.Created? ==> under.id !in db.categories && JimpitanCategories(db.categories, rt) == {}
    ensures FinanceSound(WithCategory(WithAccount(db, rt, from), rt, under))
  {
    if from.Created? {
      PutAccountKeeps(db, from.id, NewAccount(rt, MAIN));
    }
    if under.Created? {
      CategoryIsNew(db.categories, rt, under.id);
    }
  }

  lemma BookedKeeps(db: Db, t: Id, x: Txn, key: Option<string>)
    requires FinanceSound(db)
    requires if t in db.txns then db.txns[t] == x && x.status == TxnStatus.Validated else x.what.amount > 0
    requires AppendRefusal(db.accounts, db.ledger, t, x) == None
    requires !TxnCollides(db.txns, t, x.(key := key))
    ensures FinanceSound(Booked(db, t, x, key))
  {
    var posted := x.(status := TxnStatus.Posted, key := key);
    BooksAppend(db.accounts, db.ledger, t, x);
    RowsMatchPost(db.txns, db.ledger, NextRow(db.ledger, t, x), t, posted);
    ConservedPost(db.accounts, db.txns, db.ledger, t, x, key);
    UniqueWrite(db.txns, t, posted);
  }

  lemma BookKeeps(db: Db, w: Write)
    requires w.Book? && FinanceSound(db) && Allowed(db, w)
    ensures FinanceSound(Applied(db, w))
  {
    ReadyKeeps(db, w.rt, w.from, w.under);
    BookedKeeps(WithCategory(WithAccount(db, w.rt, w.from), w.rt, w.under), w.txn, w.row, w.key);
  }

  lemma BookEvolves(db: Db, rt: Id, from: Choice, under: Choice, t: Id, x: Txn, key: Option<string>)
    requires from.Created? ==> from.id !in db.accounts
    requires x.what.account in WithAccount(db, rt, from).accounts
    requires t in db.txns ==> db.txns[t] == x && x.status == TxnStatus.Validated
    ensures FinanceEvolves(db, Booked(WithCategory(WithAccount(db, rt, from), rt, under), t, x, key))
  {
  }

  /** Every allowed write keeps the books and only moves forward. */
  lemma WriteKeeps(db: Db, w: Write)
    requires FinanceSound(db) && Allowed(db, w)
    ensures FinanceSound(Applied(db, w))
    ensures FinanceEvolves(db, Applied(db, w))
  {
    match w
    case Nothing =>
    case PutAccount(a, row) => PutAccountKeeps(db, a, row);
    case PutCategories(_) =>
    case PutTxn(t, x) => PutTxnKeeps(db, t, x);
    case Book(rt, from, under, t, x, key) =>
      BookKeeps(db, w);
      BookEvolves(db, rt, from, under, t, x, key);
  }

  // ----- Every step is one allowed write -------------------------------------------------------

  ghost predicate Makes(db: Db, db': Db, w: Write) {
    Allowed(db, w) && db' == Applied(db, w)
  }

  lemma AccountStepWrites(db: Db, op: FinanceOp) returns (w: Write)
    requires OnAccounts(op)
    ensures Makes(db, AccountStep(db, op).db, w)
  {
    var step := AccountStep(db, op);
    w := if !step.reply.Done? then Nothing
         else if op.SetCategories? then PutCategories(op.categories)
         else PutAccount(step.reply.id, step.db.accounts[step.reply.id]);
    match op
    case CreateAccount(_, _, _) =>
    case UpdateAccount(_, _, _) =>
    case ArchiveAccount(_, _) =>
    case EnsureMainAccount(_, _) =>
    case SetCategories(_) =>
  }

  lemma CreateDraftWrites(db: Db, actor: Actor, newId: Id, command: DraftCommand) returns (w: Write)
    ensures Makes(db, CreateDraftStep(db, actor, newId, command).db, w)
    ensures !w.PutAccount?
  {
    if CreateDraftStep(db, actor, newId, command).reply.Done? {
      w := PutTxn(newId, Txn(actor.rt, command.what, command.key, TxnStatus.Draft, actor.user));
    } else {
      w := Nothing;
    }
  }

  lemma MoveWrites(db: Db, rt: Id, t: Id, from: set<TxnStatus>, to: TxnStatus) returns (w: Write)
    requires to != TxnStatus.Posted && forall s :: s in from ==> !Final(s) && CanMove(s, to)
    ensures Makes(db, MoveStep(db, rt, t, from, to).db, w)
    ensures !w.PutAccount?
  {
    w := if MoveStep(db, rt, t, from, to).reply.Done? then PutTxn(t, db.txns[t].(status := to)) else Nothing;
  }

  lemma PostTxnWrites(db: Db, rt: Id, t: Id, key: Option<string>) returns (w: Write)
    ensures Makes(db, PostTxnStep(db, rt, t, key).db, w)
    ensures !w.PutAccount?
  {
    if PostTxnStep(db, rt, t, key).reply.Done? {
      var x := db.txns[t];
      w := Book(rt, Existing(x.what.account), Existing(x.what.category), t, x, KeyAfterPosting(x.key, key));
    } else {
      w := Nothing;
    }
  }

  /** The choices a collection posting makes create rows only where there are none yet. */
  lemma ChosenAreNew(db: Db, rt: Id, post: PostCollectionCommand, ids: NewIds)
    ensures var from := ChooseAccount(db, rt, post.account, ids.account);
            from.Created? ==> from.id !in db.accounts && AccountsWithKey(db.accounts, rt, MAIN) == {}
    ensures var under := ChooseCategory(db, rt, post.category, ids.category);
            under.Created? ==> under.id !in db.categories && JimpitanCategories(db.categories, rt) == {}
  {
  }

  lemma BookCollectionWrites(db: Db, actor: Actor, post: PostCollectionCommand, ids: NewIds) returns (w: Write)
    requires post.collection in db.collections && db.collections[post.collection].rt == actor.rt
    requires db.collections[post.collection].status == CollectionStatus.Validated && PostingAmount(db.collections[post.collection]).Some?
    ensures Makes(db, BookCollection(db, actor, post, ids).db, w)
    ensures !w.PutAccount?
  {
    if BookCollection(db, actor, post, ids).reply.Done? {
      var c := db.collections[post.collection];
      var from := ChooseAccount(db, actor.rt, post.account, ids.account);
      var under := ChooseCategory(db, actor.rt, post.category, ids.category);
      var x := CollectionTxn(actor, c, post, PostingAmount(c).value, from.id, under.id);
      ChosenAreNew(db, actor.rt, post, ids);
      w := Book(actor.rt, from, under, ids.txn, x, x.key);
    } else {
      w := Nothing;
    }
  }

  lemma PostCollectionWrites(db: Db, actor: Actor, post: PostCollectionCommand, ids: NewIds) returns (w: Write)
    ensures Makes(db, PostCollectionStep(db, actor, post, ids).db, w)
    ensures !w.PutAccount?
  {
    if PostCollectionStep(db, actor, post, ids).reply.Done? {
      w := BookCollectionWrites(db, actor, post, ids);
    } else {
      w := Nothing;
    }
  }

  predicate OnStatus(op: FinanceOp) {
    op.ValidateTxn? || op.RejectTxn? || op.VoidTxn?
  }

  lemma StatusStepWrites(db: Db, op: FinanceOp) returns (w: Write)
    requires OnStatus(op)
    ensures Makes(db, FinanceStep(db, op).db, w)
    ensures !w.PutAccount?
  {
    match op
    case ValidateTxn(rt, t) => w := MoveWrites(db, rt, t, {TxnStatus.Draft}, TxnStatus.Validated);
    case RejectTxn(rt, t) => w := MoveWrites(db, rt, t, {TxnStatus.Draft, TxnStatus.Validated}, TxnStatus.Rejected);
    case VoidTxn(rt, t) => w := MoveWrites(db, rt, t, {TxnStatus.Draft}, TxnStatus.Voided);
  }

  lemma DraftOpWrites(db: Db, actor: Actor, newId: Id, command: DraftCommand) returns (w: Write)
    ensures Makes(db, FinanceStep(db, CreateDraft(actor, newId, command)).db, w) && !w.PutAccount?
  {
    w := CreateDraftWrites(db, actor, newId, command);
  }

  lemma PostOpWrites(db: Db, rt: Id, t: Id, key: Option<string>) returns (w: Write)
    ensures Makes(db, FinanceStep(db, PostTxn(rt, t, key)).db, w) && !w.PutAccount?
  {
    w := PostTxnWrites(db, rt, t, key);
  }

  lemma PostCollectionOpWrites(db: Db, actor: Actor, post: PostCollectionCommand, ids: NewIds) returns (w: Write)
    ensures Makes(db, FinanceStep(db, PostCollection(actor, post, ids)).db, w) && !w.PutAccount?
  {
    w := PostCollectionWrites(db, actor, post, ids);
  }

  lemma AccountOpWrites(db: Db, op: FinanceOp) returns (w: Write)
    requires OnAccounts(op)
    ensures Makes(db, FinanceStep(db, op).db, w)
  {
    w := AccountStepWrites(db, op);
  }

  lemma FinanceStepWrites(db: Db, op: FinanceOp) returns (w: Write)
    ensures Makes(db, FinanceStep(db, op).db, w)
    ensures w.PutAccount? ==> OnAccounts(op)
  {
    if OnStatus(op) {
      w := StatusStepWrites(db, op);
    } else if OnAccounts(op) {
      w := AccountOpWrites(db, op);
    } else {
      match op
      case CreateDraft(actor, newId, command) => w := DraftOpWrites(db, actor, newId, command);
      case PostTxn(rt, t, key) => w := PostOpWrites(db, rt, t, key);
      case PostCollection(actor, post, ids) => w := PostCollectionOpWrites(db, actor, post, ids);
    }
  }
}
