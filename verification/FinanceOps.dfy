/**
 Finance service calls as atomic steps: the service's guards followed by the repository's database
 transaction. A refused step leaves the state it was given, as a rolled back transaction does.
 */
module FinanceOps {
  import opened Prelude
  import opened Sums
  import opened Tables
  import opened Policy

  const MAIN := "main"
  const JIMPITAN := "jimpitan"

  datatype DraftCommand = DraftCommand(what: Particulars, key: Option<string>)

  datatype PostCollectionCommand = PostCollectionCommand(
    collection: Id, account: Option<Id>, category: Option<Id>, key: Option<string>)

  /** Identifiers the database would generate for rows a step may insert. */
  datatype NewIds = NewIds(txn: Id, account: Id, category: Id)

  datatype FinanceOp =
    | CreateAccount(rt: Id, newId: Id, accountKey: string)
    | UpdateAccount(rt: Id, account: Id, active: Option<bool>)
    | ArchiveAccount(rt: Id, account: Id)
    | EnsureMainAccount(rt: Id, newId: Id)
    | SetCategories(categories: map<Id, Category>)
    | CreateDraft(actor: Actor, newId: Id, command: DraftCommand)
    | ValidateTxn(rt: Id, txn: Id)
    | RejectTxn(rt: Id, txn: Id)
    | VoidTxn(rt: Id, txn: Id)
    | PostTxn(rt: Id, txn: Id, key: Option<string>)
    | PostCollection(actor: Actor, post: PostCollectionCommand, ids: NewIds)

  // ----- Lookups -------------------------------------------------------------------------------

  predicate LiveAccount(accounts: map<Id, Account>, rt: Id, a: Id) {
    a in accounts && accounts[a].rt == rt && !accounts[a].deleted
  }

  predicate ActiveAccount(accounts: map<Id, Account>, rt: Id, a: Id) {
    LiveAccount(accounts, rt, a) && accounts[a].isActive
  }

  predicate UsableCategory(categories: map<Id, Category>, rt: Id, c: Id, kind: TxnType) {
    && c in categories
    && !categories[c].deleted && categories[c].isActive && categories[c].kind == kind
    && (categories[c].rt == Some(rt) || (categories[c].rt == None && categories[c].isSystem))
  }

  predicate TxnOf(txns: map<Id, Txn>, rt: Id, t: Id) {
    t in txns && txns[t].rt == rt
  }

  /** Transactions of the tenant that carry this idempotency key; the unique index allows one. */
  function KeyHolders(txns: map<Id, Txn>, rt: Id, key: string): set<Id> {
    set t | t in txns && txns[t].rt == rt && txns[t].key == Some(key)
  }

  function SourceHolders(txns: map<Id, Txn>, collection: Id): set<Id> {
    set t | t in txns && txns[t].what.source == Some(collection)
  }

  function TenantSourceHolders(txns: map<Id, Txn>, rt: Id, collection: Id): set<Id> {
    set t | t in SourceHolders(txns, collection) && txns[t].rt == rt
  }

  function AccountsWithKey(accounts: map<Id, Account>, rt: Id, key: string): set<Id> {
    set a | a in accounts && accounts[a].rt == rt && accounts[a].key == key
  }

  function JimpitanCategories(categories: map<Id, Category>, rt: Id): set<Id> {
    set c | c in categories && categories[c].rt == Some(rt) && categories[c].key == JIMPITAN && categories[c].kind == Income
  }

  /** The one element of a set a unique index keeps small. */
  ghost function Only(s: set<Id>): Id
    requires s != {}
    ensures Only(s) in s
  {
    var x :| x in s; x
  }

  /** The unique index over tenant, key and kind; null tenants never collide. */
  ghost predicate UniqueCategories(categories: map<Id, Category>) {
    forall c, d :: c in categories && d in categories && c != d && categories[c].rt.Some? ==>
      !(categories[c].rt == categories[d].rt && categories[c].key == categories[d].key && categories[c].kind == categories[d].kind)
  }

  predicate Same(a: Option<string>, b: Option<string>) {
    a.Some? && a == b
  }

  /** Two rows no two of which the unique indexes of the transactions table would hold. */
  predicate Clash(x: Txn, y: Txn) {
    || (x.rt == y.rt && Same(x.key, y.key))
    || (x.rt == y.rt && Same(x.what.reference, y.what.reference))
    || (x.rt == y.rt && Same(x.what.externalRef, y.what.externalRef))
    || (x.what.source.Some? && x.what.source == y.what.source)
  }

  /** Would storing row x under id t break a unique index? */
  predicate TxnCollides(txns: map<Id, Txn>, t: Id, x: Txn) {
    exists u :: u in txns && u != t && Clash(x, txns[u])
  }

  // ----- The ledger ----------------------------------------------------------------------------

  function EntryFor(kind: TxnType): EntryType {
    if kind == Expense then Decrease else Increase
  }

  function Signed(entry: EntryType, amount: int): int {
    if entry == Increase then amount else -amount
  }

  /** The row with the highest sequence number of an account, as the ordered query returns it. */
  function Latest(ledger: seq<LedgerRow>, rt: Id, account: Id): Option<LedgerRow> {
    if ledger == [] then None else
      var row := ledger[|ledger| - 1];
      var best := Latest(ledger[..|ledger| - 1], rt, account);
      if row.rt == rt && row.account == account && (best.None? || best.value.sequence < row.sequence)
      then Some(row) else best
  }

  function SequenceOf(latest: Option<LedgerRow>): nat {
    if latest.Some? then latest.value.sequence else 0
  }

  function BalanceOf(latest: Option<LedgerRow>): int {
    if latest.Some? then latest.value.balanceAfter else 0
  }

  /** The balance both modules derive from the ledger, and the sequence number it stands at. */
  function DerivedBalance(db: Db, rt: Id, account: Id): Option<(int, nat)> {
    if !LiveAccount(db.accounts, rt, account) then None else
      var latest := Latest(db.ledger, rt, account);
      Some((BalanceOf(latest), SequenceOf(latest)))
  }

  function NextRow(ledger: seq<LedgerRow>, t: Id, x: Txn): LedgerRow {
    var latest := Latest(ledger, x.rt, x.what.account);
    var entry := EntryFor(x.what.kind);
    LedgerRow(x.rt, x.what.account, t, SequenceOf(latest) + 1, entry, x.what.amount,
              BalanceOf(latest), BalanceOf(latest) + Signed(entry, x.what.amount))
  }

  /** The unique indexes of the ledger: one row per transaction, one per account and sequence. */
  predicate RowCollides(ledger: seq<LedgerRow>, row: LedgerRow) {
    exists i :: 0 <= i < |ledger| &&
      (ledger[i].txn == row.txn || (ledger[i].account == row.account && ledger[i].sequence == row.sequence))
  }

  /** Why the ledger will not take transaction t; None when it will. */
  function AppendRefusal(accounts: map<Id, Account>, ledger: seq<LedgerRow>, t: Id, x: Txn): Option<Refusal> {
    if !ActiveAccount(accounts, x.rt, x.what.account) then Some(StateChanged)
    else if NextRow(ledger, t, x).balanceAfter < 0 then Some(InsufficientBalance)
    else if RowCollides(ledger, NextRow(ledger, t, x)) then Some(UniqueViolation)
    else None
  }

  function AccountAfter(account: Account, row: LedgerRow): Account {
    account.(version := account.version + 1, currentBalance := row.balanceAfter)
  }

  /** The posted row: the account, the ledger and the transaction change together. */
  function Booked(db: Db, t: Id, x: Txn, key: Option<string>): Db
    requires x.what.account in db.accounts
  {
    var row := NextRow(db.ledger, t, x);
    db.(accounts := db.accounts[x.what.account := AccountAfter(db.accounts[x.what.account], row)],
        ledger := db.ledger + [row],
        txns := db.txns[t := x.(status := TxnStatus.Posted, key := key)])
  }

  // ----- Cash accounts and categories ----------------------------------------------------------

  function NewAccount(rt: Id, key: string): Account {
    Account(rt, key, 0, 1, true, false)
  }

  /** Calls on cash accounts, the bootstrap of the main account, and the categories other modules keep. */
  predicate OnAccounts(op: FinanceOp) {
    op.CreateAccount? || op.UpdateAccount? || op.ArchiveAccount? || op.EnsureMainAccount? || op.SetCategories?
  }

  /** The ledger holds a row of the tenant's account. */
  predicate AccountUsed(ledger: seq<LedgerRow>, rt: Id, a: Id) {
    exists i :: 0 <= i < |ledger| && ledger[i].rt == rt && ledger[i].account == a
  }

  ghost function AccountStep(db: Db, op: FinanceOp): Outcome
    requires OnAccounts(op)
  {
    match op
    case CreateAccount(rt, newId, key) =>
      if newId in db.accounts || AccountsWithKey(db.accounts, rt, key) != {} then Outcome(db, Refused(UniqueViolation))
      else Outcome(db.(accounts := db.accounts[newId := NewAccount(rt, key)]), Done(newId))
    case UpdateAccount(rt, a, active) =>
      if !LiveAccount(db.accounts, rt, a) then Outcome(db, Refused(NotFound))
      else Outcome(db.(accounts := db.accounts[a := db.accounts[a].(isActive := active.GetOr(db.accounts[a].isActive))]), Done(a))
    case ArchiveAccount(rt, a) =>
      if !LiveAccount(db.accounts, rt, a) then Outcome(db, Refused(NotFound))
      else
        Outcome(db.(accounts := db.accounts[a := db.accounts[a].(isActive := false, deleted := !AccountUsed(db.ledger, rt, a))]), Done(a))
    case EnsureMainAccount(rt, newId) =>
      var mains := AccountsWithKey(db.accounts, rt, MAIN);
      if mains != {} then
        var a := Only(mains);
        Outcome(db.(accounts := db.accounts[a := db.accounts[a].(isActive := true, deleted := false)]), Done(a))
      else if newId in db.accounts then Outcome(db, Refused(UniqueViolation))
      else Outcome(db.(accounts := db.accounts[newId := NewAccount(rt, MAIN)]), Done(newId))
    case SetCategories(categories) =>
      if !UniqueCategories(categories) then Outcome(db, Refused(UniqueViolation))
      else Outcome(db.(categories := categories), Done(0))
  }

  // ----- Drafts and lifecycle ------------------------------------------------------------------

  const MAX_AMOUNT := 99999999999999

  /** Twelve integer digits, two decimals, positive. */
  predicate CashAmount(amount: int) {
    0 < amount <= MAX_AMOUNT
  }

  /** What the service asks of a draft before the repository looks at its key. */
  function DraftRefusal(db: Db, rt: Id, what: Particulars): Option<Refusal> {
    if what.source.Some? then Some(SourceNotAllowed)
    else if !CashAmount(what.amount) then Some(BadAmount)
    else if !ActiveAccount(db.accounts, rt, what.account) then Some(InactiveAccount)
    else if !UsableCategory(db.categories, rt, what.category, what.kind) then Some(InactiveCategory)
    else None
  }

  ghost function CreateDraftStep(db: Db, actor: Actor, newId: Id, command: DraftCommand): Outcome {
    var refusal := DraftRefusal(db, actor.rt, command.what);
    var row := Txn(actor.rt, command.what, command.key, TxnStatus.Draft, actor.user);
    if refusal.Some? then Outcome(db, Refused(refusal.value))
    else if Truthy(command.key) && KeyHolders(db.txns, actor.rt, command.key.value) != {} then
      var t := Only(KeyHolders(db.txns, actor.rt, command.key.value));
      if db.txns[t].what == command.what then Outcome(db, Replayed(t)) else Outcome(db, Refused(ReplayMismatch))
    else if newId in db.txns || TxnCollides(db.txns, newId, row) then Outcome(db, Refused(UniqueViolation))
    else Outcome(db.(txns := db.txns[newId := row]), Done(newId))
  }

  /** A guarded status change that touches nothing else. */
  ghost function MoveStep(db: Db, rt: Id, t: Id, from: set<TxnStatus>, to: TxnStatus): Outcome {
    if !TxnOf(db.txns, rt, t) then Outcome(db, Refused(NotFound))
    else if db.txns[t].status !in from then Outcome(db, Refused(WrongStatus))
    else Outcome(db.(txns := db.txns[t := db.txns[t].(status := to)]), Done(t))
  }

  // ----- Posting -------------------------------------------------------------------------------

  /** A replay must repeat the stored key; a call without a key always matches. */
  predicate ReplayMatches(stored: Option<string>, requested: Option<string>) {
    !Truthy(requested) || stored == requested
  }

  function GateRefusal(gate: Gate): Option<Refusal> {
    match gate
    case Open => None
    case Malformed => Some(MalformedThreshold)
    case RejectedGate => Some(HasRejectedApproval)
    case ShortOfApprovals => Some(ApprovalRequired)
  }

  ghost function GateOf(db: Db, t: Id): Gate
    requires t in db.txns
  {
    PostingGate(db.platform, SettingOf(db, db.txns[t].rt), db.approvals, t, db.txns[t])
  }

  function SettingOf(db: Db, rt: Id): Option<Json> {
    if rt in db.settings then Some(db.settings[rt]) else None
  }

  function KeyAfterPosting(stored: Option<string>, requested: Option<string>): Option<string> {
    if requested.Some? then requested else stored
  }

  /** Why a requested key may not be used to post transaction t. */
  function PostKeyRefusal(txns: map<Id, Txn>, t: Id, requested: Option<string>): Option<Refusal>
    requires t in txns
  {
    if !Truthy(requested) then None
    else if Truthy(txns[t].key) && txns[t].key != requested then Some(ReplayMismatch)
    else if KeyHolders(txns, txns[t].rt, requested.value) - {t} != {} then Some(KeyOfAnother)
    else None
  }

  /** Everything that can stop the posting of a validated transaction, in the order it is checked. */
  ghost function PostRefusal(db: Db, t: Id, requested: Option<string>): Option<Refusal>
    requires t in db.txns
  {
    var x := db.txns[t];
    var gate := GateRefusal(GateOf(db, t));
    var key := PostKeyRefusal(db.txns, t, requested);
    var append := AppendRefusal(db.accounts, db.ledger, t, x);
    if !ActiveAccount(db.accounts, x.rt, x.what.account) then Some(InactiveAccount)
    else if !UsableCategory(db.categories, x.rt, x.what.category, x.what.kind) then Some(InactiveCategory)
    else if gate.Some? then gate
    else if key.Some? then key
    else if append.Some? then append
    else if TxnCollides(db.txns, t, x.(key := KeyAfterPosting(x.key, requested))) then Some(UniqueViolation)
    else None
  }

  ghost function PostTxnStep(db: Db, rt: Id, t: Id, requested: Option<string>): Outcome {
    if !TxnOf(db.txns, rt, t) then Outcome(db, Refused(NotFound))
    else if db.txns[t].status == TxnStatus.Posted then
      Outcome(db, if ReplayMatches(db.txns[t].key, requested) then Replayed(t) else Refused(ReplayMismatch))
    else if db.txns[t].status != TxnStatus.Validated then Outcome(db, Refused(WrongStatus))
    else if PostRefusal(db, t, requested).Some? then Outcome(db, Refused(PostRefusal(db, t, requested).value))
    else Outcome(Booked(db, t, db.txns[t], KeyAfterPosting(db.txns[t].key, requested)), Done(t))
  }

  // ----- Collections into the ledger -----------------------------------------------------------

  function PaidAmounts(items: map<Id, Item>): map<Id, int> {
    map h | h in items && items[h].status == Paid :: items[h].amount
  }

  ghost function PaidSum(items: map<Id, Item>): int {
    MapSum(PaidAmounts(items))
  }

  predicate WholeCurrency(amount: int) {
    amount > 0 && amount % 100 == 0
  }

  /** The amount a validated session may be posted with; None when the check refuses it. */
  ghost function PostingAmount(c: Collection): Option<int> {
    if c.mode == BulkTotal then (if WholeCurrency(c.total) then Some(c.total) else None)
    else if PaidSum(c.items) != c.total || PaidSum(c.items) <= 0 then None
    else Some(PaidSum(c.items))
  }

  function CollectionKey(collection: Id): string {
    "collection:" + DecimalText(collection)
  }

  /** A row to use (an existing one or a new one), or the reason there is none. */
  datatype Choice = Existing(id: Id) | Created(id: Id) | Unavailable(why: Refusal)

  ghost function ChooseAccount(db: Db, rt: Id, wanted: Option<Id>, newId: Id): Choice {
    var mains := set a | a in AccountsWithKey(db.accounts, rt, MAIN) && !db.accounts[a].deleted;
    if wanted.Some? then
      (if ActiveAccount(db.accounts, rt, wanted.value) then Existing(wanted.value) else Unavailable(InactiveAccount))
    else if mains != {} then
      (if db.accounts[Only(mains)].isActive then Existing(Only(mains)) else Unavailable(InactiveAccount))
    else if newId in db.accounts || AccountsWithKey(db.accounts, rt, MAIN) != {} then Unavailable(UniqueViolation)
    else Created(newId)
  }

  ghost function ChooseCategory(db: Db, rt: Id, wanted: Option<Id>, newId: Id): Choice {
    var found := JimpitanCategories(db.categories, rt);
    if wanted.Some? then
      (if UsableCategory(db.categories, rt, wanted.value, Income) then Existing(wanted.value) else Unavailable(InactiveCategory))
    else if found != {} then
      (if db.categories[Only(found)].isActive then Existing(Only(found)) else Unavailable(InactiveCategory))
    else if newId in db.categories then Unavailable(UniqueViolation)
    else Created(newId)
  }

  function WithAccount(db: Db, rt: Id, choice: Choice): Db {
    if choice.Created? then db.(accounts := db.accounts[choice.id := NewAccount(rt, MAIN)]) else db
  }

  function WithCategory(db: Db, rt: Id, choice: Choice): Db {
    if choice.Created?
    then db.(categories := db.categories[choice.id := Category(Some(rt), JIMPITAN, Income, true, true, false)])
    else db
  }

  /** The transaction a collection posting inserts, already validated. */
  function CollectionTxn(actor: Actor, c: Collection, post: PostCollectionCommand, amount: int, account: Id, category: Id): Txn {
    Txn(actor.rt,
        Particulars(Income, account, category, amount, "Jimpitan collection " + DecimalText(post.collection),
                    c.date, None, None, Some(post.collection)),
        Some(post.key.GetOr(CollectionKey(post.collection))), TxnStatus.Validated, actor.user)
  }

  predicate HasRow(ledger: seq<LedgerRow>, t: Id) {
    exists i :: 0 <= i < |ledger| && ledger[i].txn == t
  }

  /** The answer when a transaction already names the collection as its source. */
  ghost function CollectionReplay(db: Db, t: Id, requested: Option<string>): Reply
    requires t in db.txns
  {
    if !ReplayMatches(db.txns[t].key, requested) then Refused(ReplayMismatch)
    else if db.txns[t].status == TxnStatus.Posted && HasRow(db.ledger, t) then Replayed(t)
    else Refused(Incomplete)
  }

  ghost function PostCollectionStep(db: Db, actor: Actor, post: PostCollectionCommand, ids: NewIds): Outcome {
    var holders := TenantSourceHolders(db.txns, actor.rt, post.collection);
    if holders != {} then Outcome(db, CollectionReplay(db, Only(holders), post.key))
    else if !(post.collection in db.collections && db.collections[post.collection].rt == actor.rt
              && db.collections[post.collection].status == CollectionStatus.Validated)
    then Outcome(db, Refused(WrongStatus))
    else if PostingAmount(db.collections[post.collection]).None? then Outcome(db, Refused(AmountMismatch))
    else BookCollection(db, actor, post, ids)
  }

  ghost function BookCollection(db: Db, actor: Actor, post: PostCollectionCommand, ids: NewIds): Outcome
    requires post.collection in db.collections && PostingAmount(db.collections[post.collection]).Some?
  {
    var c := db.collections[post.collection];
    var account := ChooseAccount(db, actor.rt, post.account, ids.account);
    var category := ChooseCategory(db, actor.rt, post.category, ids.category);
    if account.Unavailable? then Outcome(db, Refused(account.why))
    else if category.Unavailable? then Outcome(db, Refused(category.why))
    else
      var ready := WithCategory(WithAccount(db, actor.rt, account), actor.rt, category);
      var x := CollectionTxn(actor, c, post, PostingAmount(c).value, account.id, category.id);
      var refusal := AppendRefusal(ready.accounts, ready.ledger, ids.txn, x);
      if ids.txn in db.txns || TxnCollides(db.txns, ids.txn, x) then Outcome(db, Refused(UniqueViolation))
      else if refusal.Some? then Outcome(db, Refused(refusal.value))
      else Outcome(Booked(ready, ids.txn, x, x.key), Done(ids.txn))
  }

  // ----- Dispatch ------------------------------------------------------------------------------

  ghost function FinanceStep(db: Db, op: FinanceOp): Outcome {
    match op
    case CreateDraft(actor, newId, command) => CreateDraftStep(db, actor, newId, command)
    case ValidateTxn(rt, t) => MoveStep(db, rt, t, {TxnStatus.Draft}, TxnStatus.Validated)
    case RejectTxn(rt, t) => MoveStep(db, rt, t, {TxnStatus.Draft, TxnStatus.Validated}, TxnStatus.Rejected)
    case VoidTxn(rt, t) => MoveStep(db, rt, t, {TxnStatus.Draft}, TxnStatus.Voided)
    case PostTxn(rt, t, key) => PostTxnStep(db, rt, t, key)
    case PostCollection(actor, post, ids) => PostCollectionStep(db, actor, post, ids)
    case _ => AccountStep(db, op)
  }
}
