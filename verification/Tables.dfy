/**
 The relational state the three money modules share: one record per row, one map per table.
 Amounts are integers in cents. Columns that no rule reads (names, notes, reasons, who and when
 stamps) are not kept.
 */
module Tables {
  import opened Prelude

  datatype TxnType = Income | Expense

  datatype TxnStatus = Draft | Validated | Posted | Rejected | Voided

  datatype EntryType = Increase | Decrease

  datatype Account = Account(
    rt: Id, key: string, currentBalance: int, version: nat, isActive: bool, deleted: bool)

  datatype Category = Category(
    rt: Option<Id>, key: string, kind: TxnType, isSystem: bool, isActive: bool, deleted: bool)

  /** What a draft request fixes for good. */
  datatype Particulars = Particulars(
    kind: TxnType, account: Id, category: Id, amount: int, description: string, date: Id,
    reference: Option<string>, externalRef: Option<string>, source: Option<Id>)

  datatype Txn = Txn(
    rt: Id, what: Particulars, key: Option<string>, status: TxnStatus, createdBy: Id)

  datatype LedgerRow = LedgerRow(
    rt: Id, account: Id, txn: Id, sequence: nat, entry: EntryType, amount: int,
    balanceBefore: int, balanceAfter: int)

  datatype ApprovalStatus = Pending | Approved | Rejected | Cancelled

  /** Expense approvals are keyed by (transaction, approver membership), their unique index. */
  type ApprovalId = (Id, Id)

  datatype Approval = Approval(
    rt: Id, requestedBy: Id, decisionBy: Option<Id>, key: Option<string>,
    status: ApprovalStatus, expiresAt: Option<nat>)

  datatype CollectionMode = PerHouse | BulkTotal | Hybrid

  datatype CollectionStatus = Draft | InProgress | Submitted | Validated | Rejected | Cancelled

  datatype ItemStatus =
    | Paid | Unpaid | HouseEmpty | LeftWithNeighbor | TitipTetangga | Overdue | Menunggak | Dispensation

  datatype Item = Item(status: ItemStatus, amount: int)

  /**
   A collection session with its items by house (unique per collection and house). The route is
   the area of the schedule the session points at; a schedule's area never changes.
   wasRejected says that rejectedAt is set.
   */
  datatype Collection = Collection(
    rt: Id, officer: Id, date: Id, area: Option<Id>, mode: CollectionMode,
    status: CollectionStatus, total: int, submitRequest: Option<string>, wasRejected: bool,
    items: map<Id, Item>)

  /** A membership; active means that it and its user are active and not deleted. */
  datatype Member = Member(rt: Id, user: Id, active: bool, roles: set<string>)

  datatype Area = Area(rt: Id, active: bool)

  /** A house; assignable means not deleted, not inactive and in an active area. */
  datatype House = House(rt: Id, area: Id, assignable: bool)

  datatype Resident = Resident(rt: Id, house: Id, active: bool)

  /** Tables kept by other modules. They may change arbitrarily between two steps. */
  datatype MasterData = MasterData(
    members: map<Id, Member>, areas: map<Id, Area>, houses: map<Id, House>, residents: map<Id, Resident>)

  /** Member names of the policy setting; Other stands for every name the policy does not use. */
  datatype Field =
    | ThresholdAmount | AutoApproveBelowThreshold | PreventSelfApproval | ApproverRoleKeys
    | RequiredApprovals | ExpiresInDays | Other(name: string)

  /** JSON values as the settings table stores them. */
  datatype Json =
    | Null
    | Bool(flag: bool)
    | Number(number: real)
    | Text(text: string)
    | Array(items: seq<Json>)
    | Object(fields: map<Field, Json>)

  /**
   The two library functions whose results decide branches. `atMost(amount, text)` is the decimal
   library's `lte` against a parsed text, None when the text does not parse; `toNumber` is
   JavaScript's `Number`, None when the result is not finite.
   */
  datatype Platform = Platform(atMost: (int, string) -> Option<bool>, toNumber: Json -> Option<real>)

  datatype Db = Db(
    accounts: map<Id, Account>,
    categories: map<Id, Category>,
    txns: map<Id, Txn>,
    ledger: seq<LedgerRow>,
    approvals: map<ApprovalId, Approval>,
    settings: map<Id, Json>,
    collections: map<Id, Collection>,
    master: MasterData,
    platform: Platform)

  /** The authenticated caller; mayValidate is the `collections.validate` permission. */
  datatype Actor = Actor(user: Id, membership: Id, rt: Id, mayValidate: bool)

  datatype Refusal =
    | NotFound
    | WrongStatus
    | WrongKind
    | WrongMode
    | BadAmount
    | BadBatch
    | BadPolicy
    | SourceNotAllowed
    | InactiveAccount
    | InactiveCategory
    | InactiveMember
    | InactiveArea
    | NotAssignable
    | NotOwner
    | NotAssigned
    | SelfApproval
    | NotEnoughApprovers
    | HasRejectedApproval
    | ApprovalRequired
    | MalformedThreshold
    | InsufficientBalance
    | ReplayMismatch
    | KeyOfAnother
    | Incomplete
    | AmountMismatch
    | DuplicateRoute
    | ItemsExist
    | NotReady
    | StateChanged
    | UniqueViolation
    | SerializationFailure

  /** How a service call ends: a committed change, an answer from stored state, or an error. */
  datatype Reply =
    | Done(id: Id)
    | Replayed(id: Id)
    | NotRequired
    | Refused(why: Refusal)

  /** A service call as one atomic step: the state it leaves and what it answers. */
  datatype Outcome = Outcome(db: Db, reply: Reply)
}
