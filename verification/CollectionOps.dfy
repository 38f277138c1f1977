/** Jimpitan collection service calls as atomic steps. */
module CollectionOps {
  import opened Prelude
  import opened Tables
  import opened FinanceOps

  datatype CreateCommand = CreateCommand(
    officer: Id, date: Id, mode: Option<CollectionMode>, total: Option<int>, area: Option<Id>)

  /** area: None when the request does not name it, Some(None) when it names null. */
  datatype UpdateCommand = UpdateCommand(
    officer: Option<Id>, date: Option<Id>, mode: Option<CollectionMode>, total: Option<int>, area: Option<Option<Id>>)

  datatype ItemInput = ItemInput(house: Id, resident: Option<Id>, status: ItemStatus, amount: int)

  datatype CollectionOp =
    | CreateCollection(actor: Actor, newId: Id, create: CreateCommand)
    | UpdateCollection(actor: Actor, collection: Id, update: UpdateCommand)
    | StartCollection(actor: Actor, collection: Id)
    | CancelCollection(actor: Actor, collection: Id)
    | GenerateChecklist(actor: Actor, collection: Id)
    | UpsertItems(actor: Actor, collection: Id, batch: seq<ItemInput>)
    | SetBulkTotal(actor: Actor, collection: Id, total: int)
    | SubmitCollection(actor: Actor, collection: Id, request: Option<string>)
    | ValidateCollection(actor: Actor, collection: Id)
    | RejectCollection(actor: Actor, collection: Id)

  // ----- Mode contracts ------------------------------------------------------------------------

  datatype ModeContract = ModeContract(requiresHouseItems: bool, requiresPositiveTotal: bool)

  function Contract(mode: CollectionMode): ModeContract {
    match mode
    case PerHouse => ModeContract(true, false)
    case BulkTotal => ModeContract(false, true)
    case Hybrid => ModeContract(true, true)
  }

  const MAX_BULK := 99999999999900

  /** A whole-currency total of one to twelve digits without a leading zero. */
  predicate BulkAmount(total: int) {
    WholeCurrency(total) && total <= MAX_BULK
  }

  predicate SubmissionReady(mode: CollectionMode, total: int, itemCount: nat) {
    && (Contract(mode).requiresHouseItems ==> itemCount > 0)
    && (Contract(mode).requiresPositiveTotal ==> BulkAmount(total))
  }

  predicate Editable(status: CollectionStatus) {
    status in {CollectionStatus.Draft, InProgress, CollectionStatus.Rejected}
  }

  predicate Active(status: CollectionStatus) {
    status in {CollectionStatus.Draft, InProgress, Submitted}
  }

  // ----- Guards --------------------------------------------------------------------------------

  function ModeInputRefusal(mode: CollectionMode, total: Option<int>): Option<Refusal> {
    if mode == BulkTotal && total.Some? && !BulkAmount(total.value) then Some(BadAmount)
    else if mode == PerHouse && total.Some? then Some(BadAmount)
    else if mode == Hybrid then Some(WrongMode)
    else None
  }

  predicate OfficerAssignable(db: Db, rt: Id, officer: Id) {
    officer in db.master.members && db.master.members[officer].rt == rt && db.master.members[officer].active
  }

  predicate AreaAssignable(db: Db, rt: Id, area: Option<Id>) {
    area.Some? ==> area.value in db.master.areas && db.master.areas[area.value].rt == rt && db.master.areas[area.value].active
  }

  /** Active sessions of the tenant on this route and date, apart from one that may be excluded. */
  function Duplicates(collections: map<Id, Collection>, rt: Id, date: Id, area: Option<Id>, but: Option<Id>): set<Id> {
    set c | c in collections && collections[c].rt == rt && collections[c].date == date
            && Active(collections[c].status) && collections[c].area == area && Some(c) != but
  }

  predicate CollectionOf(collections: map<Id, Collection>, rt: Id, c: Id) {
    c in collections && collections[c].rt == rt
  }

  predicate MayMutate(actor: Actor, c: Collection) {
    actor.mayValidate || actor.membership == c.officer
  }

  /** The guards shared by the officer's own edits. */
  function OwnEditRefusal(db: Db, actor: Actor, c: Id): Option<Refusal> {
    if !CollectionOf(db.collections, actor.rt, c) then Some(NotFound)
    else if !MayMutate(actor, db.collections[c]) then Some(NotOwner)
    else if !Editable(db.collections[c].status) then Some(WrongStatus)
    else None
  }

  function Put(db: Db, c: Id, row: Collection): Outcome {
    Outcome(db.(collections := db.collections[c := row]), Done(c))
  }

  // ----- Sessions ------------------------------------------------------------------------------

  function CreateStep(db: Db, actor: Actor, newId: Id, cmd: CreateCommand): Outcome {
    var mode := cmd.mode.GetOr(PerHouse);
    var input := ModeInputRefusal(mode, cmd.total);
    if input.Some? then Outcome(db, Refused(input.value))
    else if !OfficerAssignable(db, actor.rt, cmd.officer) then Outcome(db, Refused(InactiveMember))
    else if !AreaAssignable(db, actor.rt, cmd.area) then Outcome(db, Refused(InactiveArea))
    else if Duplicates(db.collections, actor.rt, cmd.date, cmd.area, None) != {} then Outcome(db, Refused(DuplicateRoute))
    else if newId in db.collections then Outcome(db, Refused(UniqueViolation))
    else Put(db, newId, Collection(actor.rt, cmd.officer, cmd.date, cmd.area, mode, CollectionStatus.Draft,
                                   cmd.total.GetOr(0), None, false, map[]))
  }

  /** The area the service checks: a null in the request falls back to the present route. */
  function ServiceArea(c: Collection, cmd: UpdateCommand): Option<Id> {
    if cmd.area.Some? && cmd.area.value.Some? then cmd.area.value else c.area
  }

  function UpdateRefusal(db: Db, rt: Id, id: Id, cmd: UpdateCommand): Option<Refusal>
    requires CollectionOf(db.collections, rt, id)
  {
    var c := db.collections[id];
    var date := cmd.date.GetOr(c.date);
    var area := cmd.area.GetOr(c.area);
    var input := ModeInputRefusal(cmd.mode.GetOr(c.mode), cmd.total);
    if !Editable(c.status) then Some(WrongStatus)
    else if input.Some? then input
    else if cmd.mode.Some? && cmd.mode.value != c.mode && |c.items| > 0 then Some(ItemsExist)
    else if cmd.officer.Some? && !OfficerAssignable(db, rt, cmd.officer.value) then Some(InactiveMember)
    else if cmd.area.Some? && !AreaAssignable(db, rt, cmd.area.value) then Some(InactiveArea)
    else if (cmd.date.Some? || cmd.area.Some?)
         && Duplicates(db.collections, rt, date, ServiceArea(c, cmd), Some(id)) != {} then Some(DuplicateRoute)
    else if !AreaAssignable(db, rt, area) then Some(InactiveArea)
    else if (cmd.officer.Some? || cmd.date.Some? || cmd.area.Some?)
         && Duplicates(db.collections, rt, date, area, Some(id)) != {} then Some(DuplicateRoute)
    else None
  }

  /** Naming PER_HOUSE resets the total, even when the session already is PER_HOUSE. */
  function Updated(c: Collection, cmd: UpdateCommand): Collection {
    c.(officer := cmd.officer.GetOr(c.officer), date := cmd.date.GetOr(c.date), area := cmd.area.GetOr(c.area),
       mode := cmd.mode.GetOr(c.mode),
       total := cmd.total.GetOr(if cmd.mode == Some(PerHouse) then 0 else c.total))
  }

  function UpdateStep(db: Db, actor: Actor, c: Id, cmd: UpdateCommand): Outcome {
    if !CollectionOf(db.collections, actor.rt, c) then Outcome(db, Refused(NotFound))
    else
      var refusal := UpdateRefusal(db, actor.rt, c, cmd);
      if refusal.Some? then Outcome(db, Refused(refusal.value)) else Put(db, c, Updated(db.collections[c], cmd))
  }

  function StartStep(db: Db, actor: Actor, c: Id): Outcome {
    var refusal := OwnEditRefusal(db, actor, c);
    if refusal.Some? then Outcome(db, Refused(refusal.value))
    else if db.collections[c].status == InProgress then Outcome(db, Refused(WrongStatus))
    else Put(db, c, db.collections[c].(status := InProgress))
  }

  function CancelCollectionStep(db: Db, actor: Actor, c: Id): Outcome {
    if !CollectionOf(db.collections, actor.rt, c) then Outcome(db, Refused(NotFound))
    else if db.collections[c].status == CollectionStatus.Validated then Outcome(db, Refused(WrongStatus))
    else Put(db, c, db.collections[c].(status := CollectionStatus.Cancelled))
  }

  function GenerateStep(db: Db, actor: Actor, c: Id): Outcome {
    var refusal := OwnEditRefusal(db, actor, c);
    if refusal.Some? then Outcome(db, Refused(refusal.value))
    else if !Contract(db.collections[c].mode).requiresHouseItems then Outcome(db, Refused(WrongMode))
    else Put(db, c, db.collections[c].(status := InProgress))
  }

  // ----- Items and totals ----------------------------------------------------------------------

  predicate DistinctHouses(batch: seq<ItemInput>) {
    forall i, j :: 0 <= i < j < |batch| ==> batch[i].house != batch[j].house
  }

  predicate ValidItemAmount(item: ItemInput) {
    && item.amount >= 0
    && (item.status == Paid ==> item.amount > 0)
    && (item.status != Paid ==> item.amount <= 0)
  }

  predicate ItemAssignable(db: Db, rt: Id, area: Option<Id>, item: ItemInput) {
    && item.house in db.master.houses
    && db.master.houses[item.house].rt == rt && db.master.houses[item.house].assignable
    && (area.Some? ==> db.master.houses[item.house].area == area.value)
    && (item.resident.Some? ==>
          && item.resident.value in db.master.residents
          && db.master.residents[item.resident.value] == Resident(rt, item.house, true))
  }

  /** The upsert loop: each input inserts or overwrites the item of its house. */
  function Upserted(items: map<Id, Item>, batch: seq<ItemInput>): map<Id, Item> {
    if batch == [] then items else
      var last := batch[|batch| - 1];
      Upserted(items, batch[..|batch| - 1])[last.house := Item(last.status, last.amount)]
  }

  function UpsertRefusal(db: Db, actor: Actor, c: Id, batch: seq<ItemInput>): Option<Refusal> {
    var own := OwnEditRefusal(db, actor, c);
    if own.Some? then own
    else if !Contract(db.collections[c].mode).requiresHouseItems then Some(WrongMode)
    else if !DistinctHouses(batch) then Some(BadBatch)
    else if !(forall i :: 0 <= i < |batch| ==> ValidItemAmount(batch[i])) then Some(BadAmount)
    else if !(forall i :: 0 <= i < |batch| ==> ItemAssignable(db, actor.rt, db.collections[c].area, batch[i]))
    then Some(NotAssignable)
    else None
  }

  ghost function UpsertStep(db: Db, actor: Actor, c: Id, batch: seq<ItemInput>): Outcome {
    var refusal := UpsertRefusal(db, actor, c, batch);
    if refusal.Some? then Outcome(db, Refused(refusal.value))
    else
      var items := Upserted(db.collections[c].items, batch);
      Put(db, c, db.collections[c].(items := items, total := PaidSum(items), status := InProgress))
  }

  function SetBulkStep(db: Db, actor: Actor, c: Id, total: int): Outcome {
    var refusal := OwnEditRefusal(db, actor, c);
    if refusal.Some? then Outcome(db, Refused(refusal.value))
    else if db.collections[c].mode != BulkTotal then Outcome(db, Refused(WrongMode))
    else if !BulkAmount(total) then Outcome(db, Refused(BadAmount))
    else Put(db, c, db.collections[c].(total := total, status := InProgress))
  }

  // ----- Submission ----------------------------------------------------------------------------

  predicate RequestTaken(collections: map<Id, Collection>, rt: Id, c: Id, request: Option<string>) {
    request.Some? && exists d :: d in collections && d != c && collections[d].rt == rt && collections[d].submitRequest == request
  }

  ghost function SubmittedTotal(c: Collection): int {
    if c.mode == BulkTotal then c.total else PaidSum(c.items)
  }

  ghost function SubmitStep(db: Db, actor: Actor, c: Id, request: Option<string>): Outcome {
    var refusal := OwnEditRefusal(db, actor, c);
    if refusal.Some? then Outcome(db, Refused(refusal.value))
    else
      var row := db.collections[c];
      if !SubmissionReady(row.mode, row.total, |row.items|) then Outcome(db, Refused(NotReady))
      else if !SubmissionReady(row.mode, SubmittedTotal(row), |row.items|) then Outcome(db, Refused(NotReady))
      else if RequestTaken(db.collections, actor.rt, c, request) then Outcome(db, Refused(UniqueViolation))
      else Put(db, c, row.(status := Submitted, total := SubmittedTotal(row),
                           submitRequest := if request.Some? then request else row.submitRequest))
  }

  function ValidateStep(db: Db, actor: Actor, c: Id): Outcome {
    if !CollectionOf(db.collections, actor.rt, c) then Outcome(db, Refused(NotFound))
    else if db.collections[c].status != Submitted then Outcome(db, Refused(WrongStatus))
    else if !SubmissionReady(db.collections[c].mode, db.collections[c].total, |db.collections[c].items|)
    then Outcome(db, Refused(NotReady))
    else Put(db, c, db.collections[c].(status := CollectionStatus.Validated))
  }

  function RejectStep(db: Db, actor: Actor, c: Id): Outcome {
    if !CollectionOf(db.collections, actor.rt, c) then Outcome(db, Refused(NotFound))
    else if db.collections[c].status != Submitted then Outcome(db, Refused(WrongStatus))
    else Put(db, c, db.collections[c].(status := CollectionStatus.Rejected, wasRejected := true))
  }

  ghost function CollectionStep(db: Db, op: CollectionOp): Outcome {
    match op
    case CreateCollection(actor, newId, cmd) => CreateStep(db, actor, newId, cmd)
    case UpdateCollection(actor, c, cmd) => UpdateStep(db, actor, c, cmd)
    case StartCollection(actor, c) => StartStep(db, actor, c)
    case CancelCollection(actor, c) => CancelCollectionStep(db, actor, c)
    case GenerateChecklist(actor, c) => GenerateStep(db, actor, c)
    case UpsertItems(actor, c, batch) => UpsertStep(db, actor, c, batch)
    case SetBulkTotal(actor, c, total) => SetBulkStep(db, actor, c, total)
    case SubmitCollection(actor, c, request) => SubmitStep(db, actor, c, request)
    case ValidateCollection(actor, c) => ValidateStep(db, actor, c)
    case RejectCollection(actor, c) => RejectStep(db, actor, c)
  }
}
