/**
 The laws of the system call by call: what each repository method may rely on, without the dispatch
 over all calls.
 */
module CallLaws {
  import opened Prelude
  import opened Tables
  import opened Policy
  import opened FinanceOps
  import opened FinanceLaws
  import opened ApprovalOps
  import opened ApprovalLaws
  import opened CollectionOps
  import opened CollectionLaws
  import opened SystemLaws

  /** The call left the system sound, and only moved it forward. */
  ghost predicate Kept(db: Db, after: Db) {
    Sound(after) && Evolves(db, after)
  }

  // ----- Finance -------------------------------------------------------------------------------

  lemma AccountKept(db: Db, op: FinanceOp)
    requires Sound(db)
    requires OnAccounts(op)
    ensures Kept(db, AccountStep(db, op).db)
  {
    var w := AccountStepWrites(db, op);
    WriteSound(db, AccountStep(db, op).db, w);
  }

  lemma DraftKept(db: Db, actor: Actor, newId: Id, command: DraftCommand)
    requires Sound(db)
    ensures Kept(db, CreateDraftStep(db, actor, newId, command).db)
  {
    var w := CreateDraftWrites(db, actor, newId, command);
    WriteSound(db, CreateDraftStep(db, actor, newId, command).db, w);
  }

  lemma MoveKept(db: Db, rt: Id, t: Id, from: set<TxnStatus>, to: TxnStatus)
    requires Sound(db) && to != TxnStatus.Posted && forall s :: s in from ==> !Final(s) && CanMove(s, to)
    ensures Kept(db, MoveStep(db, rt, t, from, to).db)
  {
    var w := MoveWrites(db, rt, t, from, to);
    WriteSound(db, MoveStep(db, rt, t, from, to).db, w);
  }

  lemma PostKept(db: Db, rt: Id, t: Id, key: Option<string>)
    requires Sound(db)
    ensures Kept(db, PostTxnStep(db, rt, t, key).db)
  {
    var w := PostTxnWrites(db, rt, t, key);
    WriteSound(db, PostTxnStep(db, rt, t, key).db, w);
  }

  lemma PostCollectionKept(db: Db, actor: Actor, post: PostCollectionCommand, ids: NewIds)
    requires Sound(db)
    ensures Kept(db, PostCollectionStep(db, actor, post, ids).db)
  {
    var w := PostCollectionWrites(db, actor, post, ids);
    WriteSound(db, PostCollectionStep(db, actor, post, ids).db, w);
  }

  // ----- Approvals -----------------------------------------------------------------------------

  lemma ShapeKept(db: Db, after: Db)
    requires Sound(db) && ApprovalShape(db, after)
    requires ApprovalsSound(after.approvals, after.txns) && ApprovalsEvolve(db.approvals, after.approvals)
    ensures Kept(db, after)
  {
    ApprovalStepSound(db, after);
    ShapeKeepsSources(db, after);
  }

  lemma PolicyKept(db: Db, rt: Id, policy: ApprovalPolicy)
    requires Sound(db)
    ensures Kept(db, UpdatePolicyStep(db, rt, policy).db)
  {
    ShapeKept(db, UpdatePolicyStep(db, rt, policy).db);
  }

  lemma RequestKept(db: Db, actor: Actor, t: Id, request: ApprovalRequest)
    requires Sound(db)
    ensures Kept(db, RequestStep(db, actor, t, request).db)
  {
    RequestKeeps(db, actor, t, request);
    ShapeKept(db, RequestStep(db, actor, t, request).db);
  }

  lemma DecideKept(db: Db, actor: Actor, a: ApprovalId, approve: bool, seen: ApprovalPolicy)
    requires Sound(db)
    ensures Kept(db, DecideStep(db, actor, a, approve, seen).db)
  {
    DecideKeeps(db, actor, a, approve, seen);
    ShapeKept(db, DecideStep(db, actor, a, approve, seen).db);
  }

  lemma CancelKept(db: Db, actor: Actor, a: ApprovalId)
    requires Sound(db)
    ensures Kept(db, CancelStep(db, actor, a).db)
  {
    CancelKeeps(db, actor, a);
    ShapeKept(db, CancelStep(db, actor, a).db);
  }

  // ----- Collections ---------------------------------------------------------------------------

  lemma WrittenKept(db: Db, step: Outcome, c: Id)
    requires Sound(db) && StepWrites(db, step, c)
    ensures Kept(db, step.db)
  {
    WrittenKeeps(db, step, c);
    SourcesSurviveSessions(db.txns, db.collections, step.db.collections);
    SessionsKept(db, step.db);
  }

  lemma SessionsKept(db: Db, after: Db)
    requires Sound(db) && after == db.(collections := after.collections)
    requires SessionsSound(after.collections) && RoutesExclusive(after.collections) && SessionsEvolve(db.collections, after.collections)
    requires SourcesSound(db.txns, after.collections)
    ensures Kept(db, after)
  {
  }

  lemma CreateKept(db: Db, actor: Actor, newId: Id, cmd: CreateCommand)
    requires Sound(db)
    ensures Kept(db, CreateStep(db, actor, newId, cmd).db)
  {
    CreateWrites(db, actor, newId, cmd);
    WrittenKept(db, CreateStep(db, actor, newId, cmd), newId);
  }

  lemma UpdateKept(db: Db, actor: Actor, c: Id, cmd: UpdateCommand)
    requires Sound(db)
    ensures Kept(db, UpdateStep(db, actor, c, cmd).db)
  {
    UpdateWrites(db, actor, c, cmd);
    WrittenKept(db, UpdateStep(db, actor, c, cmd), c);
  }

  lemma StartKept(db: Db, actor: Actor, c: Id)
    requires Sound(db)
    ensures Kept(db, StartStep(db, actor, c).db)
  {
    StartWrites(db, actor, c);
    WrittenKept(db, StartStep(db, actor, c), c);
  }

  lemma CancelCollectionKept(db: Db, actor: Actor, c: Id)
    requires Sound(db)
    ensures Kept(db, CancelCollectionStep(db, actor, c).db)
  {
    CancelWrites(db, actor, c);
    WrittenKept(db, CancelCollectionStep(db, actor, c), c);
  }

  lemma GenerateKept(db: Db, actor: Actor, c: Id)
    requires Sound(db)
    ensures Kept(db, GenerateStep(db, actor, c).db)
  {
    GenerateWrites(db, actor, c);
    WrittenKept(db, GenerateStep(db, actor, c), c);
  }

  lemma UpsertKept(db: Db, actor: Actor, c: Id, batch: seq<ItemInput>)
    requires Sound(db)
    ensures Kept(db, UpsertStep(db, actor, c, batch).db)
  {
    UpsertWrites(db, actor, c, batch);
    WrittenKept(db, UpsertStep(db, actor, c, batch), c);
  }

  lemma SetBulkKept(db: Db, actor: Actor, c: Id, total: int)
    requires Sound(db)
    ensures Kept(db, SetBulkStep(db, actor, c, total).db)
  {
    SetBulkWrites(db, actor, c, total);
    WrittenKept(db, SetBulkStep(db, actor, c, total), c);
  }

  lemma SubmitKept(db: Db, actor: Actor, c: Id, request: Option<string>)
    requires Sound(db)
    ensures Kept(db, SubmitStep(db, actor, c, request).db)
  {
    SubmitWrites(db, actor, c, request);
    WrittenKept(db, SubmitStep(db, actor, c, request), c);
  }

  lemma ValidateKept(db: Db, actor: Actor, c: Id)
    requires Sound(db)
    ensures Kept(db, ValidateStep(db, actor, c).db)
  {
    ValidateWrites(db, actor, c);
    WrittenKept(db, ValidateStep(db, actor, c), c);
  }

  lemma RejectKept(db: Db, actor: Actor, c: Id)
    requires Sound(db)
    ensures Kept(db, RejectStep(db, actor, c).db)
  {
    RejectWrites(db, actor, c);
    WrittenKept(db, RejectStep(db, actor, c), c);
  }
}
