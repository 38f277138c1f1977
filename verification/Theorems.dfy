/** What holds in every reachable state and along every run. */
module Theorems {
  import opened Prelude
  import opened Sums
  import opened Tables
  import opened Policy
  import opened FinanceOps
  import opened LedgerLaws
  import opened FinanceLaws
  import opened ApprovalOps
  import opened ApprovalLaws
  import opened CollectionOps
  import opened CollectionLaws
  import opened System
  import opened SystemLaws

  // ----- The ledger ----------------------------------------------------------------------------

  /**
   Per account: rows numbered 1..n and chained from zero, never negative; the cached balance is the
   last row's and the signed sum of all; the version counts the rows; an account with rows is never
   deleted; and the balance derived from the ledger is the cached one.
   */
  lemma AccountAgrees(db: Db, a: Id)
    requires Reachable(db) && a in db.accounts
    ensures var rows := RowsOf(db.ledger, a);
            var account := db.accounts[a];
            && Chain(rows)
            && account.currentBalance == LastBalance(rows) == SignedTotal(rows)
            && account.currentBalance >= 0
            && account.version == |rows| + 1
            && (rows != [] ==> !account.deleted)
            && (!account.deleted ==> DerivedBalance(db, account.rt, a) == Some((account.currentBalance, |rows|)))
  {
    ReachableSound(db);
    ChainAdds(RowsOf(db.ledger, a));
    LatestOfBooks(db.accounts, db.ledger, a);
    var rows := RowsOf(db.ledger, a);
    assert rows != [] ==> Linked(rows, |rows| - 1);
  }

  /** The money in a tenant's live accounts is what its posted transactions brought in, net. */
  lemma MoneyConserved(db: Db, rt: Id)
    requires Reachable(db)
    ensures MapSum(LiveBalances(db.accounts, rt)) == NetPosted(db.txns, rt)
  {
    ReachableSound(db);
    LiveHoldAll(db.accounts, db.ledger, rt);
    assert ConservedIn(db.accounts, db.txns, rt);
  }

  /** Posted means exactly one row, and every row is the faithful row of a posted transaction. */
  lemma PostedIffOneRow(db: Db)
    requires Reachable(db)
    ensures forall t :: t in db.txns ==>
              && (db.txns[t].status == TxnStatus.Posted <==> CountFor(db.ledger, t) == 1)
              && CountFor(db.ledger, t) <= 1
    ensures forall i :: 0 <= i < |db.ledger| ==>
              && db.ledger[i].txn in db.txns
              && db.txns[db.ledger[i].txn].status == TxnStatus.Posted
              && RowFor(db.ledger[i], db.txns[db.ledger[i].txn])
  {
    ReachableSound(db);
    forall i | 0 <= i < |db.ledger| ensures db.txns[db.ledger[i].txn].status == TxnStatus.Posted {
      CountZero(db.ledger, db.ledger[i].txn);
    }
  }

  /** Ledger rows are only ever appended, and final transactions never change, whatever happens next. */
  lemma FinalForever(db: Db, ops: seq<Op>, t: Id)
    requires Reachable(db) && t in db.txns
    ensures var later := Run(db, ops);
            && db.ledger <= later.ledger
            && t in later.txns && later.txns[t].what == db.txns[t].what
            && (Final(db.txns[t].status) ==> later.txns[t] == db.txns[t])
  {
    ReachableSound(db);
    RunKeeps(db, ops);
    assert TxnEvolves(db.txns[t], Run(db, ops).txns[t]);
  }

  /** The ledger's unique indexes never stop a posting: their conflicts are unreachable. */
  lemma LedgerConflictUnreachable(db: Db, t: Id)
    requires Reachable(db) && t in db.txns && db.txns[t].status != TxnStatus.Posted
    requires LiveAccount(db.accounts, db.txns[t].rt, db.txns[t].what.account)
    ensures AppendRefusal(db.accounts, db.ledger, t, db.txns[t]) != Some(UniqueViolation)
  {
    ReachableSound(db);
    AppendNeverCollides(db.accounts, db.txns, db.ledger, t, db.txns[t]);
  }

  // ----- What a step can do to one transaction -------------------------------------------------

  /** The call posts t: the transaction is validated, the gate is open and the key is acceptable. */
  ghost predicate PostsNow(db: Db, op: Op, t: Id) {
    && t in db.txns && op.Finance? && op.finance.PostTxn? && op.finance.txn == t
    && PostsWith(db, t, op.finance.key)
  }

  ghost predicate PostsWith(db: Db, t: Id, key: Option<string>)
    requires t in db.txns
  {
    db.txns[t].status == TxnStatus.Validated && GateOf(db, t) == Open && PostKeyRefusal(db.txns, t, key) == None
  }

  function PostedRow(x: Txn, key: Option<string>): Txn {
    x.(status := TxnStatus.Posted, key := KeyAfterPosting(x.key, key))
  }

  /** The row only moved in its lifecycle, and not to posted. */
  ghost predicate MovedOnly(x: Txn, y: Txn) {
    y == x.(status := y.status) && (y.status == TxnStatus.Posted ==> x.status == TxnStatus.Posted)
  }

  lemma DraftOnTxn(db: Db, actor: Actor, newId: Id, command: DraftCommand, t: Id)
    requires t in db.txns
    ensures var after := CreateDraftStep(db, actor, newId, command).db.txns;
            t in after && after[t] == db.txns[t]
  {
  }

  lemma MoveOnTxn(db: Db, rt: Id, u: Id, from: set<TxnStatus>, to: TxnStatus, t: Id)
    requires t in db.txns && to != TxnStatus.Posted
    ensures var after := MoveStep(db, rt, u, from, to).db.txns;
            t in after && MovedOnly(db.txns[t], after[t])
  {
  }

  lemma PostCollectionOnTxn(db: Db, actor: Actor, post: PostCollectionCommand, ids: NewIds, t: Id)
    requires t in db.txns
    ensures var after := PostCollectionStep(db, actor, post, ids).db.txns;
            t in after && after[t] == db.txns[t]
  {
  }

  lemma PostOnTxn(db: Db, rt: Id, u: Id, key: Option<string>, t: Id)
    requires t in db.txns
    ensures var step := PostTxnStep(db, rt, u, key);
            && t in step.db.txns
            && (step.db.txns[t] == db.txns[t]
                || (u == t && PostsWith(db, t, key) && step.db.txns[t] == PostedRow(db.txns[t], key)))
  {
  }

  lemma AccountStepOnTxn(db: Db, op: FinanceOp)
    requires OnAccounts(op)
    ensures AccountStep(db, op).db.txns == db.txns
  {
  }

  lemma ApprovalOnTxn(db: Db, op: ApprovalOp, t: Id)
    requires ApprovalsSound(db.approvals, db.txns) && t in db.txns
    ensures var after := ApprovalStep(db, op).db.txns;
            t in after && MovedOnly(db.txns[t], after[t])
  {
    ApprovalStepKeeps(db, op);
  }

  lemma FinanceOnTxn(db: Db, f: FinanceOp, t: Id)
    requires t in db.txns
    ensures var step := FinanceStep(db, f);
            && t in step.db.txns
            && (MovedOnly(db.txns[t], step.db.txns[t])
                || (f.PostTxn? && f.txn == t && PostsWith(db, t, f.key) && step.db.txns[t] == PostedRow(db.txns[t], f.key)))
  {
    match f
    case CreateDraft(actor, newId, command) => DraftOnTxn(db, actor, newId, command, t);
    case ValidateTxn(rt, u) => MoveOnTxn(db, rt, u, {TxnStatus.Draft}, TxnStatus.Validated, t);
    case RejectTxn(rt, u) => MoveOnTxn(db, rt, u, {TxnStatus.Draft, TxnStatus.Validated}, TxnStatus.Rejected, t);
    case VoidTxn(rt, u) => MoveOnTxn(db, rt, u, {TxnStatus.Draft}, TxnStatus.Voided, t);
    case PostTxn(rt, u, key) => PostOnTxn(db, rt, u, key, t);
    case PostCollection(actor, post, ids) => PostCollectionOnTxn(db, actor, post, ids, t);
    case _ => AccountStepOnTxn(db, f);
  }

  lemma StepOnTxn(db: Db, op: Op, t: Id)
    requires Sound(db) && t in db.txns
    ensures t in Step(db, op).db.txns
    ensures || MovedOnly(db.txns[t], Step(db, op).db.txns[t])
            || (PostsNow(db, op, t) && Step(db, op).db.txns[t] == PostedRow(db.txns[t], op.finance.key))
  {
    match op
    case Finance(f) => FinanceOnTxn(db, f, t);
    case Approve(a) => ApprovalOnTxn(db, a, t);
    case Collect(c) => CollectionStepKeeps(db, c);
    case SetMaster(_) =>
  }

  // ----- Approval evidence ---------------------------------------------------------------------

  ghost predicate AutoApproved(platform: Platform, policy: GatePolicy, amount: int) {
    policy.autoApprove && platform.atMost(amount, policy.threshold) == Some(true)
  }

  /** At least `required` approvals of t are given, none is rejected, and all given in `before` are unchanged. */
  ghost predicate Evidence(before: Db, now: Db, t: Id, required: int) {
    && t in now.txns && now.txns[t].status == TxnStatus.Posted
    && |With(now.approvals, t, Approved)| >= required
    && With(now.approvals, t, ApprovalStatus.Rejected) == {}
    && SameApproved(before.approvals, now.approvals, t)
  }

  lemma EvidenceCarries(posted: Db, later: Db, t: Id, required: int)
    requires Sound(later) && Evolves(posted, later)
    requires t in posted.txns && posted.txns[t].status == TxnStatus.Posted
    requires |With(posted.approvals, t, Approved)| >= required
    ensures Evidence(posted, later, t, required)
  {
    assert TxnEvolves(posted.txns[t], later.txns[t]);
    ApprovedPersist(posted.approvals, later.approvals, t);
    RejectionCoupling(later.approvals, later.txns, t);
  }

  lemma PostedWithEvidence(db: Db, rt: Id, t: Id, key: Option<string>)
    requires PostTxnStep(db, rt, t, key).reply == Done(t) && db.txns[t].what.kind == Expense
    requires !AutoApproved(db.platform, GatePolicyOf(SettingOf(db, rt)), db.txns[t].what.amount)
    ensures var posted := PostTxnStep(db, rt, t, key).db;
            && t in posted.txns && posted.txns[t].status == TxnStatus.Posted
            && posted.approvals == db.approvals
            && |With(posted.approvals, t, Approved)| >= GatePolicyOf(SettingOf(db, rt)).required
  {
  }

  /**
   The approvals that opened the gate stay: in every later state the expense is posted, none of its
   approvals is rejected, and at least as many as the policy required when it was posted are
   approved, each by a membership of its own and as it was decided then.
   */
  lemma EvidencePersists(db: Db, rt: Id, t: Id, key: Option<string>, ops: seq<Op>)
    requires Reachable(db)
    requires PostTxnStep(db, rt, t, key).reply == Done(t) && db.txns[t].what.kind == Expense
    requires !AutoApproved(db.platform, GatePolicyOf(SettingOf(db, rt)), db.txns[t].what.amount)
    ensures var posted := PostTxnStep(db, rt, t, key).db;
            Evidence(posted, Run(posted, ops), t, GatePolicyOf(SettingOf(db, rt)).required)
  {
    ReachableSound(db);
    PostedSound(db, rt, t, key);
    PostedWithEvidence(db, rt, t, key);
    EvidenceLater(PostTxnStep(db, rt, t, key).db, ops, t, GatePolicyOf(SettingOf(db, rt)).required);
  }

  lemma PostedSound(db: Db, rt: Id, t: Id, key: Option<string>)
    requires Sound(db)
    ensures Sound(PostTxnStep(db, rt, t, key).db)
  {
    var w := PostTxnWrites(db, rt, t, key);
    WriteSound(db, PostTxnStep(db, rt, t, key).db, w);
  }

  lemma EvidenceLater(posted: Db, ops: seq<Op>, t: Id, required: int)
    requires Sound(posted)
    requires t in posted.txns && posted.txns[t].status == TxnStatus.Posted
    requires |With(posted.approvals, t, Approved)| >= required
    ensures Evidence(posted, Run(posted, ops), t, required)
  {
    RunKeeps(posted, ops);
    EvidenceCarries(posted, Run(posted, ops), t, required);
  }

  /** In no reachable state does the gate meet a rejected approval of a transaction it could post. */
  lemma RejectedGateUnreachable(db: Db, t: Id)
    requires Reachable(db) && t in db.txns && db.txns[t].status == TxnStatus.Validated
    ensures GateOf(db, t) != RejectedGate
  {
    ReachableSound(db);
    RejectionCoupling(db.approvals, db.txns, t);
  }

  /** An approval of a posted transaction can no longer be rejected. */
  lemma PostedCannotBeRejected(db: Db, actor: Actor, a: ApprovalId, seen: ApprovalPolicy)
    requires a.0 in db.txns && db.txns[a.0].status == TxnStatus.Posted
    ensures DecideStep(db, actor, a, false, seen).db == db && DecideStep(db, actor, a, false, seen).reply.Refused?
  {
  }

  /** Every decision of the tenant in the run was made under a policy that prevents self approval. */
  predicate PreventsAlong(ops: seq<Op>, rt: Id) {
    forall i :: 0 <= i < |ops| && ops[i].Approve? ==> Prevents(ops[i].approval, rt)
  }

  lemma StepIndependent(db: Db, op: Op, rt: Id)
    requires Sound(db) && SelfFree(db.approvals, db.txns, rt)
    requires op.Approve? ==> Prevents(op.approval, rt)
    ensures SelfFree(Step(db, op).db.approvals, Step(db, op).db.txns, rt)
  {
    match op
    case Finance(f) =>
      FinanceKeeps(db, f);
      FinanceLeavesApprovals(db, f);
      SelfFreeSurvives(db.approvals, db.txns, FinanceStep(db, f).db.txns, rt);
    case Approve(a) => DecisionsIndependent(db, a, rt);
    case Collect(c) => CollectionStepKeeps(db, c);
    case SetMaster(_) =>
  }

  lemma FinanceLeavesApprovals(db: Db, f: FinanceOp)
    ensures FinanceStep(db, f).db.approvals == db.approvals
  {
    var w := FinanceStepWrites(db, f);
    AppliedFrame(db, w);
  }

  /** While policies prevent self approval, nobody decides an expense they asked for or entered. */
  lemma {:induction false} DecidersIndependent(db: Db, ops: seq<Op>, rt: Id)
    requires Sound(db) && SelfFree(db.approvals, db.txns, rt) && PreventsAlong(ops, rt)
    ensures SelfFree(Run(db, ops).approvals, Run(db, ops).txns, rt)
    decreases |ops|
  {
    if ops != [] {
      assert forall i :: 0 <= i < |ops[1..]| ==> ops[1..][i] == ops[i + 1];
      StepKeeps(db, ops[0]);
      StepIndependent(db, ops[0], rt);
      DecidersIndependent(Step(db, ops[0]).db, ops[1..], rt);
    }
  }

  // ----- Self approval under the stored policy -------------------------------------------------

  /** The tenant's policy as stored after the first j calls. */
  ghost function PolicyAt(db: Db, ops: seq<Op>, rt: Id, j: nat): ApprovalPolicy
    requires j <= |ops|
  {
    PolicyOf(Run(db, ops[..j]), rt)
  }

  predicate DecidesFor(op: Op, rt: Id) {
    op.Approve? && op.approval.Decide? && op.approval.actor.rt == rt
  }

  /** Call i was made under the policy its service had read, which was stored at that time or earlier. */
  ghost predicate ReadBefore(db: Db, ops: seq<Op>, rt: Id, i: nat)
    requires i < |ops| && DecidesFor(ops[i], rt)
  {
    exists j: nat :: j <= i && ops[i].approval.seen == PolicyAt(db, ops, rt, j)
  }

  /** Every decision of the tenant used a policy that its service read from the store. */
  ghost predicate Informed(db: Db, ops: seq<Op>, rt: Id) {
    forall i: nat :: i < |ops| && DecidesFor(ops[i], rt) ==> ReadBefore(db, ops, rt, i)
  }

  /** The stored policy prevents self approval in every state of the run. */
  ghost predicate StoredPrevents(db: Db, ops: seq<Op>, rt: Id) {
    forall j: nat :: j <= |ops| ==> PolicyAt(db, ops, rt, j).preventSelf
  }

  lemma InformedPrevents(db: Db, ops: seq<Op>, rt: Id)
    requires Informed(db, ops, rt) && StoredPrevents(db, ops, rt)
    ensures PreventsAlong(ops, rt)
  {
    forall i: nat | i < |ops| && DecidesFor(ops[i], rt) ensures ops[i].approval.seen.preventSelf {
      var j: nat :| j <= i && ops[i].approval.seen == PolicyAt(db, ops, rt, j);
    }
  }

  /**
   While the stored policy prevents self approval, in every state of a run from the empty database,
   nobody has decided an expense they asked for or entered, however old the policy each decision read.
   */
  lemma StoredPolicyKeepsIndependence(master: MasterData, platform: Platform, ops: seq<Op>, rt: Id)
    requires Informed(Empty(master, platform), ops, rt) && StoredPrevents(Empty(master, platform), ops, rt)
    ensures var later := Run(Empty(master, platform), ops); SelfFree(later.approvals, later.txns, rt)
  {
    EmptySound(master, platform);
    InformedPrevents(Empty(master, platform), ops, rt);
    DecidersIndependent(Empty(master, platform), ops, rt);
  }

  predicate TurnsOff(op: Op, rt: Id) {
    op.Approve? && op.approval.UpdatePolicy? && op.approval.rt == rt && !op.approval.policy.preventSelf
  }

  lemma ApprovalKeepsPrevention(db: Db, a: ApprovalOp, rt: Id)
    requires PolicyOf(db, rt).preventSelf && !TurnsOff(Approve(a), rt)
    ensures PolicyOf(ApprovalStep(db, a).db, rt).preventSelf
  {
  }

  lemma SettingsOnlyByPolicy(db: Db, op: Op)
    requires !op.Approve?
    ensures Step(db, op).db.settings == db.settings
  {
    match op
    case Finance(f) =>
      var w := FinanceStepWrites(db, f);
      AppliedFrame(db, w);
    case Collect(c) => CollectLeavesSettings(db, c);
    case SetMaster(_) =>
  }

  lemma CollectLeavesSettings(db: Db, c: CollectionOp)
    ensures CollectionStep(db, c).db.settings == db.settings
  {
  }

  lemma StepKeepsPrevention(db: Db, op: Op, rt: Id)
    requires PolicyOf(db, rt).preventSelf && !TurnsOff(op, rt)
    ensures PolicyOf(Step(db, op).db, rt).preventSelf
  {
    match op
    case Approve(a) => ApprovalKeepsPrevention(db, a, rt);
    case _ =>
      SettingsOnlyByPolicy(db, op);
      PreventionIsStored(db, Step(db, op).db, rt);
  }

  /** The flag depends on the setting alone, not on the library functions the normalizer uses. */
  lemma PreventionIsStored(a: Db, b: Db, rt: Id)
    requires a.settings == b.settings
    ensures PolicyOf(a, rt).preventSelf == PolicyOf(b, rt).preventSelf
  {
  }

  lemma {:induction false} RunKeepsPrevention(db: Db, ops: seq<Op>, rt: Id)
    requires PolicyOf(db, rt).preventSelf && forall i :: 0 <= i < |ops| ==> !TurnsOff(ops[i], rt)
    ensures PolicyOf(Run(db, ops), rt).preventSelf
    decreases |ops|
  {
    if ops != [] {
      assert forall i :: 0 <= i < |ops[1..]| ==> ops[1..][i] == ops[i + 1];
      StepKeepsPrevention(db, ops[0], rt);
      RunKeepsPrevention(Step(db, ops[0]).db, ops[1..], rt);
    }
  }

  /** The default prevents self approval, and only an update of the tenant's policy can turn that off. */
  lemma PreventionIsDefault(master: MasterData, platform: Platform, ops: seq<Op>, rt: Id)
    requires forall i :: 0 <= i < |ops| ==> !TurnsOff(ops[i], rt)
    ensures StoredPrevents(Empty(master, platform), ops, rt)
  {
    forall j: nat | j <= |ops| ensures PolicyAt(Empty(master, platform), ops, rt, j).preventSelf {
      RunKeepsPrevention(Empty(master, platform), ops[..j], rt);
    }
  }

  ghost predicate PolicyKept(db: Db, ops: seq<Op>, rt: Id, policy: GatePolicy)
    decreases |ops|
  {
    ops != [] ==> GatePolicyOf(SettingOf(db, rt)) == policy && PolicyKept(Step(db, ops[0]).db, ops[1..], rt, policy)
  }

  ghost predicate Stalled(db: Db, t: Id, policy: GatePolicy) {
    && t in db.txns && db.txns[t].what.kind == Expense && db.txns[t].status != TxnStatus.Posted
    && !AutoApproved(db.platform, policy, db.txns[t].what.amount)
    && Rows(db.approvals, t) != {} && |InPlay(db.approvals, t)| < policy.required
  }

  lemma ClosedGate(db: Db, t: Id, policy: GatePolicy)
    requires Stalled(db, t, policy) && GatePolicyOf(SettingOf(db, db.txns[t].rt)) == policy
    ensures GateOf(db, t) != Open
  {
  }

  lemma StalledNotPosted(db: Db, op: Op, t: Id, policy: GatePolicy)
    requires Sound(db) && Stalled(db, t, policy)
    requires GatePolicyOf(SettingOf(db, db.txns[t].rt)) == policy
    ensures t in Step(db, op).db.txns && Step(db, op).db.txns[t].status != TxnStatus.Posted
  {
    StepOnTxn(db, op, t);
    ClosedGate(db, t, policy);
  }

  lemma StalledStays(db: Db, next: Db, t: Id, policy: GatePolicy)
    requires Stalled(db, t, policy) && Evolves(db, next)
    requires t in next.txns && next.txns[t].status != TxnStatus.Posted
    ensures Stalled(next, t, policy) && next.txns[t].rt == db.txns[t].rt
  {
    ProgressShrinks(db.approvals, next.approvals, t);
    assert TxnEvolves(db.txns[t], next.txns[t]);
  }

  /**
   Under a fixed policy, once too few approvals are given or still open, an expense that needs
   approval is not posted in any continuation.
   */
  lemma {:induction false} StalledNeverPosts(db: Db, ops: seq<Op>, t: Id, policy: GatePolicy)
    requires Sound(db) && Stalled(db, t, policy) && PolicyKept(db, ops, db.txns[t].rt, policy)
    ensures t in Run(db, ops).txns && Run(db, ops).txns[t].status != TxnStatus.Posted
    decreases |ops|
  {
    if ops != [] {
      StepKeeps(db, ops[0]);
      StalledNotPosted(db, ops[0], t, policy);
      StalledStays(db, Step(db, ops[0]).db, t, policy);
      StalledNeverPosts(Step(db, ops[0]).db, ops[1..], t, policy);
    }
  }
}
