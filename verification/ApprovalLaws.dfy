/** What approval rows keep true, and how they may change over time. */
module ApprovalLaws {
  import opened Prelude
  import opened Tables
  import opened Policy
  import opened FinanceOps
  import opened FinanceLaws
  import opened ApprovalOps

  /** A row belongs to an expense of its tenant that was validated, and is decided by someone or pending. */
  ghost predicate RowSound(row: Approval, x: Txn) {
    && row.rt == x.rt && x.what.kind == Expense
    && x.status in {TxnStatus.Validated, TxnStatus.Posted, TxnStatus.Rejected}
    && (row.status == Pending <==> row.decisionBy == None)
    && (row.status == ApprovalStatus.Rejected ==> x.status == TxnStatus.Rejected)
  }

  ghost predicate IsRejected(approvals: map<ApprovalId, Approval>, k: ApprovalId) {
    k in approvals && approvals[k].status == ApprovalStatus.Rejected
  }

  ghost predicate ApprovalsSound(approvals: map<ApprovalId, Approval>, txns: map<Id, Txn>) {
    && (forall k :: k in approvals ==> k.0 in txns && RowSound(approvals[k], txns[k.0]))
    && (forall k, l :: IsRejected(approvals, k) && IsRejected(approvals, l) && k.0 == l.0 ==> k == l)
  }

  /** A row keeps who asked, and leaves PENDING at most once. */
  ghost predicate RowEvolves(a: Approval, b: Approval) {
    && b.rt == a.rt && b.requestedBy == a.requestedBy && b.key == a.key && b.expiresAt == a.expiresAt
    && (a.status != Pending ==> b == a)
  }

  /** Rows are never removed, and a transaction that has rows never gets more. */
  ghost predicate ApprovalsEvolve(approvals: map<ApprovalId, Approval>, approvals': map<ApprovalId, Approval>) {
    && (forall k :: k in approvals ==> k in approvals' && RowEvolves(approvals[k], approvals'[k]))
    && (forall k, l :: k in approvals' && k !in approvals && l in approvals ==> l.0 != k.0)
  }

  lemma ApprovalsEvolveTransitive(a: map<ApprovalId, Approval>, b: map<ApprovalId, Approval>, c: map<ApprovalId, Approval>)
    requires ApprovalsEvolve(a, b) && ApprovalsEvolve(b, c)
    ensures ApprovalsEvolve(a, c)
  {
  }

  /** Whatever the finance steps do to transactions, stored approvals stay sound. */
  lemma ApprovalsSurvive(approvals: map<ApprovalId, Approval>, txns: map<Id, Txn>, txns': map<Id, Txn>)
    requires ApprovalsSound(approvals, txns) && TxnsEvolve(txns, txns')
    ensures ApprovalsSound(approvals, txns')
  {
  }

  // ----- Steps ---------------------------------------------------------------------------------

  /** An approval step touches only approvals, settings and the status of one transaction. */
  ghost predicate ApprovalShape(db: Db, db': Db) {
    && db' == db.(approvals := db'.approvals, settings := db'.settings, txns := db'.txns)
    && (db'.txns == db.txns
        || exists t :: t in db.txns && db.txns[t].status == TxnStatus.Validated
                       && db'.txns == db.txns[t := db.txns[t].(status := TxnStatus.Rejected)])
  }

  lemma RequestKeeps(db: Db, actor: Actor, t: Id, request: ApprovalRequest)
    requires ApprovalsSound(db.approvals, db.txns)
    ensures var db' := RequestStep(db, actor, t, request).db;
            && ApprovalShape(db, db') && db'.settings == db.settings && db'.txns == db.txns
            && ApprovalsSound(db'.approvals, db'.txns)
            && ApprovalsEvolve(db.approvals, db'.approvals)
  {
    var step := RequestStep(db, actor, t, request);
    RequestGuards(db, actor, t, request);
    if step.reply.Done? {
      forall k | k in db.approvals ensures k.0 != t {
        assert k.0 == t ==> k.1 in Rows(db.approvals, t);
      }
      FanOutKeeps(db.approvals, db.txns, actor, t, Approvers(db, actor, t, request.seen), request.key, request.expiresAt);
    }
  }

  lemma RequestGuards(db: Db, actor: Actor, t: Id, request: ApprovalRequest)
    ensures RequestAnswer(db, actor, t, request).Done? ==>
              && TxnOf(db.txns, actor.rt, t) && db.txns[t].what.kind == Expense && db.txns[t].status == TxnStatus.Validated
              && Rows(db.approvals, t) == {}
    ensures RequestStep(db, actor, t, request).reply == RequestAnswer(db, actor, t, request)
    ensures !RequestAnswer(db, actor, t, request).Done? ==> RequestStep(db, actor, t, request).db == db
  {
  }

  lemma FanOutKeeps(
    approvals: map<ApprovalId, Approval>, txns: map<Id, Txn>, actor: Actor, t: Id, approvers: set<Id>,
    key: Option<string>, expiresAt: Option<nat>)
    requires ApprovalsSound(approvals, txns)
    requires TxnOf(txns, actor.rt, t) && txns[t].what.kind == Expense && txns[t].status == TxnStatus.Validated
    requires forall k :: k in approvals ==> k.0 != t
    ensures ApprovalsSound(FanOut(approvals, actor, t, approvers, key, expiresAt), txns)
    ensures ApprovalsEvolve(approvals, FanOut(approvals, actor, t, approvers, key, expiresAt))
  {
    var approvals' := FanOut(approvals, actor, t, approvers, key, expiresAt);
    forall k | k in approvals' ensures k.0 in txns && RowSound(approvals'[k], txns[k.0]) {}
    forall k | IsRejected(approvals', k) ensures IsRejected(approvals, k) {}
    forall k | k in approvals ensures k in approvals' && RowEvolves(approvals[k], approvals'[k]) {}
  }

  /** A request asks each eligible approver exactly once. */
  lemma FanOutRows(
    approvals: map<ApprovalId, Approval>, actor: Actor, t: Id, approvers: set<Id>, key: Option<string>, expiresAt: Option<nat>)
    requires Rows(approvals, t) == {}
    ensures var approvals' := FanOut(approvals, actor, t, approvers, key, expiresAt);
            Rows(approvals', t) == With(approvals', t, Pending) == approvers
  {
    var approvals' := FanOut(approvals, actor, t, approvers, key, expiresAt);
    forall k | k in approvals ensures k.0 != t {
      assert k.0 == t ==> k.1 in Rows(approvals, t);
    }
    forall m | m in approvers ensures m in With(approvals', t, Pending) && m in Rows(approvals', t) {
      assert (t, m) in approvals';
    }
  }

  /** Deciding one pending row, and rejecting its transaction with it when the row is rejected. */
  lemma DecidedKeeps(
    approvals: map<ApprovalId, Approval>, txns: map<Id, Txn>, k: ApprovalId, status: ApprovalStatus, decider: Id, txns': map<Id, Txn>)
    requires ApprovalsSound(approvals, txns)
    requires k in approvals && approvals[k].status == Pending && status != Pending
    requires if status == ApprovalStatus.Rejected
             then txns[k.0].status == TxnStatus.Validated && txns' == txns[k.0 := txns[k.0].(status := TxnStatus.Rejected)]
             else txns' == txns
    ensures var approvals' := approvals[k := Decided(approvals[k], status, decider)];
            ApprovalsSound(approvals', txns') && ApprovalsEvolve(approvals, approvals')
  {
  }

  lemma DecideKeeps(db: Db, actor: Actor, a: ApprovalId, approve: bool, seen: ApprovalPolicy)
    requires ApprovalsSound(db.approvals, db.txns)
    ensures var db' := DecideStep(db, actor, a, approve, seen).db;
            && ApprovalShape(db, db') && db'.settings == db.settings
            && ApprovalsSound(db'.approvals, db'.txns)
            && ApprovalsEvolve(db.approvals, db'.approvals)
  {
    var step := DecideStep(db, actor, a, approve, seen);
    if step.reply.Done? {
      DecidedKeeps(db.approvals, db.txns, a, if approve then Approved else ApprovalStatus.Rejected, actor.user, step.db.txns);
    }
  }

  lemma CancelKeeps(db: Db, actor: Actor, a: ApprovalId)
    requires ApprovalsSound(db.approvals, db.txns)
    ensures var db' := CancelStep(db, actor, a).db;
            && ApprovalShape(db, db') && db'.settings == db.settings && db'.txns == db.txns
            && ApprovalsSound(db'.approvals, db'.txns)
            && ApprovalsEvolve(db.approvals, db'.approvals)
  {
    if CancelStep(db, actor, a).reply.Done? {
      DecidedKeeps(db.approvals, db.txns, a, ApprovalStatus.Cancelled, actor.user, db.txns);
    }
  }

  lemma ApprovalStepKeeps(db: Db, op: ApprovalOp)
    requires ApprovalsSound(db.approvals, db.txns)
    ensures var db' := ApprovalStep(db, op).db;
            && ApprovalShape(db, db')
            && ApprovalsSound(db'.approvals, db'.txns)
            && ApprovalsEvolve(db.approvals, db'.approvals)
  {
    match op
    case UpdatePolicy(_, _) =>
    case RequestApprovals(actor, t, request) => RequestKeeps(db, actor, t, request);
    case Decide(actor, a, approve, seen) => DecideKeeps(db, actor, a, approve, seen);
    case CancelApproval(actor, a) => CancelKeeps(db, actor, a);
  }

  /** A rejection is one allowed finance write, so the books stay in order. */
  lemma ApprovalStepSound(db: Db, db': Db)
    requires FinanceSound(db) && ApprovalShape(db, db')
    ensures FinanceSound(db') && FinanceEvolves(db, db')
  {
    if db'.txns != db.txns {
      var t :| t in db.txns && db.txns[t].status == TxnStatus.Validated
               && db'.txns == db.txns[t := db.txns[t].(status := TxnStatus.Rejected)];
      PutTxnKeeps(db, t, db.txns[t].(status := TxnStatus.Rejected));
    }
  }

  // ----- Progress ------------------------------------------------------------------------------

  /** Approvals that are given or can still be given. */
  ghost function InPlay(approvals: map<ApprovalId, Approval>, t: Id): set<Id> {
    With(approvals, t, Approved) + With(approvals, t, Pending)
  }

  lemma MemberOfWith(approvals: map<ApprovalId, Approval>, t: Id, status: ApprovalStatus, m: Id)
    ensures m in With(approvals, t, status) <==> (t, m) in approvals && approvals[(t, m)].status == status
  {
  }

  /** Once requested, the rows of a transaction are fixed and the approvals in play only shrink. */
  lemma ProgressShrinks(a: map<ApprovalId, Approval>, b: map<ApprovalId, Approval>, t: Id)
    requires ApprovalsEvolve(a, b) && Rows(a, t) != {}
    ensures Rows(b, t) == Rows(a, t)
    ensures InPlay(b, t) <= InPlay(a, t) && With(b, t, Pending) <= With(a, t, Pending)
    ensures |InPlay(b, t)| <= |InPlay(a, t)|
  {
    var l :| l in a && l.0 == t;
    forall m | m in Rows(b, t) ensures m in Rows(a, t) {
      assert (t, m) in b;
      assert (t, m) in a;
    }
    forall m | m in Rows(a, t) ensures m in Rows(b, t) {
      assert (t, m) in b;
    }
    forall m | m in InPlay(b, t) ensures m in InPlay(a, t) && (m in With(b, t, Pending) ==> m in With(a, t, Pending)) {
      MemberOfWith(b, t, Approved, m);
      MemberOfWith(b, t, Pending, m);
      MemberOfWith(a, t, Approved, m);
      MemberOfWith(a, t, Pending, m);
      assert (t, m) in a && RowEvolves(a[(t, m)], b[(t, m)]);
    }
    SubsetSize(InPlay(b, t), InPlay(a, t));
  }

  /** Every row of t that is approved in a is the same row in b: same requester, same decider. */
  ghost predicate SameApproved(a: map<ApprovalId, Approval>, b: map<ApprovalId, Approval>, t: Id) {
    forall k :: k in a && k.0 == t && a[k].status == Approved ==> k in b && b[k] == a[k]
  }

  /** Approvals that were given stay given, by the same person. */
  lemma ApprovedPersist(a: map<ApprovalId, Approval>, b: map<ApprovalId, Approval>, t: Id)
    requires ApprovalsEvolve(a, b)
    ensures With(a, t, Approved) <= With(b, t, Approved)
    ensures |With(a, t, Approved)| <= |With(b, t, Approved)|
    ensures SameApproved(a, b, t)
  {
    forall m | m in With(a, t, Approved) ensures m in With(b, t, Approved) {
      MemberOfWith(a, t, Approved, m);
      MemberOfWith(b, t, Approved, m);
      assert RowEvolves(a[(t, m)], b[(t, m)]);
    }
    SubsetSize(With(a, t, Approved), With(b, t, Approved));
  }

  /** Only a rejected transaction has a rejected approval, and then exactly one. */
  lemma RejectionCoupling(approvals: map<ApprovalId, Approval>, txns: map<Id, Txn>, t: Id)
    requires ApprovalsSound(approvals, txns)
    ensures With(approvals, t, ApprovalStatus.Rejected) != {} ==>
              && t in txns && txns[t].status == TxnStatus.Rejected
              && exists m :: With(approvals, t, ApprovalStatus.Rejected) == {m}
  {
    var rejected := With(approvals, t, ApprovalStatus.Rejected);
    if rejected != {} {
      var m :| m in rejected;
      MemberOfWith(approvals, t, ApprovalStatus.Rejected, m);
      forall n | n in rejected ensures n == m {
        MemberOfWith(approvals, t, ApprovalStatus.Rejected, n);
        assert (t, m) == (t, n);
      }
      assert rejected == {m};
    }
  }

  // ----- Self approval -------------------------------------------------------------------------

  ghost predicate Independent(row: Approval, x: Txn) {
    row.decisionBy.Some? && row.decisionBy.value != row.requestedBy && row.decisionBy.value != x.createdBy
  }

  /** Every approval or rejection of the tenant was decided by neither its requester nor the author. */
  ghost predicate SelfFree(approvals: map<ApprovalId, Approval>, txns: map<Id, Txn>, rt: Id) {
    forall k :: k in approvals && k.0 in txns && approvals[k].rt == rt ==>
      approvals[k].status in {Pending, ApprovalStatus.Cancelled} || Independent(approvals[k], txns[k.0])
  }

  lemma SelfFreeSurvives(approvals: map<ApprovalId, Approval>, txns: map<Id, Txn>, txns': map<Id, Txn>, rt: Id)
    requires ApprovalsSound(approvals, txns) && TxnsEvolve(txns, txns') && SelfFree(approvals, txns, rt)
    ensures SelfFree(approvals, txns', rt)
  {
  }

  /** The call is no decision of the tenant, or one under a policy that prevents self approval. */
  predicate Prevents(op: ApprovalOp, rt: Id) {
    op.Decide? && op.actor.rt == rt ==> op.seen.preventSelf
  }

  /** Under a policy that prevents self approval, decisions stay independent. */
  lemma DecisionsIndependent(db: Db, op: ApprovalOp, rt: Id)
    requires ApprovalsSound(db.approvals, db.txns)
    requires SelfFree(db.approvals, db.txns, rt) && Prevents(op, rt)
    ensures SelfFree(ApprovalStep(db, op).db.approvals, ApprovalStep(db, op).db.txns, rt)
  {
    match op
    case UpdatePolicy(_, _) =>
    case RequestApprovals(actor, t, request) =>
      RequestedOrSame(db, actor, t, request);
    case Decide(actor, a, approve, seen) =>
      DecideIndependent(db, actor, a, approve, seen, rt);
    case CancelApproval(actor, a) =>
      CancelIndependent(db, actor, a, rt);
  }

  lemma RequestedOrSame(db: Db, actor: Actor, t: Id, request: ApprovalRequest)
    ensures var db' := RequestStep(db, actor, t, request).db;
            && db'.txns == db.txns
            && forall k :: k in db'.approvals ==>
                 db'.approvals[k].status == Pending || (k in db.approvals && db'.approvals[k] == db.approvals[k])
  {
  }

  lemma DecideIndependent(db: Db, actor: Actor, a: ApprovalId, approve: bool, seen: ApprovalPolicy, rt: Id)
    requires ApprovalsSound(db.approvals, db.txns)
    requires SelfFree(db.approvals, db.txns, rt) && (actor.rt == rt ==> seen.preventSelf)
    ensures SelfFree(DecideStep(db, actor, a, approve, seen).db.approvals, DecideStep(db, actor, a, approve, seen).db.txns, rt)
  {
  }

  lemma CancelIndependent(db: Db, actor: Actor, a: ApprovalId, rt: Id)
    requires ApprovalsSound(db.approvals, db.txns) && SelfFree(db.approvals, db.txns, rt)
    ensures SelfFree(CancelStep(db, actor, a).db.approvals, db.txns, rt)
  {
  }
}
