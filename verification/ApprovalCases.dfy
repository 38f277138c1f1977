/** Reported status, expiry and replays of requests: exact conditions, and reachable cases of each. */
module ApprovalCases {
  import opened Prelude
  import opened Tables
  import opened Policy
  import opened FinanceOps
  import opened ApprovalOps
  import opened ApprovalLaws
  import opened System
  import opened SystemLaws
  import opened Counterexamples

  // ----- Exact conditions ----------------------------------------------------------------------

  lemma RowHasStatus(approvals: map<ApprovalId, Approval>, t: Id, m: Id)
    ensures m in Rows(approvals, t) <==> (t, m) in approvals
    ensures m in Rows(approvals, t) <==>
              || m in With(approvals, t, Pending) || m in With(approvals, t, Approved)
              || m in With(approvals, t, ApprovalStatus.Rejected) || m in With(approvals, t, ApprovalStatus.Cancelled)
  {
    MemberOfWith(approvals, t, Pending, m);
    MemberOfWith(approvals, t, Approved, m);
    MemberOfWith(approvals, t, ApprovalStatus.Rejected, m);
    MemberOfWith(approvals, t, ApprovalStatus.Cancelled, m);
    assert (t, m) in approvals ==> (t, m).1 in Rows(approvals, t);
  }

  lemma AllCancelled(approvals: map<ApprovalId, Approval>, t: Id)
    requires With(approvals, t, Pending) == {} && With(approvals, t, ApprovalStatus.Rejected) == {}
    ensures |With(approvals, t, ApprovalStatus.Cancelled)| == |Rows(approvals, t)| <==> With(approvals, t, Approved) == {}
  {
    var cancelled, rows, approved := With(approvals, t, ApprovalStatus.Cancelled), Rows(approvals, t), With(approvals, t, Approved);
    forall m ensures m in rows <==> m in approved || m in cancelled {
      RowHasStatus(approvals, t, m);
    }
    SubsetSize(cancelled, rows);
    forall m | m in approved ensures m !in cancelled {
      MemberOfWith(approvals, t, Approved, m);
      MemberOfWith(approvals, t, ApprovalStatus.Cancelled, m);
    }
  }

  /**
   PENDING is reported without any pending row exactly when nothing is rejected, fewer are approved
   than required, and either no row exists at all or somebody has approved; at every time.
   */
  lemma PendingExact(approvals: map<ApprovalId, Approval>, t: Id, policy: ApprovalPolicy, now: nat)
    ensures ApprovalState(approvals, t, policy, now) == InReview && With(approvals, t, Pending) == {}
       <==> && With(approvals, t, Pending) == {} && With(approvals, t, ApprovalStatus.Rejected) == {}
            && |With(approvals, t, Approved)| < policy.required
            && (Rows(approvals, t) == {} || With(approvals, t, Approved) != {})
  {
    if With(approvals, t, Pending) == {} && With(approvals, t, ApprovalStatus.Rejected) == {} {
      AllCancelled(approvals, t);
    }
  }

  /** Expiry is reported exactly when nothing earlier decides and some pending row is past its time. */
  lemma ExpiredExact(approvals: map<ApprovalId, Approval>, t: Id, policy: ApprovalPolicy, now: nat)
    ensures ApprovalState(approvals, t, policy, now) == Expired
       <==> && With(approvals, t, ApprovalStatus.Rejected) == {} && |With(approvals, t, Approved)| < policy.required
            && exists m :: (t, m) in approvals && approvals[(t, m)].status == Pending
                           && approvals[(t, m)].expiresAt.Some? && approvals[(t, m)].expiresAt.value <= now
  {
    forall m ensures m in With(approvals, t, Pending) <==> (t, m) in approvals && approvals[(t, m)].status == Pending {
      MemberOfWith(approvals, t, Pending, m);
    }
  }

  /** A decision does not look at the expiry of its approval. */
  lemma ExpiredCanBeDecided(db: Db, actor: Actor, a: ApprovalId, seen: ApprovalPolicy, expiresAt: Option<nat>)
    requires a in db.approvals
    ensures var expired := db.(approvals := db.approvals[a := db.approvals[a].(expiresAt := expiresAt)]);
            DecideRefusal(expired, actor, a, seen) == DecideRefusal(db, actor, a, seen)
  {
  }

  /** What a request must pass before rows are looked up. */
  ghost predicate RequestAdmitted(db: Db, actor: Actor, t: Id, policy: ApprovalPolicy) {
    && TxnOf(db.txns, actor.rt, t) && db.txns[t].what.kind == Expense && db.txns[t].status == TxnStatus.Validated
    && var below := db.platform.atMost(db.txns[t].what.amount, policy.threshold);
       !(policy.autoApprove && (below.None? || below.value))
  }

  /**
   A request can be answered as a replay although its transaction has no approval at all: exactly
   when enough approvers exist and another request already used the key one of them would get.
   */
  lemma ReplayWithoutRows(db: Db, actor: Actor, t: Id, request: ApprovalRequest)
    ensures RequestAnswer(db, actor, t, request) == Replayed(t) && Rows(db.approvals, t) == {}
       <==> && RequestAdmitted(db, actor, t, request.seen) && Rows(db.approvals, t) == {}
            && |Approvers(db, actor, t, request.seen)| >= request.seen.required
            && RowKeyTaken(db.approvals, actor.rt, request.key, Approvers(db, actor, t, request.seen))
  {
  }

  // ----- A reachable case of each --------------------------------------------------------------

  /** The boss asks; members 1 and 2 may approve. */
  function Approvers12(): MasterData {
    OneMember().(members := map[0 := Member(0, 0, true, {}), 1 := Member(0, 1, true, {"K"}), 2 := Member(0, 2, true, {"K"})])
  }

  function Approver(m: Id): Actor {
    Actor(m, m, 0, false)
  }

  /** Two approvals by members with role K, nobody approves for themselves. */
  function BothMustApprove(): ApprovalPolicy {
    ApprovalPolicy("1", false, true, ["K"], 2, 7.0)
  }

  function Bill(): DraftCommand {
    DraftCommand(Particulars(Expense, 0, 0, 100, "", 0, None, None, None), None)
  }

  function Bills(first: TxnStatus, second: TxnStatus, approvals: map<ApprovalId, Approval>): Db {
    Empty(Approvers12(), Simple()).(
      accounts := map[0 := NewAccount(0, "a")],
      categories := map[0 := Category(Some(0), "c", Expense, false, true, false)],
      settings := map[0 := ToJson(BothMustApprove())],
      txns := map[0 := Txn(0, Bill().what, None, first, 0), 1 := Txn(0, Bill().what, None, second, 0)],
      approvals := approvals)
  }

  lemma ApprovalReaches(db: Db, op: ApprovalOp, next: Db)
    requires Reachable(db) && ApprovalStep(db, op).db == next
    ensures Reachable(next)
  {
    ReachableStep(db, Approve(op));
  }

  function Furnished(): Db {
    Bills(TxnStatus.Draft, TxnStatus.Draft, map[]).(settings := map[], txns := map[])
  }

  lemma FurnishedReached()
    ensures Reachable(Furnished())
  {
    var empty := Empty(Approvers12(), Simple());
    var withAccount := empty.(accounts := Furnished().accounts);
    assert Run(empty, []) == empty;
    assert AccountsWithKey(map[], 0, "a") == {};
    FinanceReaches(empty, CreateAccount(0, 0, "a"), withAccount);
    FinanceReaches(withAccount, SetCategories(Furnished().categories), Furnished());
  }

  lemma PolicyStored(db: Db)
    requires db.platform == Simple()
    ensures UpdatePolicyStep(db, 0, BothMustApprove()).db == db.(settings := db.settings[0 := ToJson(BothMustApprove())])
    ensures Normalize(Simple(), Some(ToJson(BothMustApprove()))) == BothMustApprove()
  {
    assert Lawful(Simple());
    ReadBack(Simple(), BothMustApprove());
    assert CashText("1");
  }

  lemma DraftsReached()
    ensures Reachable(Bills(TxnStatus.Draft, TxnStatus.Draft, map[]))
  {
    var governed := Furnished().(settings := map[0 := ToJson(BothMustApprove())]);
    var one := governed.(txns := map[0 := Txn(0, Bill().what, None, TxnStatus.Draft, 0)]);
    FurnishedReached();
    PolicyStored(Furnished());
    ApprovalReaches(Furnished(), UpdatePolicy(0, BothMustApprove()), governed);
    FirstBill(governed);
    SecondBill(one);
    FinanceReaches(governed, CreateDraft(Boss(), 0, Bill()), one);
    FinanceReaches(one, CreateDraft(Boss(), 1, Bill()), Bills(TxnStatus.Draft, TxnStatus.Draft, map[]));
  }

  lemma FirstBill(governed: Db)
    requires governed == Bills(TxnStatus.Draft, TxnStatus.Draft, map[]).(txns := map[])
    ensures CreateDraftStep(governed, Boss(), 0, Bill()).db == governed.(txns := map[0 := Txn(0, Bill().what, None, TxnStatus.Draft, 0)])
  {
  }

  lemma SecondBill(one: Db)
    requires one == Bills(TxnStatus.Draft, TxnStatus.Draft, map[]).(txns := map[0 := Txn(0, Bill().what, None, TxnStatus.Draft, 0)])
    ensures CreateDraftStep(one, Boss(), 1, Bill()).db == Bills(TxnStatus.Draft, TxnStatus.Draft, map[])
  {
  }

  lemma BillsValidated()
    ensures Reachable(Bills(TxnStatus.Validated, TxnStatus.Validated, map[]))
  {
    DraftsReached();
    FinanceReaches(Bills(TxnStatus.Draft, TxnStatus.Draft, map[]), ValidateTxn(0, 0), Bills(TxnStatus.Validated, TxnStatus.Draft, map[]));
    SecondBillValidated();
  }

  lemma SecondBillValidated()
    requires Reachable(Bills(TxnStatus.Validated, TxnStatus.Draft, map[]))
    ensures Reachable(Bills(TxnStatus.Validated, TxnStatus.Validated, map[]))
  {
    FinanceReaches(Bills(TxnStatus.Validated, TxnStatus.Draft, map[]), ValidateTxn(0, 1), Bills(TxnStatus.Validated, TxnStatus.Validated, map[]));
  }

  function Ask(): ApprovalRequest {
    ApprovalRequest(Some("k"), Some(0), BothMustApprove())
  }

  function Row(m: Id, status: ApprovalStatus, decider: Option<Id>): Approval {
    NewRow(Boss(), m, Ask().key, Ask().expiresAt).(status := status, decisionBy := decider)
  }

  function Asked(first: Approval, second: Approval): map<ApprovalId, Approval> {
    map[(0, 1) := first, (0, 2) := second]
  }

  function BothPending(): Db {
    Bills(TxnStatus.Validated, TxnStatus.Validated, Asked(Row(1, Pending, None), Row(2, Pending, None)))
  }

  lemma BothAsked(db: Db)
    requires db.master == Approvers12() && 0 in db.txns && db.txns[0].createdBy == 0
    ensures Approvers(db, Boss(), 0, BothMustApprove()) == {1, 2}
  {
    assert HasRole(db.master.members[1], BothMustApprove()) by { assert BothMustApprove().roles[0] in db.master.members[1].roles; }
    assert HasRole(db.master.members[2], BothMustApprove()) by { assert BothMustApprove().roles[0] in db.master.members[2].roles; }
  }

  lemma AskedRows()
    ensures FanOut(map[], Boss(), 0, {1, 2}, Ask().key, Ask().expiresAt) == BothPending().approvals
  {
  }

  lemma RequestAdmittedDone()
    ensures RequestAnswer(Bills(TxnStatus.Validated, TxnStatus.Validated, map[]), Boss(), 0, Ask()) == Done(0)
  {
    BothAsked(Bills(TxnStatus.Validated, TxnStatus.Validated, map[]));
    var both: set<Id> := {1, 2};
    assert |both| == 2;
  }

  lemma RequestGranted()
    ensures RequestStep(Bills(TxnStatus.Validated, TxnStatus.Validated, map[]), Boss(), 0, Ask()).db == BothPending()
  {
    BothAsked(Bills(TxnStatus.Validated, TxnStatus.Validated, map[]));
    RequestAdmittedDone();
    AskedRows();
  }

  lemma RequestReached()
    ensures Reachable(BothPending())
  {
    BillsValidated();
    RequestGranted();
    ApprovalReaches(Bills(TxnStatus.Validated, TxnStatus.Validated, map[]), RequestApprovals(Boss(), 0, Ask()), BothPending());
  }

  /** Reported status of the first bill in a state of the case. */
  ghost function Reported(db: Db, now: nat): WorkflowStatus
    requires 0 in db.txns
  {
    ReportedStatus(db.platform, SettingOf(db, 0), db.approvals, 0, db.txns[0], now)
  }

  lemma ReportedByState(db: Db, now: nat)
    requires db == Bills(TxnStatus.Validated, TxnStatus.Validated, db.approvals)
    ensures Reported(db, now) == ApprovalState(db.approvals, 0, BothMustApprove(), now)
  {
    PolicyStored(db);
  }

  lemma AskedStatus(first: Approval, second: Approval, status: ApprovalStatus)
    ensures var approvals := Asked(first, second);
            && Rows(approvals, 0) == {1, 2} && Rows(approvals, 1) == {}
            && With(approvals, 0, status)
               == (if first.status == status then {1} else {}) + (if second.status == status then {2} else {})
  {
    var approvals := Asked(first, second);
    assert (0, 1) in approvals && (0, 2) in approvals;
    forall m ensures m in With(approvals, 0, status) <==> (m == 1 && first.status == status) || (m == 2 && second.status == status) {
      MemberOfWith(approvals, 0, status, m);
    }
  }

  lemma ReportedExpired(now: nat)
    ensures Reported(BothPending(), now) == Expired
  {
    var approvals := BothPending().approvals;
    ReportedByState(BothPending(), now);
    AskedStatus(Row(1, Pending, None), Row(2, Pending, None), ApprovalStatus.Rejected);
    AskedStatus(Row(1, Pending, None), Row(2, Pending, None), Approved);
    assert (0, 1) in approvals && approvals[(0, 1)].status == Pending && approvals[(0, 1)].expiresAt == Some(0);
    ExpiredExact(approvals, 0, BothMustApprove(), now);
  }

  /** A reachable approval that is reported as expired, at every time, and that its approver then gives. */
  lemma ExpiredIsDecided(now: nat) returns (db: Db)
    ensures Reachable(db) && 0 in db.txns && Reported(db, now) == Expired
    ensures DecideStep(db, Approver(1), (0, 1), true, BothMustApprove()).reply == Done(0)
  {
    db := BothPending();
    RequestReached();
    ReportedExpired(now);
    assert BothMustApprove().roles[0] in db.master.members[1].roles;
  }

  /** The second bill's request brings the first one's key: it is answered as a replay, with no row. */
  lemma ReplayOfNothing() returns (db: Db)
    ensures Reachable(db) && Rows(db.approvals, 1) == {}
    ensures RequestStep(db, Boss(), 1, Ask()) == Outcome(db, Replayed(1))
  {
    db := BothPending();
    RequestReached();
    AskedStatus(Row(1, Pending, None), Row(2, Pending, None), Pending);
    BothAsked1(db);
    assert db.approvals[(0, 1)].key == RowKey(Ask().key, 1);
    assert RowKeyTaken(db.approvals, 0, Ask().key, Approvers(db, Boss(), 1, BothMustApprove()));
    var both: set<Id> := {1, 2};
    assert |both| == 2;
    ReplayWithoutRows(db, Boss(), 1, Ask());
  }

  lemma BothAsked1(db: Db)
    requires db.master == Approvers12() && 1 in db.txns && db.txns[1].createdBy == 0
    ensures Approvers(db, Boss(), 1, BothMustApprove()) == {1, 2}
  {
    assert BothMustApprove().roles[0] in db.master.members[1].roles;
    assert BothMustApprove().roles[0] in db.master.members[2].roles;
  }

  lemma OneApproved()
    ensures DecideStep(BothPending(), Approver(1), (0, 1), true, BothMustApprove()).db
         == Bills(TxnStatus.Validated, TxnStatus.Validated, Asked(Row(1, Approved, Some(1)), Row(2, Pending, None)))
  {
    assert BothMustApprove().roles[0] in BothPending().master.members[1].roles;
  }

  /** A request, one approval and one cancellation later: PENDING is reported, at every time, and no row is pending. */
  lemma PendingWithoutPendingRows(now: nat) returns (db: Db)
    ensures Reachable(db) && 0 in db.txns && Rows(db.approvals, 0) == {1, 2}
    ensures With(db.approvals, 0, Pending) == {} && Reported(db, now) == InReview
  {
    var decided := Bills(TxnStatus.Validated, TxnStatus.Validated, Asked(Row(1, Approved, Some(1)), Row(2, Pending, None)));
    var first, second := Row(1, Approved, Some(1)), Row(2, ApprovalStatus.Cancelled, Some(0));
    db := Bills(TxnStatus.Validated, TxnStatus.Validated, Asked(first, second));
    RequestReached();
    OneApproved();
    ApprovalReaches(BothPending(), Decide(Approver(1), (0, 1), true, BothMustApprove()), decided);
    OneCancelled();
    AskedStatus(first, second, Pending);
    AskedStatus(first, second, Approved);
    AskedStatus(first, second, ApprovalStatus.Rejected);
    ReportedByState(db, now);
    PendingExact(db.approvals, 0, BothMustApprove(), now);
  }

  lemma OneCancelled()
    requires Reachable(Bills(TxnStatus.Validated, TxnStatus.Validated, Asked(Row(1, Approved, Some(1)), Row(2, Pending, None))))
    ensures Reachable(Bills(TxnStatus.Validated, TxnStatus.Validated, Asked(Row(1, Approved, Some(1)), Row(2, ApprovalStatus.Cancelled, Some(0)))))
  {
    ApprovalReaches(
      Bills(TxnStatus.Validated, TxnStatus.Validated, Asked(Row(1, Approved, Some(1)), Row(2, Pending, None))),
      CancelApproval(Boss(), (0, 2)),
      Bills(TxnStatus.Validated, TxnStatus.Validated, Asked(Row(1, Approved, Some(1)), Row(2, ApprovalStatus.Cancelled, Some(0)))));
  }
}
