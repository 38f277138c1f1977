/** What single calls mean for the calls after them: effects, undoing, repeats and what never returns. */
module CallTheorems {
  import opened Prelude
  import opened Sums
  import opened Tables
  import opened Policy
  import opened FinanceOps
  import opened LedgerLaws
  import opened FinanceLaws
  import opened ApprovalOps
  import opened ApprovalLaws
  import opened CollectionOps
  import opened CollectionLaws
  import opened System
  import opened SystemLaws

  // ----- Accounts ------------------------------------------------------------------------------

  /** The call may make account a active again. */
  predicate Activates(op: Op, a: Id, account: Account) {
    && op.Finance?
    && match op.finance
       case UpdateAccount(_, b, active) => b == a && active == Some(true)
       case EnsureMainAccount(rt, _) => rt == account.rt && account.key == MAIN
       case _ => false
  }

  /** Account a is inactive, with the balance, version and ledger rows it had. */
  ghost predicate Silent(db: Db, after: Db, a: Id)
    requires a in db.accounts
  {
    && a in after.accounts && !after.accounts[a].isActive
    && after.accounts[a].rt == db.accounts[a].rt && after.accounts[a].key == db.accounts[a].key
    && after.accounts[a].currentBalance == db.accounts[a].currentBalance
    && after.accounts[a].version == db.accounts[a].version
    && RowsOf(after.ledger, a) == RowsOf(db.ledger, a)
  }

  lemma UpdateSilent(db: Db, rt: Id, b: Id, active: Option<bool>, a: Id)
    requires a in db.accounts && !db.accounts[a].isActive && !(b == a && active == Some(true))
    ensures Silent(db, AccountStep(db, UpdateAccount(rt, b, active)).db, a)
  {
  }

  lemma BootstrapSilent(db: Db, rt: Id, newId: Id, a: Id)
    requires a in db.accounts && !db.accounts[a].isActive && !(rt == db.accounts[a].rt && db.accounts[a].key == MAIN)
    ensures Silent(db, AccountStep(db, EnsureMainAccount(rt, newId)).db, a)
  {
    assert a !in AccountsWithKey(db.accounts, rt, MAIN);
  }

  lemma ArchiveSilent(db: Db, rt: Id, b: Id, a: Id)
    requires a in db.accounts && !db.accounts[a].isActive
    ensures Silent(db, AccountStep(db, ArchiveAccount(rt, b)).db, a)
  {
  }

  lemma AccountStepSilent(db: Db, op: FinanceOp, a: Id)
    requires OnAccounts(op) && a in db.accounts && !db.accounts[a].isActive
    requires !Activates(Finance(op), a, db.accounts[a])
    ensures Silent(db, AccountStep(db, op).db, a)
  {
    match op
    case UpdateAccount(rt, b, active) => UpdateSilent(db, rt, b, active, a);
    case EnsureMainAccount(rt, newId) => BootstrapSilent(db, rt, newId, a);
    case ArchiveAccount(rt, b) => ArchiveSilent(db, rt, b, a);
    case CreateAccount(_, _, _) =>
    case SetCategories(_) =>
  }

  lemma BookedSilent(db: Db, rt: Id, from: Choice, under: Choice, t: Id, x: Txn, key: Option<string>, a: Id)
    requires a in db.accounts && !db.accounts[a].isActive && (from.Created? ==> from.id !in db.accounts)
    requires ActiveAccount(WithAccount(db, rt, from).accounts, x.rt, x.what.account)
    ensures Silent(db, Booked(WithCategory(WithAccount(db, rt, from), rt, under), t, x, key), a)
  {
    var ready := WithCategory(WithAccount(db, rt, from), rt, under);
    assert x.what.account != a;
    RowsAppend(db.ledger, NextRow(ready.ledger, t, x), a);
  }

  lemma WriteSilent(db: Db, w: Write, a: Id)
    requires Allowed(db, w) && !w.PutAccount? && a in db.accounts && !db.accounts[a].isActive
    ensures Silent(db, Applied(db, w), a)
  {
    match w
    case Book(rt, from, under, t, x, key) => BookedSilent(db, rt, from, under, t, x, key, a);
    case _ =>
  }

  lemma FinanceSilent(db: Db, op: FinanceOp, a: Id)
    requires a in db.accounts && !db.accounts[a].isActive && !Activates(Finance(op), a, db.accounts[a])
    ensures Silent(db, FinanceStep(db, op).db, a)
  {
    if OnAccounts(op) {
      AccountStepSilent(db, op, a);
    } else {
      var w := FinanceStepWrites(db, op);
      WriteSilent(db, w, a);
    }
  }

  lemma StepSilent(db: Db, op: Op, a: Id)
    requires ApprovalsSound(db.approvals, db.txns) && SessionsSound(db.collections) && RoutesExclusive(db.collections)
    requires a in db.accounts && !db.accounts[a].isActive && !Activates(op, a, db.accounts[a])
    ensures Silent(db, Step(db, op).db, a)
  {
    match op
    case Finance(f) => FinanceSilent(db, f, a);
    case Approve(p) => ApprovalStepKeeps(db, p);
    case Collect(c) => CollectionStepKeeps(db, c);
    case SetMaster(_) =>
  }

  ghost predicate NeverActivates(ops: seq<Op>, a: Id, account: Account) {
    forall i :: 0 <= i < |ops| ==> !Activates(ops[i], a, account)
  }

  /**
   A deactivated account is out of the books: until a call activates it again, no run appends a row
   to it or moves its balance, whatever is validated, posted or collected meanwhile.
   */
  lemma {:induction false} InactiveIsSilent(db: Db, ops: seq<Op>, a: Id)
    requires Sound(db) && a in db.accounts && !db.accounts[a].isActive && NeverActivates(ops, a, db.accounts[a])
    ensures Silent(db, Run(db, ops), a)
    decreases |ops|
  {
    if ops != [] {
      var next := Step(db, ops[0]).db;
      StepSilent(db, ops[0], a);
      StepKeeps(db, ops[0]);
      NeverActivatesRest(ops, a, db.accounts[a], next.accounts[a]);
      InactiveIsSilent(next, ops[1..], a);
    }
  }

  lemma NeverActivatesRest(ops: seq<Op>, a: Id, account: Account, later: Account)
    requires ops != [] && NeverActivates(ops, a, account) && later.rt == account.rt && later.key == account.key
    ensures NeverActivates(ops[1..], a, later)
  {
    forall i | 0 <= i < |ops[1..]| ensures !Activates(ops[1..][i], a, later) {
      assert !Activates(ops[i + 1], a, account);
    }
  }

  /** Activating again undoes a deactivation, and posting from a deactivated account is refused. */
  lemma DeactivationUndone(db: Db, rt: Id, a: Id)
    requires LiveAccount(db.accounts, rt, a)
    ensures var off := AccountStep(db, UpdateAccount(rt, a, Some(false))).db;
            && !off.accounts[a].isActive
            && AccountStep(off, UpdateAccount(rt, a, Some(db.accounts[a].isActive))).db == db
            && forall t, key :: TxnOf(off.txns, rt, t) && off.txns[t].status == TxnStatus.Validated && off.txns[t].what.account == a ==>
                 PostTxnStep(off, rt, t, key).reply == Refused(InactiveAccount)
  {
    var off := AccountStep(db, UpdateAccount(rt, a, Some(false))).db;
    assert off.accounts[a := off.accounts[a].(isActive := db.accounts[a].isActive)] == db.accounts;
  }

  lemma UsedByRows(ledger: seq<LedgerRow>, accounts: map<Id, Account>, rt: Id, a: Id)
    requires Books(accounts, ledger) && a in accounts && accounts[a].rt == rt
    ensures AccountUsed(ledger, rt, a) <==> RowsOf(ledger, a) != []
  {
    RowsBelong(ledger, a);
  }

  /**
   Archiving deletes an account exactly if nothing was ever booked on it, which its version tells;
   the tenant's live money stays what it was.
   */
  lemma ArchiveDeletesUnused(db: Db, rt: Id, a: Id)
    requires Reachable(db) && LiveAccount(db.accounts, rt, a)
    ensures var after := AccountStep(db, ArchiveAccount(rt, a)).db;
            && after.accounts[a] == db.accounts[a].(isActive := false, deleted := db.accounts[a].version == 1)
            && MapSum(LiveBalances(after.accounts, rt)) == MapSum(LiveBalances(db.accounts, rt))
  {
    var after := AccountStep(db, ArchiveAccount(rt, a)).db;
    ReachableSound(db);
    UsedByRows(db.ledger, db.accounts, rt, a);
    assert AccountMatches(db.accounts[a], RowsOf(db.ledger, a));
    FinanceKeeps(db, ArchiveAccount(rt, a));
    LiveHoldAll(db.accounts, db.ledger, rt);
    LiveHoldAll(after.accounts, after.ledger, rt);
    assert ConservedIn(db.accounts, db.txns, rt) && ConservedIn(after.accounts, after.txns, rt);
  }

  // ----- Transactions --------------------------------------------------------------------------

  /** Validating, rejecting and voiding: from where and to where they move a transaction. */
  predicate IsMove(from: set<TxnStatus>, to: TxnStatus) {
    || (from == {TxnStatus.Draft} && to == TxnStatus.Validated)
    || (from == {TxnStatus.Draft, TxnStatus.Validated} && to == TxnStatus.Rejected)
    || (from == {TxnStatus.Draft} && to == TxnStatus.Voided)
  }

  /** A move that succeeded is refused ever after, whatever happened in between, and changes nothing then. */
  lemma MovesOnce(db: Db, rt: Id, t: Id, from: set<TxnStatus>, to: TxnStatus, ops: seq<Op>)
    requires Sound(db) && IsMove(from, to) && MoveStep(db, rt, t, from, to).reply == Done(t)
    ensures var later := Run(MoveStep(db, rt, t, from, to).db, ops);
            MoveStep(later, rt, t, from, to) == Outcome(later, Refused(WrongStatus))
  {
    var after := MoveStep(db, rt, t, from, to).db;
    MovedSound(db, rt, t, from, to);
    RunKeeps(after, ops);
    MovedPast(after.txns, Run(after, ops).txns, t, from, to);
    RefusedMove(Run(after, ops), rt, t, from, to);
  }

  lemma MovedSound(db: Db, rt: Id, t: Id, from: set<TxnStatus>, to: TxnStatus)
    requires Sound(db) && IsMove(from, to) && MoveStep(db, rt, t, from, to).reply == Done(t)
    ensures var after := MoveStep(db, rt, t, from, to).db;
            Sound(after) && TxnOf(after.txns, rt, t) && after.txns[t].status == to
  {
    var w := MoveWrites(db, rt, t, from, to);
    WriteSound(db, MoveStep(db, rt, t, from, to).db, w);
  }

  lemma MovedPast(txns: map<Id, Txn>, later: map<Id, Txn>, t: Id, from: set<TxnStatus>, to: TxnStatus)
    requires TxnsEvolve(txns, later) && IsMove(from, to) && t in txns && txns[t].status == to
    ensures t in later && later[t].rt == txns[t].rt && later[t].status !in from
  {
    assert TxnEvolves(txns[t], later[t]);
  }

  lemma RefusedMove(db: Db, rt: Id, t: Id, from: set<TxnStatus>, to: TxnStatus)
    requires TxnOf(db.txns, rt, t) && db.txns[t].status !in from
    ensures MoveStep(db, rt, t, from, to) == Outcome(db, Refused(WrongStatus))
  {
  }

  // ----- Approvals -----------------------------------------------------------------------------

  /**
   An accepted policy is what both modules read back from then on, with the number of approvals at
   least one; no other tenant's policy changes. A refused one changes nothing.
   */
  lemma PolicyTakesEffect(db: Db, rt: Id, policy: ApprovalPolicy, other: Id)
    requires Lawful(db.platform)
    ensures var step := UpdatePolicyStep(db, rt, policy);
            && (step.reply == Done(rt) <==> AcceptablePolicy(policy))
            && (step.reply.Done? ==>
                  && PolicyOf(step.db, rt) == policy.(expiresInDays := if policy.expiresInDays > 0.0 then policy.expiresInDays else 7.0)
                  && GatePolicyOf(SettingOf(step.db, rt)) == GatePolicy(policy.threshold, policy.autoApprove, policy.required))
            && (other != rt ==> PolicyOf(step.db, other) == PolicyOf(db, other))
            && (!step.reply.Done? ==> step.db == db)
  {
    if AcceptablePolicy(policy) {
      var normalized := Normalize(db.platform, Some(ToJson(policy)));
      ReadBack(db.platform, policy);
      ReadBack(db.platform, normalized);
      GateReadsBack(normalized);
    }
  }

  lemma GateReadsBack(policy: ApprovalPolicy)
    requires policy.required >= 1
    ensures GatePolicyOf(Some(ToJson(policy))) == GatePolicy(policy.threshold, policy.autoApprove, policy.required)
  {
  }

  /** A member acting for itself. */
  function Acting(db: Db, m: Id): Actor
    requires m in db.master.members
  {
    Actor(db.master.members[m].user, m, db.master.members[m].rt, false)
  }

  /**
   The members a request asks are exactly those who can decide afterwards: under the same policy a
   member's own decision on its row is admitted if and only if it was found eligible.
   */
  lemma RequestedCanDecide(db: Db, actor: Actor, t: Id, request: ApprovalRequest, m: Id)
    requires ApprovalsSound(db.approvals, db.txns) && RequestAnswer(db, actor, t, request) == Done(t)
    requires m in db.master.members && db.master.members[m].rt == actor.rt
    ensures t in db.txns
    ensures DecideRefusal(RequestStep(db, actor, t, request).db, Acting(db, m), (t, m), request.seen) == None
       <==> m in Approvers(db, actor, t, request.seen)
  {
    RequestGuards(db, actor, t, request);
    NoRowYet(db.approvals, t, m);
  }

  lemma NoRowYet(approvals: map<ApprovalId, Approval>, t: Id, m: Id)
    requires Rows(approvals, t) == {}
    ensures (t, m) !in approvals
  {
    assert (t, m) in approvals ==> m in Rows(approvals, t);
  }

  /** A cancelled approval leaves play, alone, and can be neither given nor rejected nor cancelled ever after. */
  lemma CancelledStays(db: Db, actor: Actor, a: ApprovalId, ops: seq<Op>, decider: Actor, approve: bool, seen: ApprovalPolicy)
    requires Sound(db) && CancelStep(db, actor, a).reply.Done? && decider.rt == actor.rt
    ensures var after := CancelStep(db, actor, a).db;
            var later := Run(after, ops);
            && InPlay(after.approvals, a.0) == InPlay(db.approvals, a.0) - {a.1}
            && DecideStep(later, decider, a, approve, seen) == Outcome(later, Refused(WrongStatus))
            && CancelStep(later, decider, a) == Outcome(later, Refused(WrongStatus))
  {
    var after := CancelStep(db, actor, a).db;
    CancelLeavesPlay(db, actor, a);
    CancelledSound(db, actor, a);
    RunKeeps(after, ops);
    NotPendingRefused(Run(after, ops), decider, a, approve, seen);
  }

  lemma CancelLeavesPlay(db: Db, actor: Actor, a: ApprovalId)
    requires CancelStep(db, actor, a).reply.Done?
    ensures InPlay(CancelStep(db, actor, a).db.approvals, a.0) == InPlay(db.approvals, a.0) - {a.1}
  {
    var before, after := db.approvals, CancelStep(db, actor, a).db.approvals;
    forall m ensures m in InPlay(after, a.0) <==> m in InPlay(before, a.0) && m != a.1 {
      MemberOfWith(before, a.0, Approved, m);
      MemberOfWith(before, a.0, Pending, m);
      MemberOfWith(after, a.0, Approved, m);
      MemberOfWith(after, a.0, Pending, m);
      assert m == a.1 ==> (a.0, m) == a;
    }
  }

  lemma CancelledSound(db: Db, actor: Actor, a: ApprovalId)
    requires Sound(db) && CancelStep(db, actor, a).reply.Done?
    ensures var after := CancelStep(db, actor, a).db;
            Sound(after) && ApprovalOf(after.approvals, actor.rt, a) && after.approvals[a].status == ApprovalStatus.Cancelled
  {
    CancelKeeps(db, actor, a);
    ApprovalStepSound(db, CancelStep(db, actor, a).db);
    ShapeKeepsSources(db, CancelStep(db, actor, a).db);
  }

  lemma NotPendingRefused(db: Db, actor: Actor, a: ApprovalId, approve: bool, seen: ApprovalPolicy)
    requires ApprovalOf(db.approvals, actor.rt, a) && db.approvals[a].status != Pending && a.0 in db.txns
    ensures DecideStep(db, actor, a, approve, seen) == Outcome(db, Refused(WrongStatus))
    ensures CancelStep(db, actor, a) == Outcome(db, Refused(WrongStatus))
  {
  }

  // ----- Collections ---------------------------------------------------------------------------

  /**
   A created session is the only active one on its route and date; while it is, a second one is
   refused there, whoever asks for it with whatever mode and total are admitted.
   */
  lemma CreatedIsAlone(db: Db, actor: Actor, c: Id, cmd: CreateCommand, another: Actor, d: Id, again: CreateCommand)
    requires CreateStep(db, actor, c, cmd).reply == Done(c)
    requires another.rt == actor.rt && again.date == cmd.date && again.area == cmd.area
    ensures var after := CreateStep(db, actor, c, cmd).db;
            && c !in db.collections && after == db.(collections := db.collections[c := after.collections[c]])
            && Duplicates(after.collections, actor.rt, cmd.date, cmd.area, None) == {c}
            && CreateStep(after, another, d, again).reply
               in {Refused(BadAmount), Refused(WrongMode), Refused(InactiveMember), Refused(DuplicateRoute)}
            && (ModeInputRefusal(again.mode.GetOr(PerHouse), again.total) == None && OfficerAssignable(db, actor.rt, again.officer)
                ==> CreateStep(after, another, d, again).reply == Refused(DuplicateRoute))
  {
    var after := CreateStep(db, actor, c, cmd).db;
    forall e | e in Duplicates(after.collections, actor.rt, cmd.date, cmd.area, None) ensures e == c {
      assert e != c ==> e in Duplicates(db.collections, actor.rt, cmd.date, cmd.area, None);
    }
    assert c in Duplicates(after.collections, actor.rt, cmd.date, cmd.area, None);
  }

  /** A cancelled session stays as it is in every run, and never again stands in the way of its route. */
  lemma CancelledForever(db: Db, actor: Actor, c: Id, ops: seq<Op>, but: Option<Id>)
    requires Sound(db) && CancelCollectionStep(db, actor, c).reply.Done?
    ensures var later := Run(CancelCollectionStep(db, actor, c).db, ops);
            && c in db.collections && c in later.collections
            && later.collections[c] == db.collections[c].(status := CollectionStatus.Cancelled)
            && c !in Duplicates(later.collections, db.collections[c].rt, db.collections[c].date, db.collections[c].area, but)
  {
    var after := CancelCollectionStep(db, actor, c).db;
    CancelledSession(db, actor, c);
    RunKeeps(after, ops);
    CancelledRow(after.collections, Run(after, ops).collections, c);
  }

  lemma CancelledSession(db: Db, actor: Actor, c: Id)
    requires Sound(db) && CancelCollectionStep(db, actor, c).reply.Done?
    ensures var after := CancelCollectionStep(db, actor, c).db;
            && Sound(after) && c in db.collections && c in after.collections
            && after.collections[c] == db.collections[c].(status := CollectionStatus.Cancelled)
  {
    CancelWrites(db, actor, c);
    WrittenKeeps(db, CancelCollectionStep(db, actor, c), c);
    SourcesSurviveSessions(db.txns, db.collections, CancelCollectionStep(db, actor, c).db.collections);
  }

  lemma CancelledRow(collections: map<Id, Collection>, later: map<Id, Collection>, c: Id)
    requires SessionsEvolve(collections, later) && c in collections && collections[c].status == CollectionStatus.Cancelled
    ensures c in later && later[c] == collections[c]
  {
    assert SessionEvolves(collections[c], later[c]);
  }

  /**
   A rejected session can be submitted again as it is, by its officer or a validator, and stores the
   total it was rejected with.
   */
  lemma RejectReopens(db: Db, actor: Actor, c: Id, officer: Actor)
    requires SessionsSound(db.collections) && RejectStep(db, actor, c).reply.Done?
    requires officer.rt == actor.rt && MayMutate(officer, db.collections[c])
    ensures var rejected := RejectStep(db, actor, c).db;
            SubmitStep(rejected, officer, c, None)
            == Put(db, c, db.collections[c].(wasRejected := true))
  {
    var row := db.collections[c];
    var rejected := RejectStep(db, actor, c).db;
    SettledReady(row);
    assert rejected.collections[c := row.(wasRejected := true)] == db.collections[c := row.(wasRejected := true)];
  }

  lemma SettledReady(c: Collection)
    requires SessionSound(c) && c.status == Submitted
    ensures SubmissionReady(c.mode, c.total, |c.items|) && SubmittedTotal(c) == c.total
  {
  }

  /**
   A whole total entered for a session, submitted and validated without further edits, is what its
   posting books: the transaction, its ledger row and the session carry the same amount.
   */
  lemma BulkTotalReachesLedger(
    db: Db, officer: Actor, c: Id, total: int, request: Option<string>, validator: Actor,
    post: PostCollectionCommand, ids: NewIds, t: Id, entered: Db, submitted: Db, validated: Db, posted: Db)
    requires SetBulkStep(db, officer, c, total) == Outcome(entered, Done(c))
    requires SubmitStep(entered, officer, c, request) == Outcome(submitted, Done(c))
    requires ValidateStep(submitted, validator, c) == Outcome(validated, Done(c))
    requires post.collection == c && PostCollectionStep(validated, validator, post, ids) == Outcome(posted, Done(t))
    ensures c in posted.collections && posted.collections[c].total == total
    ensures t in posted.txns && posted.txns[t].what.amount == total && posted.txns[t].what.source == Some(c)
    ensures posted.ledger != [] && posted.ledger[|posted.ledger| - 1].txn == t && posted.ledger[|posted.ledger| - 1].amount == total
  {
    BulkKept(db, officer, c, total, request, validator, entered, submitted, validated);
    PostedAmount(validated, validator, post, ids, t);
  }

  lemma BulkKept(
    db: Db, officer: Actor, c: Id, total: int, request: Option<string>, validator: Actor,
    entered: Db, submitted: Db, validated: Db)
    requires SetBulkStep(db, officer, c, total) == Outcome(entered, Done(c))
    requires SubmitStep(entered, officer, c, request) == Outcome(submitted, Done(c))
    requires ValidateStep(submitted, validator, c) == Outcome(validated, Done(c))
    ensures c in validated.collections && validated.collections[c].total == total
    ensures PostingAmount(validated.collections[c]) == Some(total)
  {
  }

  lemma DoneMeansBooked(db: Db, actor: Actor, post: PostCollectionCommand, ids: NewIds)
    requires post.collection in db.collections && PostingAmount(db.collections[post.collection]).Some?
    requires PostCollectionStep(db, actor, post, ids).reply.Done?
    ensures PostCollectionStep(db, actor, post, ids) == BookCollection(db, actor, post, ids)
  {
  }

  lemma PostedAmount(db: Db, actor: Actor, post: PostCollectionCommand, ids: NewIds, t: Id)
    requires post.collection in db.collections && PostingAmount(db.collections[post.collection]).Some?
    requires PostCollectionStep(db, actor, post, ids).reply == Done(t)
    ensures var posted := PostCollectionStep(db, actor, post, ids).db;
            && posted.collections == db.collections
            && t in posted.txns && Some(posted.txns[t].what.amount) == PostingAmount(db.collections[post.collection])
            && posted.txns[t].what.source == Some(post.collection)
            && posted.ledger != [] && posted.ledger[|posted.ledger| - 1].txn == t
            && posted.ledger[|posted.ledger| - 1].amount == posted.txns[t].what.amount
  {
    DoneMeansBooked(db, actor, post, ids);
    BookedAmount(db, actor, post, ids, t);
  }

  lemma BookedAmount(db: Db, actor: Actor, post: PostCollectionCommand, ids: NewIds, t: Id)
    requires post.collection in db.collections && PostingAmount(db.collections[post.collection]).Some?
    requires BookCollection(db, actor, post, ids).reply == Done(t)
    ensures var posted := BookCollection(db, actor, post, ids).db;
            && posted.collections == db.collections
            && t in posted.txns && Some(posted.txns[t].what.amount) == PostingAmount(db.collections[post.collection])
            && posted.txns[t].what.source == Some(post.collection)
            && posted.ledger != [] && posted.ledger[|posted.ledger| - 1].txn == t
            && posted.ledger[|posted.ledger| - 1].amount == posted.txns[t].what.amount
  {
  }

  // ----- How a session became validated ---------------------------------------------------------

  /** Call k of the run validated session c, which was submitted with exactly its present content. */
  ghost predicate ValidatedBy(start: Db, ops: seq<Op>, k: nat, c: Id, row: Collection) {
    && k < |ops|
    && ops[k].Collect? && ops[k].collect.ValidateCollection? && ops[k].collect.collection == c
    && var before := Run(start, ops[..k]);
       c in before.collections && before.collections[c] == row.(status := Submitted)
  }

  lemma NewlyValidated(db: Db, op: Op, c: Id)
    requires Sound(db) && c in Step(db, op).db.collections
    requires Step(db, op).db.collections[c].status == CollectionStatus.Validated
    ensures c in db.collections
    ensures db.collections[c] == Step(db, op).db.collections[c]
         || (op.Collect? && op.collect.ValidateCollection? && op.collect.collection == c
             && db.collections[c] == Step(db, op).db.collections[c].(status := Submitted))
  {
    match op
    case Finance(f) =>
      var w := FinanceStepWrites(db, f);
      AppliedFrame(db, w);
    case Approve(p) => ApprovalStepKeeps(db, p);
    case Collect(call) => CollectionValidated(db, call, c);
    case SetMaster(_) =>
  }

  lemma CollectionValidated(db: Db, op: CollectionOp, c: Id)
    requires c in CollectionStep(db, op).db.collections
    requires CollectionStep(db, op).db.collections[c].status == CollectionStatus.Validated
    ensures c in db.collections
    ensures db.collections[c] == CollectionStep(db, op).db.collections[c]
         || (op.ValidateCollection? && op.collection == c
             && db.collections[c] == CollectionStep(db, op).db.collections[c].(status := Submitted))
  {
  }

  /**
   Behind every validated session of a run that began without it there is one validating call, made
   when the session was submitted with the officer, date, route, mode, total and items it has now.
   */
  lemma {:induction false} ValidatedFromSubmitted(start: Db, ops: seq<Op>, c: Id) returns (k: nat)
    requires Sound(start) && c !in start.collections && c in Run(start, ops).collections
    requires Run(start, ops).collections[c].status == CollectionStatus.Validated
    ensures ValidatedBy(start, ops, k, c, Run(start, ops).collections[c])
    decreases |ops|
  {
    var n := |ops| - 1;
    var front, last := ops[..n], ops[n];
    var before := Run(start, front);
    assert ops == front + [last];
    RunAppend(start, front, [last]);
    OneStep(before, last);
    RunKeeps(start, front);
    NewlyValidated(before, last, c);
    if before.collections[c] == Run(start, ops).collections[c] {
      k := ValidatedFromSubmitted(start, front, c);
      assert front[..k] == ops[..k];
    } else {
      k := n;
    }
  }
}
