/**
 Approval calls in terms of the tables alone: who is asked, who may decide, what each answer means, and
 who stands behind the approvals of a transaction in the end.
 */
module ApprovalEffects {
  import opened Prelude
  import opened Tables
  import opened Policy
  import opened FinanceOps
  import opened FinanceLaws
  import opened ApprovalOps
  import opened ApprovalLaws
  import opened CollectionOps
  import opened CollectionLaws
  import opened System
  import opened SystemLaws
  import opened Theorems
  import opened FinanceEffects

  // ----- Policy --------------------------------------------------------------------------------

  /** Decimal digits, of this many places. */
  predicate Places(s: string, most: nat) {
    1 <= |s| <= most && forall c :: c in s ==> '0' <= c <= '9'
  }

  /** An amount of money as text: up to twelve digits, and after a point one or two more. */
  ghost predicate MoneyText(s: string) {
    Places(s, 12) || exists whole, cents :: Places(whole, 12) && Places(cents, 2) && s == whole + "." + cents
  }

  lemma DigitsOf(s: string)
    ensures Digits(s) <==> forall c :: c in s ==> '0' <= c <= '9'
  {
    assert forall i :: 0 <= i < |s| ==> s[i] in s;
  }

  lemma PointGives(s: string, point: nat)
    requires PointedAt(s, point)
    ensures MoneyText(s)
  {
    DigitsOf(s[..point]);
    DigitsOf(s[point + 1..]);
    assert Places(s[..point], 12) && Places(s[point + 1..], 2);
    assert s == s[..point] + "." + s[point + 1..];
  }

  lemma PartsGive(whole: string, cents: string)
    requires Places(whole, 12) && Places(cents, 2)
    ensures PointedAt(whole + "." + cents, |whole|)
  {
    var s := whole + "." + cents;
    assert s[..|whole|] == whole && s[|whole| + 1..] == cents && s[|whole|] == '.';
    DigitsOf(whole);
    DigitsOf(cents);
  }

  lemma CashTextIsMoney(s: string)
    ensures CashText(s) <==> MoneyText(s)
  {
    DigitsOf(s);
    if point: nat :| PointedAt(s, point) {
      PointGives(s, point);
    } else if whole, cents :| Places(whole, 12) && Places(cents, 2) && s == whole + "." + cents {
      PartsGive(whole, cents);
    }
  }

  /** A policy is accepted exactly with a threshold that is money, at least one approval and at least one role. */
  lemma PolicyAccepted(db: Db, rt: Id, policy: ApprovalPolicy)
    ensures UpdatePolicyStep(db, rt, policy).reply
         == if MoneyText(policy.threshold) && policy.required >= 1 && |policy.roles| >= 1 then Done(rt) else Refused(BadPolicy)
    ensures var after := UpdatePolicyStep(db, rt, policy).db;
            after == db.(settings := after.settings) && after.settings - {rt} == db.settings - {rt}
  {
    CashTextIsMoney(policy.threshold);
  }

  // ----- Requests ------------------------------------------------------------------------------

  /** The membership has one of the roles the policy names. */
  predicate InRole(member: Member, policy: ApprovalPolicy) {
    exists role :: role in policy.roles && role in member.roles
  }

  lemma RoleOf(member: Member, policy: ApprovalPolicy)
    ensures HasRole(member, policy) <==> InRole(member, policy)
  {
  }

  /** Who may be asked for a request of `requester` on a transaction entered by `author`. */
  predicate MayApprove(db: Db, rt: Id, m: Id, requester: Id, author: Id, policy: ApprovalPolicy) {
    && m in db.master.members
    && var member := db.master.members[m];
       && member.rt == rt && member.active && InRole(member, policy)
       && (policy.preventSelf ==> member.user != requester && member.user != author)
  }

  lemma WhoIsEligible(db: Db, rt: Id, requester: Id, author: Id, policy: ApprovalPolicy, m: Id)
    ensures m in Eligible(db, rt, requester, author, policy) <==> MayApprove(db, rt, m, requester, author, policy)
  {
    if m in db.master.members { RoleOf(db.master.members[m], policy); }
  }

  /** The transaction can be asked about: a validated expense that its policy does not approve by itself. */
  ghost predicate Askable(db: Db, rt: Id, t: Id, policy: ApprovalPolicy) {
    && t in db.txns && db.txns[t].rt == rt && db.txns[t].what.kind == Expense && db.txns[t].status == TxnStatus.Validated
    && (policy.autoApprove ==> db.platform.atMost(db.txns[t].what.amount, policy.threshold) == Some(false))
  }

  ghost predicate NeverAsked(db: Db, t: Id) {
    forall k :: k in db.approvals ==> k.0 != t
  }

  /** A stored row of the tenant has the key one of the new rows would get. */
  ghost predicate RequestKeyUsed(db: Db, actor: Actor, t: Id, request: ApprovalRequest)
    requires t in db.txns
  {
    && request.key.Some? && request.key.value != ""
    && exists k, m :: && k in db.approvals && db.approvals[k].rt == actor.rt
                      && MayApprove(db, actor.rt, m, actor.user, db.txns[t].createdBy, request.seen)
                      && db.approvals[k].key == Some(request.key.value + ":" + DecimalText(m))
  }

  lemma AskedBefore(db: Db, t: Id)
    ensures Rows(db.approvals, t) == {} <==> NeverAsked(db, t)
  {
    if k :| k in db.approvals && k.0 == t {
      assert k.1 in Rows(db.approvals, t);
    }
  }

  lemma KeyUsed(db: Db, actor: Actor, t: Id, request: ApprovalRequest)
    requires t in db.txns
    ensures RowKeyTaken(db.approvals, actor.rt, request.key, Approvers(db, actor, t, request.seen)) <==> RequestKeyUsed(db, actor, t, request)
  {
    var approvers := Approvers(db, actor, t, request.seen);
    forall m ensures m in approvers <==> MayApprove(db, actor.rt, m, actor.user, db.txns[t].createdBy, request.seen) {
      WhoIsEligible(db, actor.rt, actor.user, db.txns[t].createdBy, request.seen, m);
    }
    if RequestKeyUsed(db, actor, t, request) {
      var k, m :| && k in db.approvals && db.approvals[k].rt == actor.rt
                  && MayApprove(db, actor.rt, m, actor.user, db.txns[t].createdBy, request.seen)
                  && db.approvals[k].key == Some(request.key.value + ":" + DecimalText(m));
      assert db.approvals[k].key == RowKey(request.key, m);
    }
  }

  /** The members that may be asked. */
  ghost function MayBeAsked(db: Db, actor: Actor, t: Id, policy: ApprovalPolicy): set<Id>
    requires t in db.txns
  {
    set m | m in db.master.members && MayApprove(db, actor.rt, m, actor.user, db.txns[t].createdBy, policy)
  }

  lemma AskedAreEligible(db: Db, actor: Actor, t: Id, policy: ApprovalPolicy)
    requires t in db.txns
    ensures Approvers(db, actor, t, policy) == MayBeAsked(db, actor, t, policy)
  {
    forall m ensures m in Approvers(db, actor, t, policy) <==> m in MayBeAsked(db, actor, t, policy) {
      WhoIsEligible(db, actor.rt, actor.user, db.txns[t].createdBy, policy, m);
    }
  }

  /**
   Rows are created exactly for an askable transaction never asked about, when as many members may
   approve as the policy requires and the request's key is not in use.
   */
  lemma RequestExact(db: Db, actor: Actor, t: Id, request: ApprovalRequest)
    ensures var reply := RequestStep(db, actor, t, request).reply;
            && (reply == Done(t) <==>
                  && Askable(db, actor.rt, t, request.seen) && NeverAsked(db, t)
                  && |MayBeAsked(db, actor, t, request.seen)| >= request.seen.required
                  && !RequestKeyUsed(db, actor, t, request))
            && (reply == NotRequired <==>
                  && t in db.txns && db.txns[t].rt == actor.rt && db.txns[t].what.kind == Expense && db.txns[t].status == TxnStatus.Validated
                  && request.seen.autoApprove
                  && db.platform.atMost(db.txns[t].what.amount, request.seen.threshold) == Some(true))
            && (reply == Refused(NotEnoughApprovers) <==>
                  && Askable(db, actor.rt, t, request.seen) && NeverAsked(db, t)
                  && |MayBeAsked(db, actor, t, request.seen)| < request.seen.required)
            && (reply == Refused(NotFound) <==> !(t in db.txns && db.txns[t].rt == actor.rt))
            && (reply == Refused(WrongKind) <==> t in db.txns && db.txns[t].rt == actor.rt && db.txns[t].what.kind != Expense)
            && (reply == Refused(WrongStatus) <==>
                  && t in db.txns && db.txns[t].rt == actor.rt
                  && db.txns[t].what.kind == Expense && db.txns[t].status != TxnStatus.Validated)
            && (reply == Refused(MalformedThreshold) <==>
                  && t in db.txns && db.txns[t].rt == actor.rt && db.txns[t].what.kind == Expense && db.txns[t].status == TxnStatus.Validated
                  && request.seen.autoApprove && db.platform.atMost(db.txns[t].what.amount, request.seen.threshold) == None)
            && (reply == Replayed(t) <==>
                  && Askable(db, actor.rt, t, request.seen)
                  && (NeverAsked(db, t) ==> |MayBeAsked(db, actor, t, request.seen)| >= request.seen.required
                                            && RequestKeyUsed(db, actor, t, request)))
            && (reply != Done(t) ==> RequestStep(db, actor, t, request).db == db)
  {
    RequestGuards(db, actor, t, request);
    AskedBefore(db, t);
    if t in db.txns {
      KeyUsed(db, actor, t, request);
      AskedAreEligible(db, actor, t, request.seen);
    }
  }

  /** Each member that may approve gets one pending row, asked by the actor, under a key of its own; other rows stay. */
  lemma RequestEffect(db: Db, actor: Actor, t: Id, request: ApprovalRequest, m: Id)
    requires RequestStep(db, actor, t, request).reply == Done(t)
    ensures t in db.txns
    ensures var after := RequestStep(db, actor, t, request).db;
            && after == db.(approvals := after.approvals)
            && ((t, m) in after.approvals <==> MayApprove(db, actor.rt, m, actor.user, db.txns[t].createdBy, request.seen))
            && ((t, m) in after.approvals ==>
                  after.approvals[(t, m)] == Approval(actor.rt, actor.user, None,
                    if request.key.Some? && request.key.value != "" then Some(request.key.value + ":" + DecimalText(m)) else None,
                    Pending, request.expiresAt))
            && forall k: ApprovalId :: k.0 != t ==>
                 && (k in after.approvals <==> k in db.approvals)
                 && (k in db.approvals ==> after.approvals[k] == db.approvals[k])
  {
    RequestGuards(db, actor, t, request);
    AskedBefore(db, t);
    WhoIsEligible(db, actor.rt, actor.user, db.txns[t].createdBy, request.seen, m);
  }

  /** Rows of one request never share a key. */
  lemma RowKeysDiffer(key: Option<string>, m: Id, n: Id)
    requires m != n && RowKey(key, m).Some?
    ensures RowKey(key, m) != RowKey(key, n)
  {
    if RowKey(key, m) == RowKey(key, n) {
      var prefix := key.value + ":";
      assert (prefix + DecimalText(m))[|prefix|..] == DecimalText(m);
      assert (prefix + DecimalText(n))[|prefix|..] == DecimalText(n);
      DecimalTextInjective(m, n);
      assert false;
    }
  }

  // ----- Decisions -----------------------------------------------------------------------------

  /** The asked member itself decides its pending row, still in office, and no party where the policy prevents it. */
  ghost predicate MayDecide(db: Db, actor: Actor, a: ApprovalId, policy: ApprovalPolicy) {
    && a in db.approvals && db.approvals[a].rt == actor.rt && db.approvals[a].status == Pending && a.0 in db.txns
    && actor.membership == a.1
    && (policy.preventSelf ==> actor.user != db.approvals[a].requestedBy && actor.user != db.txns[a.0].createdBy)
    && a.1 in db.master.members
    && var member := db.master.members[a.1];
       member.rt == actor.rt && member.active && InRole(member, policy)
  }

  ghost predicate StillValidated(db: Db, rt: Id, t: Id) {
    t in db.txns && db.txns[t].rt == rt && db.txns[t].status == TxnStatus.Validated
  }

  /** The row decided by the actor, and with a rejection its transaction rejected. */
  ghost function AfterDecision(db: Db, actor: Actor, a: ApprovalId, approve: bool): Db
    requires a in db.approvals && a.0 in db.txns
  {
    var row := db.approvals[a];
    var decided := Approval(row.rt, row.requestedBy, Some(actor.user), row.key,
                            if approve then Approved else ApprovalStatus.Rejected, row.expiresAt);
    db.(approvals := db.approvals[a := decided],
        txns := if approve then db.txns else db.txns[a.0 := db.txns[a.0].(status := TxnStatus.Rejected)])
  }

  /**
   A decision takes effect exactly when the actor may decide and, to reject, the transaction is still
   validated; then the row carries the decision and the decider, and nothing else changes but a
   rejected transaction's status. What stops it is told apart.
   */
  lemma DecisionExact(db: Db, actor: Actor, a: ApprovalId, approve: bool, policy: ApprovalPolicy)
    ensures var step := DecideStep(db, actor, a, approve, policy);
            && (step.reply.Done? <==> MayDecide(db, actor, a, policy) && (approve || StillValidated(db, actor.rt, a.0)))
            && (step.reply.Done? ==> step == Outcome(AfterDecision(db, actor, a, approve), Done(a.0)))
            && (!step.reply.Done? ==> step.db == db)
            && (step.reply == Refused(StateChanged) <==> MayDecide(db, actor, a, policy) && !approve && !StillValidated(db, actor.rt, a.0))
  {
    if a.1 in db.master.members { RoleOf(db.master.members[a.1], policy); }
  }

  /** The decision is made by a party the policy excludes. */
  predicate OwnCase(db: Db, actor: Actor, a: ApprovalId, policy: ApprovalPolicy)
    requires a in db.approvals && a.0 in db.txns
  {
    policy.preventSelf && (actor.user == db.approvals[a].requestedBy || actor.user == db.txns[a.0].createdBy)
  }

  ghost predicate InOffice(db: Db, rt: Id, m: Id, policy: ApprovalPolicy) {
    && m in db.master.members
    && db.master.members[m].rt == rt && db.master.members[m].active && InRole(db.master.members[m], policy)
  }

  /** The first thing that stops a decision is the answer. */
  lemma DecisionRefusals(db: Db, actor: Actor, a: ApprovalId, approve: bool, policy: ApprovalPolicy)
    ensures DecideStep(db, actor, a, approve, policy).reply
         == if !(a in db.approvals && db.approvals[a].rt == actor.rt && a.0 in db.txns) then Refused(NotFound)
            else if db.approvals[a].status != Pending then Refused(WrongStatus)
            else if actor.membership != a.1 then Refused(NotAssigned)
            else if OwnCase(db, actor, a, policy) then Refused(SelfApproval)
            else if !InOffice(db, actor.rt, a.1, policy) then Refused(InactiveMember)
            else if !approve && !StillValidated(db, actor.rt, a.0) then Refused(StateChanged)
            else Done(a.0)
  {
    if a.1 in db.master.members { RoleOf(db.master.members[a.1], policy); }
  }

  /** A pending row of the tenant, and only such a one, can be cancelled; the canceller is recorded. */
  lemma CancellationExact(db: Db, actor: Actor, a: ApprovalId)
    ensures var step := CancelStep(db, actor, a);
            if !(a in db.approvals && db.approvals[a].rt == actor.rt) then step == Outcome(db, Refused(NotFound))
            else if db.approvals[a].status != Pending then step == Outcome(db, Refused(WrongStatus))
            else
              var row := db.approvals[a];
              step == Outcome(db.(approvals := db.approvals[a :=
                Approval(row.rt, row.requestedBy, Some(actor.user), row.key, ApprovalStatus.Cancelled, row.expiresAt)]), Done(a.0))
  {
  }

  // ----- Who stands behind an approval -----------------------------------------------------------

  /** The call is the decision that row (t, m) carries, made by someone acting as membership m. */
  predicate IsDecision(op: Op, a: ApprovalId, row: Approval) {
    && op.Approve? && op.approval.Decide? && op.approval.approval == a
    && op.approval.actor.membership == a.1 && op.approval.actor.rt == row.rt
    && row.decisionBy == Some(op.approval.actor.user)
    && row.status == if op.approval.approve then Approved else ApprovalStatus.Rejected
  }

  /** Call k of the run is that decision, and was admitted in the state it found. */
  ghost predicate DecidedAt(start: Db, ops: seq<Op>, k: nat, a: ApprovalId, row: Approval) {
    && k < |ops| && IsDecision(ops[k], a, row)
    && MayDecide(Run(start, ops[..k]), ops[k].approval.actor, a, ops[k].approval.seen)
  }

  predicate IsGivenOrRejected(row: Approval) {
    row.status == Approved || row.status == ApprovalStatus.Rejected
  }

  lemma NewlyDecided(db: Db, op: Op, a: ApprovalId)
    requires Sound(db) && a in Step(db, op).db.approvals && IsGivenOrRejected(Step(db, op).db.approvals[a])
    ensures a in db.approvals
    ensures || db.approvals[a] == Step(db, op).db.approvals[a]
            || (IsDecision(op, a, Step(db, op).db.approvals[a]) && MayDecide(db, op.approval.actor, a, op.approval.seen))
  {
    match op
    case Finance(f) => FinanceLeavesApprovals(db, f);
    case Approve(p) => DecidedByApproval(db, p, a);
    case Collect(c) => CollectionStepKeeps(db, c);
    case SetMaster(_) =>
  }

  lemma DecidedByApproval(db: Db, p: ApprovalOp, a: ApprovalId)
    requires a in ApprovalStep(db, p).db.approvals && IsGivenOrRejected(ApprovalStep(db, p).db.approvals[a])
    ensures a in db.approvals
    ensures || db.approvals[a] == ApprovalStep(db, p).db.approvals[a]
            || (IsDecision(Approve(p), a, ApprovalStep(db, p).db.approvals[a]) && MayDecide(db, p.actor, a, p.seen))
  {
    match p
    case UpdatePolicy(_, _) =>
    case RequestApprovals(actor, t, request) => RequestedOrSame(db, actor, t, request);
    case Decide(actor, b, approve, seen) => DecisionExact(db, actor, b, approve, seen);
    case CancelApproval(actor, b) => CancellationExact(db, actor, b);
  }

  lemma DecidedLonger(start: Db, ops: seq<Op>, k: nat, a: ApprovalId, row: Approval)
    requires ops != [] && DecidedAt(start, ops[..|ops| - 1], k, a, row)
    ensures DecidedAt(start, ops, k, a, row)
  {
    var front := ops[..|ops| - 1];
    assert front[k] == ops[k] && front[..k] == ops[..k];
  }

  /**
   Behind every given or rejected approval of a run there is one decision call, made by somebody acting
   as the very membership that was asked, who was then allowed to, and whom the row names.
   */
  lemma {:induction false} DecidedByAsked(start: Db, ops: seq<Op>, a: ApprovalId) returns (k: nat)
    requires Sound(start) && a !in start.approvals
    requires a in Run(start, ops).approvals && IsGivenOrRejected(Run(start, ops).approvals[a])
    ensures DecidedAt(start, ops, k, a, Run(start, ops).approvals[a])
    decreases |ops|
  {
    var n := |ops| - 1;
    var front, last := ops[..n], ops[n];
    var before := LastCall(start, ops);
    NewlyDecided(before, last, a);
    if before.approvals[a] == Run(start, ops).approvals[a] {
      k := DecidedByAsked(start, front, a);
      DecidedLonger(start, ops, k, a, before.approvals[a]);
    } else {
      k := n;
    }
  }

  /** Some call of the run is the approval of t by membership m. */
  ghost predicate ApprovedInRun(start: Db, ops: seq<Op>, t: Id, m: Id) {
    && (t, m) in Run(start, ops).approvals && Run(start, ops).approvals[(t, m)].status == Approved
    && exists k: nat :: DecidedAt(start, ops, k, (t, m), Run(start, ops).approvals[(t, m)])
  }

  /**
   An expense that needs approvals is posted only after as many different memberships as the policy
   requires have each approved it by a call of their own.
   */
  lemma PostedByDistinctMembers(master: MasterData, platform: Platform, ops: seq<Op>, rt: Id, t: Id, key: Option<string>)
    returns (members: set<Id>)
    requires var db := Run(Empty(master, platform), ops);
             && PostTxnStep(db, rt, t, key).reply == Done(t) && db.txns[t].what.kind == Expense
             && !AutoApproved(db.platform, GatePolicyOf(SettingOf(db, rt)), db.txns[t].what.amount)
    ensures |members| >= GatePolicyOf(SettingOf(Run(Empty(master, platform), ops), rt)).required
    ensures forall m :: m in members ==> ApprovedInRun(Empty(master, platform), ops, t, m)
  {
    var start := Empty(master, platform);
    var db := Run(start, ops);
    PostedWithEvidence(db, rt, t, key);
    EmptySound(master, platform);
    members := With(db.approvals, t, Approved);
    forall m | m in members ensures ApprovedInRun(start, ops, t, m) {
      MemberOfWith(db.approvals, t, Approved, m);
      var k := DecidedByAsked(start, ops, (t, m));
    }
  }
}
