/** Expense approval service calls as atomic steps. */
module ApprovalOps {
  import opened Prelude
  import opened Tables
  import opened Policy
  import opened FinanceOps

  /**
   Requests and decisions carry the policy their service has read beforehand. It may be out of date
   by the time they take effect, so it is any policy.
   */
  datatype ApprovalOp =
    | UpdatePolicy(rt: Id, policy: ApprovalPolicy)
    | RequestApprovals(actor: Actor, txn: Id, request: ApprovalRequest)
    | Decide(actor: Actor, approval: ApprovalId, approve: bool, seen: ApprovalPolicy)
    | CancelApproval(actor: Actor, approval: ApprovalId)

  datatype ApprovalRequest = ApprovalRequest(key: Option<string>, expiresAt: Option<nat>, seen: ApprovalPolicy)

  // ----- Policy --------------------------------------------------------------------------------

  predicate Digits(s: string) {
    forall i :: 0 <= i < |s| ==> '0' <= s[i] <= '9'
  }

  /** One to twelve digits, a point here, and one or two digits. */
  predicate PointedAt(s: string, point: nat) {
    && 1 <= point <= 12 && 2 <= |s| - point <= 3
    && s[point] == '.' && Digits(s[..point]) && Digits(s[point + 1..])
  }

  /** One to twelve digits, optionally followed by a point and one or two digits. */
  predicate CashText(s: string) {
    || (1 <= |s| <= 12 && Digits(s))
    || exists point: nat :: point <= 12 && PointedAt(s, point)
  }

  predicate AcceptablePolicy(policy: ApprovalPolicy) {
    CashText(policy.threshold) && policy.required >= 1 && policy.roles != []
  }

  function PolicyOf(db: Db, rt: Id): ApprovalPolicy {
    Normalize(db.platform, SettingOf(db, rt))
  }

  ghost function UpdatePolicyStep(db: Db, rt: Id, policy: ApprovalPolicy): Outcome {
    if !AcceptablePolicy(policy) then Outcome(db, Refused(BadPolicy))
    else
      var stored := ToJson(Normalize(db.platform, Some(ToJson(policy))));
      Outcome(db.(settings := db.settings[rt := stored]), Done(rt))
  }

  // ----- Requests ------------------------------------------------------------------------------

  predicate HasRole(member: Member, policy: ApprovalPolicy) {
    exists i :: 0 <= i < |policy.roles| && policy.roles[i] in member.roles
  }

  /** Active members of the tenant with an approver role, without the parties a policy excludes. */
  function Eligible(db: Db, rt: Id, requester: Id, creator: Id, policy: ApprovalPolicy): set<Id> {
    set m | && m in db.master.members
            && db.master.members[m].rt == rt && db.master.members[m].active
            && HasRole(db.master.members[m], policy)
            && !(policy.preventSelf && db.master.members[m].user in {requester, creator})
  }

  function RowKey(key: Option<string>, member: Id): Option<string> {
    if Truthy(key) then Some(key.value + ":" + DecimalText(member)) else None
  }

  /** Some stored approval of the tenant already uses the key one of the new rows would get. */
  predicate RowKeyTaken(approvals: map<ApprovalId, Approval>, rt: Id, key: Option<string>, approvers: set<Id>) {
    && Truthy(key)
    && (exists k, m :: k in approvals && approvals[k].rt == rt && m in approvers && approvals[k].key == RowKey(key, m))
  }

  function NewRow(actor: Actor, member: Id, key: Option<string>, expiresAt: Option<nat>): Approval {
    Approval(actor.rt, actor.user, None, RowKey(key, member), Pending, expiresAt)
  }

  /** One pending row per approver. */
  function FanOut(
    approvals: map<ApprovalId, Approval>, actor: Actor, t: Id, approvers: set<Id>, key: Option<string>, expiresAt: Option<nat>)
    : (r: map<ApprovalId, Approval>)
    ensures forall k :: k in r <==> k in approvals || (k.0 == t && k.1 in approvers)
    ensures forall k :: k in r ==> r[k] == if k.0 == t && k.1 in approvers then NewRow(actor, k.1, key, expiresAt) else approvals[k]
  {
    var pairs := set m | m in approvers :: (t, m);
    assert forall k: ApprovalId :: k.0 == t && k.1 in approvers ==> k == (t, k.1) && k in pairs;
    approvals + map k | k in pairs :: NewRow(actor, k.1, key, expiresAt)
  }

  /** What a request is answered; Done means that rows are to be created. */
  ghost function RequestAnswer(db: Db, actor: Actor, t: Id, request: ApprovalRequest): Reply {
    if !TxnOf(db.txns, actor.rt, t) then Refused(NotFound)
    else
      var x := db.txns[t];
      var policy := request.seen;
      var below := db.platform.atMost(x.what.amount, policy.threshold);
      if x.what.kind != Expense then Refused(WrongKind)
      else if x.status != TxnStatus.Validated then Refused(WrongStatus)
      else if policy.autoApprove && below.None? then Refused(MalformedThreshold)
      else if policy.autoApprove && below.value then NotRequired
      else if Rows(db.approvals, t) != {} then Replayed(t)
      else if |Approvers(db, actor, t, policy)| < policy.required then Refused(NotEnoughApprovers)
      else if RowKeyTaken(db.approvals, actor.rt, request.key, Approvers(db, actor, t, policy)) then Replayed(t)
      else Done(t)
  }

  function Approvers(db: Db, actor: Actor, t: Id, policy: ApprovalPolicy): set<Id>
    requires t in db.txns
  {
    Eligible(db, actor.rt, actor.user, db.txns[t].createdBy, policy)
  }

  ghost function RequestStep(db: Db, actor: Actor, t: Id, request: ApprovalRequest): Outcome {
    var answer := RequestAnswer(db, actor, t, request);
    if answer.Done? then
      Outcome(db.(approvals := FanOut(db.approvals, actor, t, Approvers(db, actor, t, request.seen), request.key, request.expiresAt)), answer)
    else Outcome(db, answer)
  }

  // ----- Decisions -----------------------------------------------------------------------------

  predicate ApprovalOf(approvals: map<ApprovalId, Approval>, rt: Id, a: ApprovalId) {
    a in approvals && approvals[a].rt == rt
  }

  function DecideRefusal(db: Db, actor: Actor, a: ApprovalId, policy: ApprovalPolicy): Option<Refusal> {
    if !ApprovalOf(db.approvals, actor.rt, a) || a.0 !in db.txns then Some(NotFound)
    else
      var row := db.approvals[a];
      if row.status != Pending then Some(WrongStatus)
      else if a.1 != actor.membership then Some(NotAssigned)
      else if policy.preventSelf && actor.user in {row.requestedBy, db.txns[a.0].createdBy} then Some(SelfApproval)
      else if !(a.1 in db.master.members && db.master.members[a.1].rt == actor.rt
                && db.master.members[a.1].active && HasRole(db.master.members[a.1], policy))
      then Some(InactiveMember)
      else None
  }

  function Decided(row: Approval, status: ApprovalStatus, decider: Id): Approval {
    row.(status := status, decisionBy := Some(decider))
  }

  /** A rejection moves the transaction too, or nothing at all. */
  ghost function DecideStep(db: Db, actor: Actor, a: ApprovalId, approve: bool, seen: ApprovalPolicy): Outcome {
    var refusal := DecideRefusal(db, actor, a, seen);
    if refusal.Some? then Outcome(db, Refused(refusal.value))
    else if approve then
      Outcome(db.(approvals := db.approvals[a := Decided(db.approvals[a], Approved, actor.user)]), Done(a.0))
    else if !(db.txns[a.0].rt == actor.rt && db.txns[a.0].status == TxnStatus.Validated) then
      Outcome(db, Refused(StateChanged))
    else
      Outcome(db.(approvals := db.approvals[a := Decided(db.approvals[a], ApprovalStatus.Rejected, actor.user)],
                  txns := db.txns[a.0 := db.txns[a.0].(status := TxnStatus.Rejected)]), Done(a.0))
  }

  ghost function CancelStep(db: Db, actor: Actor, a: ApprovalId): Outcome {
    if !ApprovalOf(db.approvals, actor.rt, a) then Outcome(db, Refused(NotFound))
    else if db.approvals[a].status != Pending then Outcome(db, Refused(WrongStatus))
    else Outcome(db.(approvals := db.approvals[a := Decided(db.approvals[a], ApprovalStatus.Cancelled, actor.user)]), Done(a.0))
  }

  ghost function ApprovalStep(db: Db, op: ApprovalOp): Outcome {
    match op
    case UpdatePolicy(rt, policy) => UpdatePolicyStep(db, rt, policy)
    case RequestApprovals(actor, t, request) => RequestStep(db, actor, t, request)
    case Decide(actor, a, approve, seen) => DecideStep(db, actor, a, approve, seen)
    case CancelApproval(actor, a) => CancelStep(db, actor, a)
  }
}
