/** The approvals repository and the guards of its service on the shared tables. */
module ApprovalsRepository {
  import opened Prelude
  import opened Tables
  import opened Policy
  import opened FinanceOps
  import opened ApprovalOps
  import opened SystemLaws
  import opened CallLaws
  import opened Database

  class ApprovalsRepository {
    const db: Database

    constructor (db: Database)
      ensures this.db == db
    {
      this.db := db;
    }

    method GetPolicy(rt: Id) returns (policy: ApprovalPolicy)
      ensures policy == PolicyOf(db.Snapshot(), rt)
    {
      policy := Normalize(db.platform, if rt in db.settings then Some(db.settings[rt]) else None);
    }

    method UpdatePolicy(rt: Id, policy: ApprovalPolicy) returns (reply: Reply)
      requires db.Valid()
      modifies db`settings
      ensures db.Valid() && Evolves(old(db.Snapshot()), db.Snapshot())
      ensures Outcome(db.Snapshot(), reply) == UpdatePolicyStep(old(db.Snapshot()), rt, policy)
    {
      PolicyKept(db.Snapshot(), rt, policy);
      if !CashText(policy.threshold) || policy.required < 1 || |policy.roles| == 0 {
        return Refused(BadPolicy);
      }
      var normalized := Normalize(db.platform, Some(ToJson(policy)));
      db.settings := db.settings[rt := ToJson(normalized)];
      reply := Done(rt);
    }

    /** Active members with an approver role; with self approval prevented, not the parties themselves. */
    method FindEligibleApprovers(actor: Actor, t: Id, policy: ApprovalPolicy) returns (approvers: set<Id>)
      requires t in db.txns
      ensures approvers == Eligible(db.Snapshot(), actor.rt, actor.user, db.txns[t].createdBy, policy)
    {
      var excluded := if policy.preventSelf then {actor.user, db.txns[t].createdBy} else {};
      approvers := set m | m in db.master.members
                           && db.master.members[m].rt == actor.rt && db.master.members[m].active
                           && db.master.members[m].user !in excluded && HasRole(db.master.members[m], policy);
    }

    /** What a request meets before approvers are looked for: an answer, or nothing that stops it. */
    method RequestGuard(actor: Actor, t: Id, policy: ApprovalPolicy) returns (answer: Option<Reply>)
      ensures answer.Some? ==> forall request: ApprovalRequest :: request.seen == policy ==>
                RequestAnswer(db.Snapshot(), actor, t, request) == answer.value && !answer.value.Done?
      ensures answer.None? ==> t in db.txns && forall request: ApprovalRequest :: request.seen == policy ==>
                RequestAnswer(db.Snapshot(), actor, t, request)
                == if |Approvers(db.Snapshot(), actor, t, policy)| < policy.required then Refused(NotEnoughApprovers)
                   else if RowKeyTaken(db.approvals, actor.rt, request.key, Approvers(db.Snapshot(), actor, t, policy)) then Replayed(t)
                   else Done(t)
    {
      if !(t in db.txns && db.txns[t].rt == actor.rt) {
        return Some(Refused(NotFound));
      }
      if db.txns[t].what.kind != Expense {
        return Some(Refused(WrongKind));
      }
      if db.txns[t].status != TxnStatus.Validated {
        return Some(Refused(WrongStatus));
      }
      if policy.autoApprove {
        var below := db.platform.atMost(db.txns[t].what.amount, policy.threshold);
        if below.None? {
          return Some(Refused(MalformedThreshold));
        }
        if below.value {
          return Some(NotRequired);
        }
      }
      if k :| k in db.approvals && k.0 == t {
        assert k.1 in Rows(db.approvals, t);
        return Some(Replayed(t));
      }
      assert Rows(db.approvals, t) == {};
      answer := None;
    }

    /**
     A request: nothing to do when approval is not needed, a replay when rows exist, otherwise one
     pending row per eligible approver. A key that is taken violates the unique index, rolls the
     insert back and is answered from the rows that exist.
     */
    method RequestOnce(actor: Actor, t: Id, request: ApprovalRequest) returns (reply: Reply)
      requires db.Valid()
      modifies db`approvals
      ensures db.Valid() && Evolves(old(db.Snapshot()), db.Snapshot())
      ensures Outcome(db.Snapshot(), reply) == RequestStep(old(db.Snapshot()), actor, t, request)
    {
      RequestKept(db.Snapshot(), actor, t, request);
      var policy := request.seen;
      var answer := RequestGuard(actor, t, policy);
      if answer.Some? {
        return answer.value;
      }
      var approvers := FindEligibleApprovers(actor, t, policy);
      if |approvers| < policy.required {
        return Refused(NotEnoughApprovers);
      }
      var saved := db.approvals;
      var taken := RowKeyTaken(db.approvals, actor.rt, request.key, approvers);
      db.approvals := FanOut(db.approvals, actor, t, approvers, request.key, request.expiresAt);
      if taken {
        db.approvals := saved;
        return Replayed(t);
      }
      reply := Done(t);
    }

    /** Who may decide: the asked member, still active and in a role, and no party if the policy says so. */
    method DecisionGuard(actor: Actor, a: ApprovalId, policy: ApprovalPolicy) returns (refusal: Option<Refusal>)
      ensures refusal == DecideRefusal(db.Snapshot(), actor, a, policy)
    {
      if !(a in db.approvals && db.approvals[a].rt == actor.rt) || a.0 !in db.txns {
        return Some(NotFound);
      }
      var before := db.approvals[a];
      if before.status != Pending {
        return Some(WrongStatus);
      }
      if a.1 != actor.membership {
        return Some(NotAssigned);
      }
      if policy.preventSelf && (before.requestedBy == actor.user || db.txns[a.0].createdBy == actor.user) {
        return Some(SelfApproval);
      }
      var members := db.master.members;
      if !(a.1 in members && members[a.1].rt == actor.rt && members[a.1].active && HasRole(members[a.1], policy)) {
        return Some(InactiveMember);
      }
      refusal := None;
    }

    /** The decision, and with a rejection the transaction's, or neither. */
    method StoreDecision(actor: Actor, a: ApprovalId, approve: bool, ghost policy: ApprovalPolicy) returns (reply: Reply)
      requires DecideRefusal(db.Snapshot(), actor, a, policy) == None
      modifies db`approvals, db`txns
      ensures Outcome(db.Snapshot(), reply) == DecideStep(old(db.Snapshot()), actor, a, approve, policy)
    {
      var saved := db.approvals;
      var decision := if approve then Approved else ApprovalStatus.Rejected;
      db.approvals := db.approvals[a := db.approvals[a].(status := decision, decisionBy := Some(actor.user))];
      if !approve {
        if db.txns[a.0].rt != actor.rt || db.txns[a.0].status != TxnStatus.Validated {
          db.approvals := saved;
          return Refused(StateChanged);
        }
        db.txns := db.txns[a.0 := db.txns[a.0].(status := TxnStatus.Rejected)];
      }
      reply := Done(a.0);
    }

    /** One serializable attempt at a decision. */
    method DecideOnce(actor: Actor, a: ApprovalId, approve: bool, policy: ApprovalPolicy) returns (reply: Reply)
      requires db.Valid()
      modifies db`approvals, db`txns
      ensures db.Valid() && Evolves(old(db.Snapshot()), db.Snapshot())
      ensures Outcome(db.Snapshot(), reply) == DecideStep(old(db.Snapshot()), actor, a, approve, policy)
    {
      DecideKept(db.Snapshot(), actor, a, approve, policy);
      var refusal := DecisionGuard(actor, a, policy);
      if refusal.Some? {
        return Refused(refusal.value);
      }
      reply := StoreDecision(actor, a, approve, policy);
    }

    method CancelApproval(actor: Actor, a: ApprovalId) returns (reply: Reply)
      requires db.Valid()
      modifies db`approvals
      ensures db.Valid() && Evolves(old(db.Snapshot()), db.Snapshot())
      ensures Outcome(db.Snapshot(), reply) == CancelStep(old(db.Snapshot()), actor, a)
    {
      CancelKept(db.Snapshot(), actor, a);
      if !(a in db.approvals && db.approvals[a].rt == actor.rt) {
        return Refused(NotFound);
      }
      if db.approvals[a].status != Pending {
        return Refused(WrongStatus);
      }
      db.approvals := db.approvals[a := db.approvals[a].(status := ApprovalStatus.Cancelled, decisionBy := Some(actor.user))];
      reply := Done(a.0);
    }
  }
}
