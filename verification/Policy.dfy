/**
 The expense approval policy. It is stored as one JSON setting and read by two modules, each with
 its own normalizer and its own evaluation: the approvals module reports a workflow status, the
 finance module decides at posting time whether the gate is open.
 */
module Policy {
  import opened Prelude
  import opened Tables

  datatype ApprovalPolicy = ApprovalPolicy(
    threshold: string, autoApprove: bool, preventSelf: bool, roles: seq<string>,
    required: int, expiresInDays: real)

  /** The three fields the posting gate reads. */
  datatype GatePolicy = GatePolicy(threshold: string, autoApprove: bool, required: int)

  const DEFAULT_THRESHOLD := "50000"
  const DEFAULT_ROLE := "KETUA_RT"

  function Max(a: int, b: int): int {
    if a > b then a else b
  }

  function Fields(value: Option<Json>): map<Field, Json> {
    if value.Some? && value.value.Object? then value.value.fields else map[]
  }

  predicate IsInteger(value: Json) {
    value.Number? && value.number == value.number.Floor as real
  }

  function Texts(items: seq<Json>): (r: seq<string>)
    requires forall i :: 0 <= i < |items| ==> items[i].Text?
    ensures |r| == |items|
    ensures forall i :: 0 <= i < |items| ==> r[i] == items[i].text
  {
    if items == [] then [] else [items[0].text] + Texts(items[1..])
  }

  function ThresholdOf(raw: map<Field, Json>): string {
    if ThresholdAmount in raw && raw[ThresholdAmount].Text? then raw[ThresholdAmount].text
    else DEFAULT_THRESHOLD
  }

  function FlagOf(raw: map<Field, Json>, field: Field): bool {
    if field in raw && raw[field].Bool? then raw[field].flag else true
  }

  function RolesOf(raw: map<Field, Json>): seq<string> {
    if && ApproverRoleKeys in raw
       && raw[ApproverRoleKeys].Array?
       && forall i :: 0 <= i < |raw[ApproverRoleKeys].items| ==> raw[ApproverRoleKeys].items[i].Text?
    then Texts(raw[ApproverRoleKeys].items)
    else [DEFAULT_ROLE]
  }

  function DaysOf(p: Platform, raw: map<Field, Json>): real {
    if ExpiresInDays !in raw || raw[ExpiresInDays].Null? then 7.0 else
      var days := p.toNumber(raw[ExpiresInDays]);
      if days.Some? && days.value > 0.0 then days.value else 7.0
  }

  /** The approvals module's normalizer. */
  function Normalize(p: Platform, value: Option<Json>): ApprovalPolicy {
    var raw := Fields(value);
    var required :=
      if RequiredApprovals in raw && IsInteger(raw[RequiredApprovals]) then raw[RequiredApprovals].number.Floor
      else 1;
    ApprovalPolicy(
      ThresholdOf(raw), FlagOf(raw, AutoApproveBelowThreshold), FlagOf(raw, PreventSelfApproval),
      RolesOf(raw), Max(1, required), DaysOf(p, raw))
  }

  /** The finance module's own normalizer of the same setting. */
  function GatePolicyOf(value: Option<Json>): GatePolicy {
    var raw := Fields(value);
    var required :=
      if RequiredApprovals in raw && IsInteger(raw[RequiredApprovals]) then Max(1, raw[RequiredApprovals].number.Floor)
      else 1;
    GatePolicy(ThresholdOf(raw), FlagOf(raw, AutoApproveBelowThreshold), required)
  }

  function JsonTexts(texts: seq<string>): (r: seq<Json>)
    ensures |r| == |texts|
    ensures forall i :: 0 <= i < |texts| ==> r[i] == Json.Text(texts[i])
  {
    seq(|texts|, i requires 0 <= i < |texts| => Json.Text(texts[i]))
  }

  /** A policy as it is written back to the settings table. */
  function ToJson(policy: ApprovalPolicy): Json {
    Json.Object(map[
      ThresholdAmount := Json.Text(policy.threshold),
      AutoApproveBelowThreshold := Json.Bool(policy.autoApprove),
      PreventSelfApproval := Json.Bool(policy.preventSelf),
      ApproverRoleKeys := Json.Array(JsonTexts(policy.roles)),
      RequiredApprovals := Json.Number(policy.required as real),
      ExpiresInDays := Json.Number(policy.expiresInDays)])
  }

  /** `Number` leaves numbers alone. */
  ghost predicate Lawful(p: Platform) {
    forall r :: p.toNumber(Json.Number(r)) == Some(r)
  }

  /** Writing a policy and reading it back normalizes only the two numeric bounds. */
  lemma ReadBack(p: Platform, policy: ApprovalPolicy)
    requires Lawful(p)
    ensures Normalize(p, Some(ToJson(policy)))
         == policy.(required := Max(1, policy.required),
                    expiresInDays := if policy.expiresInDays > 0.0 then policy.expiresInDays else 7.0)
  {
  }

  /** Normalizing what normalizing produced changes nothing, whatever the stored value was. */
  lemma NormalizeIdempotent(p: Platform, value: Option<Json>)
    requires Lawful(p)
    ensures var policy := Normalize(p, value);
            Normalize(p, Some(ToJson(policy))) == policy
  {
    ReadBack(p, Normalize(p, value));
  }

  // ----- The two evaluations -------------------------------------------------------------------

  /** Memberships whose approval row for transaction t has the given status. */
  function With(approvals: map<ApprovalId, Approval>, t: Id, status: ApprovalStatus): set<Id> {
    set k | k in approvals && k.0 == t && approvals[k].status == status :: k.1
  }

  function Rows(approvals: map<ApprovalId, Approval>, t: Id): set<Id> {
    set k | k in approvals && k.0 == t :: k.1
  }

  datatype Gate = Open | RejectedGate | ShortOfApprovals | Malformed

  /** The posting gate of the finance module. */
  ghost function PostingGate(
    p: Platform, setting: Option<Json>, approvals: map<ApprovalId, Approval>, t: Id, txn: Txn): Gate
  {
    if txn.what.kind != Expense then Open else
      var policy := GatePolicyOf(setting);
      var below := p.atMost(txn.what.amount, policy.threshold);
      if policy.autoApprove && below.None? then Malformed
      else if policy.autoApprove && below.value then Open
      else if |With(approvals, t, ApprovalStatus.Rejected)| > 0 then RejectedGate
      else if |With(approvals, t, Approved)| < policy.required then ShortOfApprovals
      else Open
  }

  datatype WorkflowStatus =
    | NotNeeded | InReview | Complete | Declined | Withdrawn | Expired | Unreadable

  /** The status the approvals module reports for a transaction at time now. */
  ghost function ReportedStatus(
    p: Platform, setting: Option<Json>, approvals: map<ApprovalId, Approval>, t: Id, txn: Txn, now: nat): WorkflowStatus
  {
    var policy := Normalize(p, setting);
    if txn.what.kind != Expense then NotNeeded else
      var below := p.atMost(txn.what.amount, policy.threshold);
      if policy.autoApprove && below.None? then Unreadable
      else if policy.autoApprove && below.value then NotNeeded
      else ApprovalState(approvals, t, policy, now)
  }

  ghost function ApprovalState(
    approvals: map<ApprovalId, Approval>, t: Id, policy: ApprovalPolicy, now: nat): WorkflowStatus
  {
    var pending := With(approvals, t, Pending);
    if |With(approvals, t, ApprovalStatus.Rejected)| > 0 then Declined
    else if |With(approvals, t, Approved)| >= policy.required then Complete
    else if exists m :: m in pending && approvals[(t, m)].expiresAt.Some? && approvals[(t, m)].expiresAt.value <= now
    then Expired
    else if |pending| > 0 || |Rows(approvals, t)| == 0 then InReview
    else if |With(approvals, t, ApprovalStatus.Cancelled)| == |Rows(approvals, t)| then Withdrawn
    else InReview
  }

  /**
   The two modules agree for every stored setting, transaction, approval table and clock: the gate
   opens exactly when approval is reported as not needed or complete, and each way of staying
   closed corresponds to its own reports.
   */
  lemma EvaluatorsAgree(
    p: Platform, setting: Option<Json>, approvals: map<ApprovalId, Approval>, t: Id, txn: Txn, now: nat)
    ensures var gate := PostingGate(p, setting, approvals, t, txn);
            var status := ReportedStatus(p, setting, approvals, t, txn, now);
            && (gate == Open <==> status in {NotNeeded, Complete})
            && (gate == RejectedGate <==> status == Declined)
            && (gate == Malformed <==> status == Unreadable)
            && (gate == ShortOfApprovals <==> status in {InReview, Withdrawn, Expired})
  {
  }

  /**
   Expiry never reaches the gate: approvals that differ only in their expiry open it alike.
   */
  lemma ExpiryIsOnlyReported(
    p: Platform, setting: Option<Json>, a: map<ApprovalId, Approval>, b: map<ApprovalId, Approval>, t: Id, txn: Txn)
    requires a.Keys == b.Keys
    requires forall k :: k in a ==> a[k].status == b[k].status
    ensures PostingGate(p, setting, a, t, txn) == PostingGate(p, setting, b, t, txn)
  {
    assert With(a, t, ApprovalStatus.Rejected) == With(b, t, ApprovalStatus.Rejected);
    assert With(a, t, Approved) == With(b, t, Approved);
  }
}
