/**
 What the stored approval setting means: each field is read from the member of its name when that has
 the right type, and is its default otherwise. Both modules read the fields they share alike.
 */
module PolicyEffects {
  import opened Prelude
  import opened Tables
  import opened Policy

  /** The setting is an object whose member of this name is json. */
  predicate Says(value: Option<Json>, field: Field, json: Json) {
    value.Some? && value.value.Object? && field in value.value.fields && value.value.fields[field] == json
  }

  /** The threshold is the text that is stored, or 50000. */
  lemma ThresholdRead(p: Platform, value: Option<Json>)
    ensures forall text :: Says(value, ThresholdAmount, Json.Text(text)) ==> Normalize(p, value).threshold == text
    ensures (forall text :: !Says(value, ThresholdAmount, Json.Text(text))) ==> Normalize(p, value).threshold == "50000"
  {
    if value.Some? && value.value.Object? && ThresholdAmount in value.value.fields && value.value.fields[ThresholdAmount].Text? {
      assert Says(value, ThresholdAmount, Json.Text(value.value.fields[ThresholdAmount].text));
    }
  }

  /** Both flags are on unless the setting says that they are off. */
  lemma FlagsRead(p: Platform, value: Option<Json>)
    ensures Normalize(p, value).autoApprove <==> !Says(value, AutoApproveBelowThreshold, Json.Bool(false))
    ensures Normalize(p, value).preventSelf <==> !Says(value, PreventSelfApproval, Json.Bool(false))
  {
  }

  /** The roles are the list of texts that is stored, also an empty one, or KETUA_RT alone. */
  lemma RolesRead(p: Platform, value: Option<Json>)
    ensures forall roles: seq<string> :: Says(value, ApproverRoleKeys, Json.Array(JsonTexts(roles))) ==> Normalize(p, value).roles == roles
    ensures (forall roles: seq<string> :: !Says(value, ApproverRoleKeys, Json.Array(JsonTexts(roles)))) ==>
              Normalize(p, value).roles == ["KETUA_RT"]
  {
    if value.Some? && value.value.Object? && ApproverRoleKeys in value.value.fields && value.value.fields[ApproverRoleKeys].Array? {
      var items := value.value.fields[ApproverRoleKeys].items;
      if forall i :: 0 <= i < |items| ==> items[i].Text? {
        assert JsonTexts(Texts(items)) == items;
        assert Says(value, ApproverRoleKeys, Json.Array(JsonTexts(Texts(items))));
      }
    }
  }

  predicate SaysWhole(value: Option<Json>, field: Field, n: int) {
    Says(value, field, Json.Number(n as real))
  }

  /** The required number is the whole number that is stored, but no less than one, or one. */
  lemma RequiredRead(p: Platform, value: Option<Json>)
    ensures forall n: int :: SaysWhole(value, RequiredApprovals, n) ==>
              Normalize(p, value).required == if n < 1 then 1 else n
    ensures (forall n: int :: !SaysWhole(value, RequiredApprovals, n)) ==> Normalize(p, value).required == 1
  {
    if value.Some? && value.value.Object? && RequiredApprovals in value.value.fields && IsInteger(value.value.fields[RequiredApprovals]) {
      assert SaysWhole(value, RequiredApprovals, value.value.fields[RequiredApprovals].number.Floor);
    }
  }

  /** The days until expiry are what the stored member is as a number, if that is positive, or seven; null is no number. */
  lemma DaysRead(p: Platform, value: Option<Json>, json: Json)
    ensures Says(value, ExpiresInDays, json) ==>
              var days := if json == Null then None else p.toNumber(json);
              Normalize(p, value).expiresInDays == if days.Some? && days.value > 0.0 then days.value else 7.0
    ensures (forall other :: !Says(value, ExpiresInDays, other)) ==> Normalize(p, value).expiresInDays == 7.0
  {
    if value.Some? && value.value.Object? && ExpiresInDays in value.value.fields {
      assert Says(value, ExpiresInDays, value.value.fields[ExpiresInDays]);
    }
  }

  /** The finance module reads the same threshold, flag and number as the approvals module. */
  lemma BothReadAlike(p: Platform, value: Option<Json>)
    ensures var policy := Normalize(p, value); GatePolicyOf(value) == GatePolicy(policy.threshold, policy.autoApprove, policy.required)
  {
  }
}
