/**
  * A role specification (src/relay/protocol/roles.py): the behavioural
  * rules of one agent, loaded from a file under roles/.  Its one invariant
  * is that the verdict configuration is all-or-nothing.
  */
module Roles {
  import opened Wrappers
  import opened Schema
  import Text

  datatype RoleSpec = RoleSpec(
    name: string,
    systemPrompt: string,
    outputFormat: Option<string>,
    verdictField: Option<string>,
    approveValue: Option<string>,
    rejectValue: Option<string>)

  /** A role document as parsed: every field may be absent. */
  datatype RawRoleSpec = RawRoleSpec(
    name: Option<string>,
    systemPrompt: Option<string>,
    outputFormat: Option<string>,
    verdictField: Option<string>,
    approveValue: Option<string>,
    rejectValue: Option<string>)

  const VerdictConfigMessage: string :=
    "verdict_field, approve_value, and reject_value must all be set or all be unset"

  /**
    * `any(fields) and not all(fields)` over the verdict triple, with
    * Python truthiness: an empty string counts as unset.
    */
  predicate PartialVerdictConfig(vf: Option<string>, av: Option<string>, rv: Option<string>) {
    (Text.Truthy(vf) || Text.Truthy(av) || Text.Truthy(rv))
    && !(Text.Truthy(vf) && Text.Truthy(av) && Text.Truthy(rv))
  }

  /** `RoleSpec.validate_verdict_config`: the error it raises, if any. */
  function ValidateVerdictConfig(r: RoleSpec): (err: Option<string>)
    ensures err.None? <==>
      (Text.Truthy(r.verdictField) && Text.Truthy(r.approveValue) && Text.Truthy(r.rejectValue))
      || (!Text.Truthy(r.verdictField) && !Text.Truthy(r.approveValue) && !Text.Truthy(r.rejectValue))
    ensures err.Some? ==> err.value == VerdictConfigMessage
  {
    if PartialVerdictConfig(r.verdictField, r.approveValue, r.rejectValue) then Some(VerdictConfigMessage)
    else None
  }

  /** The required-field errors of a role document, in field order. */
  function RoleFieldErrors(raw: RawRoleSpec): (errs: seq<SchemaError>)
    ensures errs == [] <==> raw.name.Some? && raw.systemPrompt.Some?
    ensures |errs| <= 2
  {
    (if raw.name.None? then [Missing(["name"])] else [])
    + (if raw.systemPrompt.None? then [Missing(["system_prompt"])] else [])
  }

  /** The spec a document describes once its required fields are present; omitted optional fields stay `None`. */
  function ToRoleSpec(raw: RawRoleSpec): RoleSpec
    requires raw.name.Some? && raw.systemPrompt.Some?
  {
    RoleSpec(raw.name.value, raw.systemPrompt.value, raw.outputFormat,
             raw.verdictField, raw.approveValue, raw.rejectValue)
  }

  /**
    * `RoleSpec.model_validate`: the missing required fields, or else the
    * verdict-configuration error reported at the document root.
    */
  function ParseRole(raw: RawRoleSpec): (r: Result<RoleSpec, seq<SchemaError>>)
    ensures r.Success? <==>
      raw.name.Some? && raw.systemPrompt.Some?
      && !PartialVerdictConfig(raw.verdictField, raw.approveValue, raw.rejectValue)
    ensures r.Success? ==>
      && r.value.name == raw.name.value && r.value.systemPrompt == raw.systemPrompt.value
      && r.value.outputFormat == raw.outputFormat && r.value.verdictField == raw.verdictField
      && r.value.approveValue == raw.approveValue && r.value.rejectValue == raw.rejectValue
    ensures r.Failure? ==> r.error != []
    ensures r.Failure? && raw.name.Some? && raw.systemPrompt.Some? ==>
      r.error == [SchemaError([], ValueError(VerdictConfigMessage))]
  {
    var fieldErrors := RoleFieldErrors(raw);
    if fieldErrors != [] then Failure(fieldErrors)
    else
      var spec := ToRoleSpec(raw);
      match ValidateVerdictConfig(spec)
      case Some(msg) => Failure([SchemaError([], ValueError(msg))])
      case None => Success(spec)
  }

  /** Every accepted spec has its verdict triple all set or all unset. */
  lemma AcceptedVerdictAllOrNone(raw: RawRoleSpec)
    requires ParseRole(raw).Success?
    ensures var s := ParseRole(raw).value;
      (Text.Truthy(s.verdictField) <==> Text.Truthy(s.approveValue))
      && (Text.Truthy(s.approveValue) <==> Text.Truthy(s.rejectValue))
  {
  }

  /**
    * Empty strings count as unset: a triple of one empty string and two
    * absent values is accepted, and so is an empty system prompt, while a
    * single non-empty value without the others is rejected.
    */
  lemma EmptyCountsAsUnset()
    ensures ParseRole(RawRoleSpec(Some("reviewer"), Some(""), None, Some(""), None, None)).Success?
    ensures ParseRole(RawRoleSpec(Some("reviewer"), Some("Review."), None, Some("Verdict"), Some(""), Some("REJECT"))).Failure?
  {
  }
}
