/**
  * `relay validate` (src/relay/protocol/validator.py): the error messages
  * for a workflow directory.  Problems with workflow.yml stop the check at
  * once; once the workflow is sound, every role's rules file is examined
  * and its errors are collected.  The directory is given as what parsing
  * each file produced.
  */
module Validator {
  import opened Wrappers
  import opened Dicts
  import opened Schema
  import Text
  import Workflow
  import Roles

  /** What reading and YAML-parsing workflow.yml gave. */
  datatype WorkflowFile =
    | WorkflowYamlError(detail: string)
    | WorkflowNotMapping
    | WorkflowDocument(raw: Workflow.RawWorkflow)

  /** What reading and YAML-parsing a role's rules file gave. */
  datatype RoleFile =
    | RoleYamlError(detail: string)
    | RoleNotMapping
    | RoleDocument(raw: Roles.RawRoleSpec)

  /**
    * A workflow directory: its path, workflow.yml if present, and the role
    * files present, keyed by their path relative to the directory.
    */
  datatype WorkflowDir = WorkflowDir(path: string, workflowFile: Option<WorkflowFile>, roleFiles: map<string, RoleFile>)

  /** The error a document that is not a mapping gets, at the document root. */
  function NotMappingError(model: string): SchemaError {
    SchemaError([], "Input should be a valid dictionary or instance of " + model)
  }

  /** A location rendered as the source does: parts joined by " -> ", or "root". */
  function FormatLoc(loc: seq<string>): (r: string)
    ensures loc == [] ==> r == "root"
    ensures |loc| == 1 ==> r == loc[0]
  {
    if loc == [] then "root" else Text.Join(loc, " -> ")
  }

  /** A longer location prints as the shorter one, " -> ", and the new last part. */
  lemma FormatLocSnoc(loc: seq<string>, part: string)
    requires loc != []
    ensures FormatLoc(loc + [part]) == FormatLoc(loc) + " -> " + part
  {
    Text.JoinSnoc(loc, " -> ", part);
  }

  function WorkflowErrorLine(e: SchemaError): string {
    "workflow.yml [" + FormatLoc(e.loc) + "]: " + e.msg
  }

  function RoleErrorLine(role: string, e: SchemaError): string {
    "Role '" + role + "' [" + FormatLoc(e.loc) + "]: " + e.msg
  }

  function WorkflowErrorLines(errs: seq<SchemaError>): (r: seq<string>)
    ensures |r| == |errs|
    ensures forall i :: 0 <= i < |errs| ==> r[i] == WorkflowErrorLine(errs[i])
  {
    seq(|errs|, i requires 0 <= i < |errs| => WorkflowErrorLine(errs[i]))
  }

  function RoleErrorLines(role: string, errs: seq<SchemaError>): (r: seq<string>)
    ensures |r| == |errs|
    ensures forall i :: 0 <= i < |errs| ==> r[i] == RoleErrorLine(role, errs[i])
  {
    seq(|errs|, i requires 0 <= i < |errs| => RoleErrorLine(role, errs[i]))
  }

  lemma RoleErrorLinesSnoc(role: string, errs: seq<SchemaError>, j: nat)
    requires j < |errs|
    ensures RoleErrorLines(role, errs[..j + 1]) == RoleErrorLines(role, errs[..j]) + [RoleErrorLine(role, errs[j])]
  {
  }

  /** The errors one role contributes: its rules file must exist, parse and validate. */
  function RoleErrors(dir: WorkflowDir, name: string, def: Workflow.RoleDef): (r: seq<string>)
    ensures r == [] <==>
      def.rules in dir.roleFiles && dir.roleFiles[def.rules].RoleDocument?
      && Roles.ParseRole(dir.roleFiles[def.rules].raw).Success?
  {
    if def.rules !in dir.roleFiles then
      ["Role '" + name + "': rules file not found: " + def.rules]
    else
      match dir.roleFiles[def.rules]
      case RoleYamlError(e) => ["Role '" + name + "': invalid YAML in " + def.rules + ": " + e]
      case RoleNotMapping => [RoleErrorLine(name, NotMappingError("RoleSpec"))]
      case RoleDocument(raw) =>
        match Roles.ParseRole(raw)
        case Success(_) => []
        case Failure(errs) => RoleErrorLines(name, errs)
  }

  /** A role whose rules file exists, parses and validates. */
  predicate RoleSound(dir: WorkflowDir, def: Workflow.RoleDef) {
    def.rules in dir.roleFiles && dir.roleFiles[def.rules].RoleDocument?
    && Roles.ParseRole(dir.roleFiles[def.rules].raw).Success?
  }

  /** The errors of every role, in roles order, each role's errors together. */
  function AllRoleErrors(dir: WorkflowDir, roles: Dict<Workflow.RoleDef>): (r: seq<string>)
    ensures r == [] <==> forall i :: 0 <= i < |roles| ==> RoleSound(dir, roles[i].1)
    decreases |roles|
  {
    if roles == [] then []
    else
      assert forall i :: 1 <= i < |roles| ==> roles[i] == roles[1..][i - 1];
      RoleErrors(dir, roles[0].0, roles[0].1) + AllRoleErrors(dir, roles[1..])
  }

  /** A missing rules file costs exactly one message and does not stop the others from being checked. */
  lemma MissingRuleFileOneError(dir: WorkflowDir, roles: Dict<Workflow.RoleDef>)
    requires roles != [] && roles[0].1.rules !in dir.roleFiles
    ensures AllRoleErrors(dir, roles)
      == ["Role '" + roles[0].0 + "': rules file not found: " + roles[0].1.rules] + AllRoleErrors(dir, roles[1..])
  {
  }

  /** The directory passes: workflow.yml is present, valid, and every role is sound. */
  ghost predicate Valid(dir: WorkflowDir) {
    && dir.workflowFile.Some? && dir.workflowFile.value.WorkflowDocument?
    && var raw := dir.workflowFile.value.raw;
    && Workflow.Complete(raw)
    && Workflow.WellFormed(Workflow.ToDefinition(raw))
    && var roles := Workflow.ToDefinition(raw).roles;
    forall i :: 0 <= i < |roles| ==> RoleSound(dir, roles[i].1)
  }

  /**
    * `validate_workflow`: an empty list exactly when the directory is
    * valid; problems with workflow.yml are reported alone.
    */
  method ValidateWorkflow(dir: WorkflowDir) returns (errors: seq<string>)
    ensures errors == [] <==> Valid(dir)
    ensures dir.workflowFile.None? ==> errors == ["Missing workflow.yml in " + dir.path]
    ensures dir.workflowFile == Some(WorkflowNotMapping) ==>
      errors == [WorkflowErrorLine(NotMappingError("WorkflowDefinition"))]
    ensures dir.workflowFile.Some? && dir.workflowFile.value.WorkflowYamlError? ==>
      errors == ["Invalid YAML in workflow.yml: " + dir.workflowFile.value.detail]
    ensures dir.workflowFile.Some? && dir.workflowFile.value.WorkflowDocument? ==>
      var raw := dir.workflowFile.value.raw;
      && (!Workflow.Complete(raw) ==> errors == WorkflowErrorLines(Workflow.FieldErrors(raw)))
      && (Workflow.Complete(raw) && !Workflow.WellFormed(Workflow.ToDefinition(raw)) ==>
            exists e :: Workflow.IsFirstViolation(Workflow.ToDefinition(raw), e)
              && errors == [WorkflowErrorLine(SchemaError([], ValueError(e.Message())))])
      && (Workflow.Complete(raw) && Workflow.WellFormed(Workflow.ToDefinition(raw)) ==>
            errors == AllRoleErrors(dir, Workflow.ToDefinition(raw).roles))
  {
    errors := [];
    if dir.workflowFile.None? {
      errors := errors + ["Missing workflow.yml in " + dir.path];
      return;
    }
    var raw;
    match dir.workflowFile.value {
      case WorkflowYamlError(e) =>
        errors := errors + ["Invalid YAML in workflow.yml: " + e];
        return;
      case WorkflowNotMapping =>
        errors := errors + [WorkflowErrorLine(NotMappingError("WorkflowDefinition"))];
        return;
      case WorkflowDocument(r) =>
        raw := r;
    }
    var parsed := Workflow.ParseWorkflow(raw);
    if parsed.Failure? {
      errors := ReportWorkflowErrors(parsed.error);
      return;
    }
    errors := CheckRoles(dir, parsed.value.roles);
  }

  /** One message per schema error of workflow.yml, in order. */
  method ReportWorkflowErrors(errs: seq<SchemaError>) returns (errors: seq<string>)
    ensures errors == WorkflowErrorLines(errs)
  {
    errors := [];
    for i := 0 to |errs|
      invariant errors == WorkflowErrorLines(errs[..i])
    {
      errors := errors + [WorkflowErrorLine(errs[i])];
    }
    assert errs[..|errs|] == errs;
  }

  /** The loop over roles: every role is checked, whatever the others gave. */
  method CheckRoles(dir: WorkflowDir, roles: Dict<Workflow.RoleDef>) returns (errors: seq<string>)
    ensures errors == AllRoleErrors(dir, roles)
  {
    errors := [];
    for i := 0 to |roles|
      invariant errors == AllRoleErrors(dir, roles[..i])
    {
      var more := CheckRole(dir, roles[i].0, roles[i].1);
      assert roles[..i + 1] == roles[..i] + [roles[i]];
      RoleErrorsAppend(dir, roles[..i], roles[i]);
      errors := errors + more;
    }
    assert roles[..|roles|] == roles;
  }

  /** One role's rules file: missing, unparsable, or checked against the role schema. */
  method CheckRole(dir: WorkflowDir, name: string, def: Workflow.RoleDef) returns (errors: seq<string>)
    ensures errors == RoleErrors(dir, name, def)
  {
    errors := [];
    if def.rules !in dir.roleFiles {
      errors := errors + ["Role '" + name + "': rules file not found: " + def.rules];
      return;
    }
    match dir.roleFiles[def.rules] {
      case RoleYamlError(e) =>
        errors := errors + ["Role '" + name + "': invalid YAML in " + def.rules + ": " + e];
      case RoleNotMapping =>
        errors := errors + [RoleErrorLine(name, NotMappingError("RoleSpec"))];
      case RoleDocument(roleRaw) =>
        match Roles.ParseRole(roleRaw) {
          case Success(_) =>
          case Failure(errs) =>
            for j := 0 to |errs|
              invariant errors == RoleErrorLines(name, errs[..j])
            {
              RoleErrorLinesSnoc(name, errs, j);
              errors := errors + [RoleErrorLine(name, errs[j])];
            }
            assert errs[..|errs|] == errs;
        }
    }
  }

  /** The errors of a roles prefix grow by the next role's errors. */
  lemma {:induction false} RoleErrorsAppend(dir: WorkflowDir, roles: Dict<Workflow.RoleDef>, last: (string, Workflow.RoleDef))
    ensures AllRoleErrors(dir, roles + [last]) == AllRoleErrors(dir, roles) + RoleErrors(dir, last.0, last.1)
    decreases |roles|
  {
    var whole := roles + [last];
    if roles == [] {
      assert whole[1..] == [];
    } else {
      assert whole[0] == roles[0] && whole[1..] == roles[1..] + [last];
      RoleErrorsAppend(dir, roles[1..], last);
    }
  }
}
